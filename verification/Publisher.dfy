/**
 The NMP publisher (daemon/src/nmp_publisher.rs) over an abstract NMP write store: a log of accepted
 writes whose receipt is the position in the log. A membership write carries a correlation token, the
 digest of (request id, author), and the store keeps one write per token.
 */
module Publisher {
  import opened Contract
  import opened Text
  import opened Composer
  import opened Members

  /** `request_id` on a spoken write records which job submitted it; NMP sees only the item. */
  datatype Write =
    | Spoken(requestId: string, item: FrozenSpokenItem)
    | Membership(requestId: string, author: string, createdAt: nat)
    | Foreign(eventId: string)

  /** The NMP store and the publisher's session cache of authorized authors. */
  datatype Nmp = Nmp(writes: seq<Write>, members: map<string, string>)

  /** The configured group, `PublicKey::parse`, and the event id of a composed write (its NIP-01 hash). */
  datatype Host = Host(groupId: string, admin: string, key: KeyParser,
                       spokenId: WriteIntent -> string, membershipId: (string, nat) -> string)

  /** What the receipt stream of a write ends in. */
  datatype Ack = Acked | Refused(error: string)

  datatype AuthorizationStep = Authorized(eventId: string) | Accepted(receiptId: nat)

  function Describe(error: ComposeError): string {
    match error
    case InvalidAuthor => "the frozen author is not a public key"
    case InvalidField(field) => "invalid frozen field: " + field
    case InvalidTag => "NMP refused a generated protocol tag"
  }

  /** The id of the event a spoken item is sent as. */
  function SpokenId(host: Host, item: FrozenSpokenItem): string {
    match ComposeSpokenItem(item, host.key)
    case Ok(intent) => host.spokenId(intent)
    case Err(_) => ""
  }

  function EventIdOf(host: Host, write: Write): string {
    match write
    case Spoken(_, item) => SpokenId(host, item)
    case Membership(_, author, createdAt) => host.membershipId(author, createdAt)
    case Foreign(id) => id
  }

  /** The receipt of the membership write with this correlation token. */
  function TokenReceipt(writes: seq<Write>, requestId: string, author: string): (r: Option<nat>)
    ensures r.Some? ==> r.value < |writes| && writes[r.value].Membership?
                        && writes[r.value].requestId == requestId && writes[r.value].author == author
    ensures r.None? ==> forall w <- writes :: w.Membership? ==> !(w.requestId == requestId && w.author == author)
  {
    if writes == [] then None
    else
      var last := writes[|writes| - 1];
      if last.Membership? && last.requestId == requestId && last.author == author then Some(|writes| - 1)
      else TokenReceipt(writes[..|writes| - 1], requestId, author)
  }

  function AwaitHostAck(host: Host, writes: seq<Write>, receipt: nat, ack: Ack): Result<string, string> {
    if |writes| <= receipt then Err("NMP write receipt was not found")
    else match ack case Acked => Ok(EventIdOf(host, writes[receipt])) case Refused(error) => Err(error)
  }

  predicate Mentions(text: string, part: string) {
    exists i | 0 <= i <= |text| :: part <= text[i..]
  }

  predicate DuplicateMember(error: string) {
    Mentions(error, "members already") || Mentions(error, "already a member")
  }

  // ----- what each call does to the store and the cache -----

  /** `frames` are what the relay shows of the group's membership, `token` the engine's refusal of the correlation token
      and `refusal` its refusal of the write. */
  ghost function AuthorizeOf(host: Host, nmp: Nmp, requestId: string, author: string, createdAt: nat,
                             frames: seq<Frame>, token: Option<string>, refusal: Option<string>)
    : (Nmp, Result<AuthorizationStep, string>)
  {
    if author in nmp.members then (nmp, Ok(Authorized(nmp.members[author])))
    else if host.key(author).None? then (nmp, Err("frozen spoken-item author is not a public key"))
    else if Bounded(host.groupId, 128).None? then (nmp, Err("the group id is invalid"))
    else match CurrentMembership(frames, host.groupId, host.key(author).value)
      case Err(error) => (nmp, Err(error))
      case Ok(Some(event)) => (nmp.(members := nmp.members[author := event]), Ok(Authorized(event)))
      case Ok(None) =>
        if token.Some? then (nmp, Err("membership correlation was refused: " + token.value))
        else if host.key(host.admin).None? then (nmp, Err("the group admin is not a public key"))
        else if refusal.Some? then (nmp, Err(refusal.value))
        else match TokenReceipt(nmp.writes, requestId, author)
          case Some(receipt) => (nmp, Ok(Accepted(receipt)))
          case None => (nmp.(writes := nmp.writes + [Membership(requestId, author, createdAt)]),
                        Ok(Accepted(|nmp.writes|)))
  }

  function ResumeAuthorizationOf(host: Host, nmp: Nmp, receipt: nat, author: string, ack: Ack)
    : (Nmp, Result<string, string>)
  {
    match AwaitHostAck(host, nmp.writes, receipt, ack)
    case Ok(event) => (nmp.(members := nmp.members[author := event]), Ok(event))
    case Err(error) =>
      if !DuplicateMember(error) then (nmp, Err(error))
      else if author in nmp.members then (nmp, Ok(nmp.members[author]))
      else (nmp, Err("membership add was rejected as duplicate but no prior membership is known: " + error))
  }

  function AcceptOf(host: Host, nmp: Nmp, requestId: string, item: FrozenSpokenItem, refusal: Option<string>)
    : (Nmp, Result<nat, string>)
  {
    if item.groupId != host.groupId then
      var other: Result<nat, string> := Err("spoken item group does not match the configured producer group");
      (nmp, other)
    else match ComposeSpokenItem(item, host.key)
      case Err(error) => (nmp, Err(Describe(error)))
      case Ok(_) =>
        if refusal.Some? then (nmp, Err(refusal.value))
        else (nmp.(writes := nmp.writes + [Spoken(requestId, item)]), Ok(|nmp.writes|))
  }

  class NmpPublisher {
    const host: Host
    var writes: seq<Write>
    var authorizedMembers: map<string, string>

    constructor (host: Host, writes: seq<Write>)
      ensures this.host == host && Contents() == Nmp(writes, map[])
    {
      this.host, this.writes, this.authorizedMembers := host, writes, map[];
    }

    ghost function Contents(): Nmp
      reads this
    {
      Nmp(writes, authorizedMembers)
    }

    /** A new session on the same store: the cache starts empty. */
    method Reopen()
      modifies this`authorizedMembers
      ensures Contents() == old(Contents()).(members := map[])
    {
      authorizedMembers := map[];
    }

    method Authorize(requestId: string, author: string, createdAt: nat, frames: seq<Frame>, token: Option<string>,
                     refusal: Option<string>)
      returns (r: Result<AuthorizationStep, string>)
      modifies this
      ensures (Contents(), r)
          == AuthorizeOf(host, old(Contents()), requestId, author, createdAt, frames, token, refusal)
    {
      if author in authorizedMembers { return Ok(Authorized(authorizedMembers[author])); }
      if host.key(author).None? { return Err("frozen spoken-item author is not a public key"); }
      if Bounded(host.groupId, 128).None? { return Err("the group id is invalid"); }
      var current := ObserveMembership(frames, host.groupId, host.key(author).value);
      match current {
        case Err(error) => return Err(error);
        case Ok(Some(event)) =>
          authorizedMembers := authorizedMembers[author := event];
          return Ok(Authorized(event));
        case Ok(None) =>
      }
      if token.Some? { return Err("membership correlation was refused: " + token.value); }
      if host.key(host.admin).None? { return Err("the group admin is not a public key"); }
      if refusal.Some? { return Err(refusal.value); }
      match TokenReceipt(writes, requestId, author)
      case Some(receipt) => return Ok(Accepted(receipt));
      case None =>
        writes := writes + [Membership(requestId, author, createdAt)];
        return Ok(Accepted(|writes| - 1));
    }

    method ResumeAuthorization(receipt: nat, author: string, ack: Ack) returns (r: Result<string, string>)
      modifies this`authorizedMembers
      ensures (Contents(), r) == ResumeAuthorizationOf(host, old(Contents()), receipt, author, ack)
    {
      match AwaitHostAck(host, writes, receipt, ack)
      case Ok(event) =>
        authorizedMembers := authorizedMembers[author := event];
        return Ok(event);
      case Err(error) =>
        if !DuplicateMember(error) { return Err(error); }
        if author in authorizedMembers { return Ok(authorizedMembers[author]); }
        return Err("membership add was rejected as duplicate but no prior membership is known: " + error);
    }

    method Accept(requestId: string, item: FrozenSpokenItem, refusal: Option<string>)
      returns (r: Result<nat, string>)
      modifies this
      ensures (Contents(), r) == AcceptOf(host, old(Contents()), requestId, item, refusal)
    {
      hide ComposeSpokenItem;
      if item.groupId != host.groupId {
        return Err("spoken item group does not match the configured producer group");
      }
      match ComposeSpokenItem(item, host.key)
      case Err(error) => return Err(Describe(error));
      case Ok(_) =>
        if refusal.Some? { return Err(refusal.value); }
        writes := writes + [Spoken(requestId, item)];
        return Ok(|writes| - 1);
    }

    function Resume(receipt: nat, ack: Ack): Result<string, string>
      reads this
    {
      AwaitHostAck(host, writes, receipt, ack)
    }
  }
}
