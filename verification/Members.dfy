/** What the relay says about a member (daemon/src/nmp_publisher.rs `current_membership`): frames of row deltas until
    the host's source is reconciled. */
module Members {
  import opened Contract
  import opened Text

  datatype Delta = Added(row: Event) | Removed(id: string) | SourcesGrew

  /** The state of the host's own source in a frame, when the frame has it. */
  datatype Source = Refusing | Requesting(reconciled: bool) | OtherSource

  datatype Frame = Frame(deltas: seq<Delta>, source: Option<Source>)

  type States = map<string, Event>

  const MAX_STATES := 4
  const TOO_MANY := "NMP returned an invalid number of current membership states"
  const REFUSED := "NMP membership observation was refused by the selected host"
  const TIMED_OUT := "NMP membership observation did not reconcile in time"

  /** `tag_matches`: the name and the value right behind it. */
  predicate TagMatches(tag: seq<string>, name: string, value: string) {
    |tag| >= 2 && tag[0] == name && tag[1] == value
  }

  /** `event_authorizes_member`. */
  predicate Authorizes(event: Event, group: string, member: string) {
    && (event.kind == 39_001 || event.kind == 39_002)
    && (exists tag <- event.tags :: TagMatches(tag, "d", group))
    && (exists tag <- event.tags :: TagMatches(tag, "p", member))
  }

  /** The rows current after some deltas; more than four at once are refused. */
  function Apply(states: States, deltas: seq<Delta>): Result<States, string> {
    if deltas == [] then Ok(states)
    else
      var before :- Apply(states, deltas[..|deltas| - 1]);
      match deltas[|deltas| - 1]
      case Added(row) => if row.id !in before && |before| >= MAX_STATES then Err(TOO_MANY)
          else Ok(before[row.id := row])
      case Removed(id) => Ok(before - {id})
      case SourcesGrew => Ok(before)
  }

  /** Among the current rows, the authorizing one with the least id. */
  ghost predicate Answers(states: States, group: string, member: string, answer: Option<string>) {
    match answer
    case None => forall id <- states :: !Authorizes(states[id], group, member)
    case Some(event) =>
      && (exists id <- states :: Authorizes(states[id], group, member) && states[id].id == event)
      && (forall id <- states :: Authorizes(states[id], group, member) ==>
          event == states[id].id || Below(event, states[id].id))
  }

  ghost predicate KeyedById(states: States) {
    forall id <- states :: states[id].id == id
  }

  lemma AnswerUnique(states: States, group: string, member: string, a: Option<string>, b: Option<string>)
    requires Answers(states, group, member, a) && Answers(states, group, member, b)
    ensures a == b
  {
    if a.Some? && b.Some? && a != b {
      BelowTransitive(a.value, b.value, a.value);
      BelowIrreflexive(a.value);
    }
  }

  /** The states when the host's source first reconciles, unless a frame is bad or refused before. */
  function Reconciled(states: States, frames: seq<Frame>): Result<States, string>
    decreases |frames|
  {
    if frames == [] then Err(TIMED_OUT)
    else
      var after :- Apply(states, frames[0].deltas);
      match frames[0].source
      case Some(Refusing) => Err(REFUSED)
      case Some(Requesting(true)) => Ok(after)
      case _ => Reconciled(after, frames[1..])
  }

  lemma {:induction false} ApplyKeys(states: States, deltas: seq<Delta>)
    requires KeyedById(states)
    ensures Apply(states, deltas).Ok? ==> KeyedById(Apply(states, deltas).value)
  {
    if deltas != [] { ApplyKeys(states, deltas[..|deltas| - 1]); }
  }

  lemma {:induction false} ReconciledKeys(states: States, frames: seq<Frame>)
    requires KeyedById(states)
    ensures Reconciled(states, frames).Ok? ==> KeyedById(Reconciled(states, frames).value)
    decreases |frames|
  {
    if frames != [] {
      ApplyKeys(states, frames[0].deltas);
      if Apply(states, frames[0].deltas).Ok? { ReconciledKeys(Apply(states, frames[0].deltas).value, frames[1..]); }
    }
  }

  /** There is an answer to every question. */
  lemma {:induction false} AnswerExists(states: States, group: string, member: string) returns (answer: Option<string>)
    requires KeyedById(states)
    ensures Answers(states, group, member, answer)
    decreases |states|
  {
    if states == map[] {
      answer := None;
    } else {
      var id :| id in states;
      var rest := states - {id};
      assert |rest| < |states| by { assert rest.Keys == states.Keys - {id}; }
      var before := AnswerExists(rest, group, member);
      if !Authorizes(states[id], group, member) {
        answer := before;
      } else if before.None? || Below(id, before.value) {
        answer := Some(id);
        forall other | other in states && Authorizes(states[other], group, member)
          ensures other == id || Below(id, other)
        {
          if other != id {
            assert other in rest && rest[other] == states[other];
            if before.Some? && before.value != other { BelowTransitive(id, before.value, other); }
          }
        }
      } else {
        BelowTotal(id, before.value);
        answer := before;
      }
      assert forall other <- states :: other == id || other in rest;
    }
  }

  /** `current_membership`: what the reconciled states answer about the member. */
  ghost function CurrentMembership(frames: seq<Frame>, group: string, member: string)
    : (r: Result<Option<string>, string>)
    ensures r.Ok? ==> Reconciled(map[], frames).Ok? && Answers(Reconciled(map[], frames).value, group, member, r.value)
  {
    if Reconciled(map[], frames).Err? then Err(Reconciled(map[], frames).error)
    else
      ReconciledKeys(map[], frames);
      assert exists answer :: Answers(Reconciled(map[], frames).value, group, member, answer) by {
        var some := AnswerExists(Reconciled(map[], frames).value, group, member);
      }
      var answer :| Answers(Reconciled(map[], frames).value, group, member, answer);
      Ok(answer)
  }

  lemma ReconciledStep(states: States, frames: seq<Frame>, k: nat)
    requires k < |frames|
    ensures Reconciled(states, frames[k..])
         == match Apply(states, frames[k].deltas)
            case Err(error) => Err(error)
            case Ok(after) => if frames[k].source == Some(Refusing) then Err(REFUSED)
                              else if frames[k].source == Some(Requesting(true)) then Ok(after)
                              else Reconciled(after, frames[k + 1..])
  {
    assert frames[k..][1..] == frames[k + 1..];
  }

  /** `current_membership`: the frame loop, then the least authorizing row. */
  method ObserveMembership(frames: seq<Frame>, group: string, member: string)
    returns (r: Result<Option<string>, string>)
    ensures r == CurrentMembership(frames, group, member)
  {
    hide Apply, Answers, Authorizes, KeyedById;
    var current: States := map[];
    assert frames[0..] == frames;
    for k := 0 to |frames|
      invariant Reconciled(current, frames[k..]) == Reconciled(map[], frames)
    {
      ReconciledStep(current, frames, k);
      var after := ApplyDeltas(current, frames[k].deltas);
      if after.Err? { return Err(after.error); }
      current := after.value;
      if frames[k].source == Some(Refusing) { return Err(REFUSED); }
      if frames[k].source == Some(Requesting(true)) {
        ReconciledKeys(map[], frames);
        assert KeyedById(map[]) by { NoStates(); }
        var answer := FirstAuthorizing(current, group, member);
        AnswerUnique(current, group, member, answer, CurrentMembership(frames, group, member).value);
        return Ok(answer);
      }
    }
    return Err(TIMED_OUT);
  }

  lemma NoStates()
    ensures KeyedById(map[])
  {
  }

  /** The inner loop over one frame's deltas. */
  method ApplyDeltas(states: States, deltas: seq<Delta>) returns (r: Result<States, string>)
    ensures r == Apply(states, deltas)
  {
    var current := states;
    for k := 0 to |deltas|
      invariant Apply(states, deltas[..k]) == Ok(current)
    {
      assert deltas[..k + 1][..k] == deltas[..k];
      match deltas[k]
      case Added(row) =>
        if row.id !in current && |current| >= MAX_STATES {
          ErrorStays(states, deltas, k + 1);
          return Err(TOO_MANY);
        }
        current := current[row.id := row];
      case Removed(id) => current := current - {id};
      case SourcesGrew =>
    }
    assert deltas[..|deltas|] == deltas;
    return Ok(current);
  }

  lemma {:induction false} ErrorStays(states: States, deltas: seq<Delta>, n: nat)
    requires n <= |deltas| && Apply(states, deltas[..n]).Err?
    ensures Apply(states, deltas) == Err(Apply(states, deltas[..n]).error)
  {
    if n == |deltas| {
      assert deltas[..n] == deltas;
    } else {
      var init := deltas[..|deltas| - 1];
      assert init[..n] == deltas[..n];
      ErrorStays(states, init, n);
    }
  }

  /** `find_map` over the rows in id order. */
  method FirstAuthorizing(states: States, group: string, member: string) returns (answer: Option<string>)
    requires KeyedById(states)
    ensures Answers(states, group, member, answer)
  {
    hide Authorizes;
    answer := None;
    var rest := states.Keys;
    while rest != {}
      invariant rest <= states.Keys
      invariant answer.None? ==> forall id <- states.Keys - rest :: !Authorizes(states[id], group, member)
      invariant answer.Some? ==>
        && answer.value in states && Authorizes(states[answer.value], group, member)
        && (forall id <- states.Keys - rest :: Authorizes(states[id], group, member) ==>
            answer.value == id || Below(answer.value, id))
      decreases |rest|
    {
      var id :| id in rest;
      if Authorizes(states[id], group, member) && (answer.None? || Below(id, answer.value)) {
        if answer.Some? {
          forall other | other in states.Keys - rest && Authorizes(states[other], group, member)
            ensures Below(id, other)
          {
            if other != answer.value { BelowTransitive(id, answer.value, other); }
          }
        }
        answer := Some(id);
      } else if answer.Some? {
        BelowTotal(id, answer.value);
      }
      rest := rest - {id};
    }
  }
}
