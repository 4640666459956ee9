/**
 `IdentityController` (core/src/identity.rs) over an engine that holds account registrations and at most one active
 account. `issued` and `resolved` record the ids of the credential requests shown to the platform and settled by it;
 `orphaned` and `lingering` what the engine keeps because it failed to remove or to deactivate an account, which the
 controller ignores.
 */
module Identity {
  import opened Contract
  import opened Text

  datatype Phase = SignedOut | Saving | SignedIn | LoggingOut

  datatype Snapshot = Snapshot(phase: Phase, pubkey: Option<string>, error: Option<string>)

  datatype Operation = Store | Delete

  datatype CredentialRequest = CredentialRequest(id: nat, operation: Operation)

  /** An engine handle for one added account. */
  datatype Registration = Registration(handle: nat, pubkey: string)

  datatype Pending =
    | Storing(request: CredentialRequest, registration: Registration, pubkey: string)
    | Deleting(request: CredentialRequest)

  datatype Engine = Engine(registrations: set<Registration>, active: Option<string>, nextHandle: nat)

  /** The engine's answers during one call: to activating an account, to removing one, to clearing the active one. */
  datatype Replies = Replies(refusal: Option<string>, removed: bool, cleared: bool)

  datatype State = State(
    account: Option<Registration>, snapshot: Snapshot, pending: Option<Pending>, nextRequestId: nat, engine: Engine,
    issued: seq<nat>, resolved: seq<nat>, orphaned: set<Registration>, lingering: Option<string>)

  const SIGNED_OUT := Snapshot(SignedOut, None, None)
  const NEW := State(None, SIGNED_OUT, None, 1, Engine({}, None, 0), [], [], {}, None)
  const BUSY := "Another account operation is still in progress."

  function CapabilityError(prefix: string, error: Option<string>): string {
    if error.Some? && Trim(error.value) != "" then prefix + " " + error.value else prefix
  }

  function ActivePubkey(s: State): Option<string> {
    if s.snapshot.phase.SignedIn? then s.snapshot.pubkey else None
  }

  function Saturated(n: nat): nat {
    if n < U64_MAX then n + 1 else U64_MAX
  }

  // ----- what each call does -----

  function ErrorOf(s: State, message: string): State {
    s.(snapshot := s.snapshot.(error := Some(message)))
  }

  function Issue(s: State): State {
    s.(nextRequestId := Saturated(s.nextRequestId), issued := s.issued + [s.nextRequestId])
  }

  /** `remove_account`, whose failure leaves the registration behind. */
  function RemoveOf(s: State, registration: Registration, removed: bool): State {
    if removed then s.(engine := s.engine.(registrations := s.engine.registrations - {registration}))
    else s.(orphaned := s.orphaned + {registration})
  }

  /** `activate`: the engine may refuse the account, which is then removed. */
  function ActivateOf(s: State, registration: Registration, pubkey: string, replies: Replies): State {
    if replies.refusal.Some? then
      RemoveOf(s, registration, replies.removed).(
        snapshot := Snapshot(SignedOut, None, Some("The account could not be activated: " + replies.refusal.value)))
    else
      s.(engine := s.engine.(active := Some(registration.pubkey)), lingering := None, account := Some(registration),
         snapshot := Snapshot(SignedIn, Some(pubkey), None))
  }

  /** `detach`: clear the active account, then remove the held one. */
  function DetachOf(s: State, replies: Replies): State {
    var t := if replies.cleared then s.(engine := s.engine.(active := None), lingering := None)
             else s.(lingering := s.engine.active);
    if s.account.Some? then RemoveOf(t.(account := None), s.account.value, replies.removed) else t
  }

  /** `pubkey` is what `add_account` makes of the secret. */
  function LoginOf(s: State, pubkey: Option<string>, persist: bool, replies: Replies): State {
    if s.pending.Some? then ErrorOf(s, BUSY)
    else if s.account.Some? then ErrorOf(s, "Log out before signing in with another key.")
    else if pubkey.None? then s.(snapshot := Snapshot(SignedOut, None, Some("That nsec is not valid.")))
    else
      var registration := Registration(s.engine.nextHandle, pubkey.value);
      var t := s.(engine := s.engine.(registrations := s.engine.registrations + {registration},
                                      nextHandle := s.engine.nextHandle + 1));
      if persist then
        Issue(t).(pending := Some(Storing(CredentialRequest(s.nextRequestId, Store), registration, pubkey.value)),
                  snapshot := Snapshot(Saving, pubkey, None))
      else ActivateOf(t, registration, pubkey.value, replies)
  }

  function LogoutOf(s: State): State {
    if s.pending.Some? then ErrorOf(s, BUSY)
    else if s.account.None? then s.(snapshot := SIGNED_OUT)
    else Issue(s).(pending := Some(Deleting(CredentialRequest(s.nextRequestId, Delete))),
                   snapshot := s.snapshot.(phase := LoggingOut, error := None))
  }

  function RestoreFailedOf(s: State, error: string): State {
    if s.account.None? && s.pending.None? then
      s.(snapshot :=
         Snapshot(SignedOut, None, Some(CapabilityError("The saved login could not be read.", Some(error)))))
    else s
  }

  function ResultOf(s: State, requestId: nat, succeeded: bool, error: Option<string>, replies: Replies): State {
    if s.pending.None? || s.pending.value.request.id != requestId then s
    else
      var t := s.(pending := None, resolved := s.resolved + [requestId]);
      match s.pending.value
      case Storing(_, registration, pubkey) =>
        if succeeded then ActivateOf(t, registration, pubkey, replies)
        else RemoveOf(t, registration, replies.removed).(
               snapshot := Snapshot(SignedOut, None, Some(CapabilityError("The login could not be saved.", error))))
      case Deleting(_) =>
        if succeeded then DetachOf(t, replies).(snapshot := SIGNED_OUT)
        else t.(snapshot := t.snapshot.(phase := SignedIn,
                                        error := Some(CapabilityError("The saved login could not be removed.", error))))
  }

  function ShutdownOf(s: State, replies: Replies): State {
    var t := s.(pending := None);
    var storing := s.pending.Some? && s.pending.value.Storing?;
    var u := if storing then RemoveOf(t, s.pending.value.registration, replies.removed) else t;
    DetachOf(u, replies)
  }

  // ----- the invariant -----

  /** The phase the snapshot must show. */
  function PhaseFor(account: Option<Registration>, pending: Option<Pending>): Option<Phase> {
    match (account, pending)
    case (None, None) => Some(SignedOut)
    case (None, Some(Storing(_, _, _))) => Some(Saving)
    case (Some(_), None) => Some(SignedIn)
    case (Some(_), Some(Deleting(_))) => Some(LoggingOut)
    case (_, _) => None
  }

  /** The registration the controller answers for. */
  function Held(s: State): Option<Registration> {
    if s.account.Some? then s.account
    else if s.pending.Some? && s.pending.value.Storing? then Some(s.pending.value.registration)
    else None
  }

  /** The phase is exactly what account and pending request say; the engine holds exactly the held registration and what
      it failed to remove; the signed-in account is active, or without one what it failed to clear. */
  predicate Coherent(s: State) {
    && PhaseFor(s.account, s.pending) == Some(s.snapshot.phase)
    && s.engine.registrations == s.orphaned + (if Held(s).Some? then {Held(s).value} else {})
    && (Held(s).Some? ==> Held(s).value !in s.orphaned)
    && (forall registration <- s.engine.registrations :: registration.handle < s.engine.nextHandle)
    && s.engine.active == (if s.account.Some? then Some(s.account.value.pubkey) else s.lingering)
    && s.snapshot.pubkey == (if Held(s).Some? then Some(Held(s).value.pubkey) else None)
    && (s.pending.Some? && s.pending.value.Storing? ==> s.pending.value.pubkey == s.pending.value.registration.pubkey)
  }

  function NthId(k: nat): nat {
    if k < U64_MAX then k + 1 else U64_MAX
  }

  /** Ids are issued in order up to the u64 limit, and every request but the pending one has been settled in turn. */
  ghost predicate Accounted(s: State) {
    && (forall k | 0 <= k < |s.issued| :: s.issued[k] == NthId(k))
    && s.nextRequestId == NthId(|s.issued|)
    && s.resolved <= s.issued
    && |s.issued| == |s.resolved| + (if s.pending.Some? then 1 else 0)
    && (s.pending.Some? ==> s.pending.value.request.id == s.issued[|s.resolved|])
    && (s.pending.Some? ==> (s.pending.value.request.operation.Store? <==> s.pending.value.Storing?))
  }

  datatype Call =
    | Login(pubkey: Option<string>, persist: bool, replies: Replies)
    | Logout
    | RestoreFailed(reason: string)
    | CredentialResult(requestId: nat, succeeded: bool, error: Option<string>, replies: Replies)

  function Do(s: State, call: Call): State {
    match call
    case Login(pubkey, persist, replies) => LoginOf(s, pubkey, persist, replies)
    case Logout => LogoutOf(s)
    case RestoreFailed(reason) => RestoreFailedOf(s, reason)
    case CredentialResult(id, succeeded, error, replies) => ResultOf(s, id, succeeded, error, replies)
  }

  function Run(s: State, calls: seq<Call>): State {
    if calls == [] then s else Do(Run(s, calls[..|calls| - 1]), calls[|calls| - 1])
  }

  /** The engine did what it was asked. */
  predicate Obeyed(call: Call) {
    call.Login? || call.CredentialResult? ==> call.replies.removed && call.replies.cleared
  }

  predicate NothingLeft(s: State) {
    s.orphaned == {} && s.lingering.None?
  }

  lemma CallKeeps(s: State, call: Call)
    requires Coherent(s) && Accounted(s)
    ensures Coherent(Do(s, call)) && Accounted(Do(s, call))
    ensures NothingLeft(s) && Obeyed(call) ==> NothingLeft(Do(s, call))
  {
    hide Do, Coherent, Accounted, NothingLeft, Obeyed;
    CallKeepsCoherent(s, call);
    CallKeepsAccounts(s, call);
    if NothingLeft(s) && Obeyed(call) { CallLeavesNothing(s, call); }
  }

  lemma CallLeavesNothing(s: State, call: Call)
    requires NothingLeft(s) && Obeyed(call)
    ensures NothingLeft(Do(s, call))
  {
    hide CapabilityError, Saturated;
  }

  lemma CallKeepsCoherent(s: State, call: Call)
    requires Coherent(s)
    ensures Coherent(Do(s, call))
  {
    hide CapabilityError, Saturated, LoginOf, ResultOf, LogoutOf;
    match call
    case Login(pubkey, persist, replies) => LoginCoherent(s, pubkey, persist, replies);
    case Logout => LogoutCoherent(s);
    case RestoreFailed(reason) =>
    case CredentialResult(id, succeeded, error, replies) => ResultCoherent(s, id, succeeded, error, replies);
  }

  /** A state between two steps: `registration`, if any, is the engine's only one besides what it failed to remove. */
  predicate Holds(s: State, registration: Registration) {
    && s.engine.registrations == s.orphaned + {registration} && registration !in s.orphaned
    && forall other <- s.engine.registrations :: other.handle < s.engine.nextHandle
  }

  predicate HoldsNothing(s: State) {
    && s.engine.registrations == s.orphaned
    && forall other <- s.engine.registrations :: other.handle < s.engine.nextHandle
  }

  /** Removing the one registration leaves none, or one more orphan. */
  lemma RemoveReleases(s: State, registration: Registration, removed: bool)
    requires Holds(s, registration)
    ensures HoldsNothing(RemoveOf(s, registration, removed))
  {
  }

  lemma HeldHolds(s: State)
    requires Coherent(s)
    ensures if Held(s).Some? then Holds(s, Held(s).value) else HoldsNothing(s)
  {
  }

  /** Nobody signed in, nothing pending. */
  lemma SignedOutCoherent(s: State)
    requires HoldsNothing(s) && s.account.None? && s.pending.None? && s.engine.active == s.lingering
    requires s.snapshot.phase.SignedOut? && s.snapshot.pubkey.None?
    ensures Coherent(s)
  {
  }

  /** Activating the held registration signs it in, or leaves it to the engine's removal. */
  lemma ActivateCoherent(s: State, registration: Registration, replies: Replies)
    requires Holds(s, registration) && s.engine.active == s.lingering && s.account.None? && s.pending.None?
    ensures Coherent(ActivateOf(s, registration, registration.pubkey, replies))
  {
    if replies.refusal.Some? {
      RemoveReleases(s, registration, replies.removed);
      hide Holds, HoldsNothing, Coherent;
      SignedOutCoherent(ActivateOf(s, registration, registration.pubkey, replies));
    }
  }

  lemma LoginCoherent(s: State, pubkey: Option<string>, persist: bool, replies: Replies)
    requires Coherent(s)
    ensures Coherent(LoginOf(s, pubkey, persist, replies))
  {
    hide ActivateOf, Saturated;
    if s.pending.None? && s.account.None? && pubkey.Some? {
      var registration := Registration(s.engine.nextHandle, pubkey.value);
      var t := s.(engine := s.engine.(registrations := s.engine.registrations + {registration},
                                      nextHandle := s.engine.nextHandle + 1));
      assert Holds(t, registration);
      ActivateCoherent(t, registration, replies);
    }
  }

  lemma LogoutCoherent(s: State)
    requires Coherent(s)
    ensures Coherent(LogoutOf(s))
  {
    hide Saturated;
  }

  lemma ResultCoherent(s: State, id: nat, succeeded: bool, error: Option<string>, replies: Replies)
    requires Coherent(s)
    ensures Coherent(ResultOf(s, id, succeeded, error, replies))
  {
    hide CapabilityError, ActivateOf, RemoveOf;
    if s.pending.Some? && s.pending.value.request.id == id {
      var t := s.(pending := None, resolved := s.resolved + [id]);
      HeldHolds(s);
      match s.pending.value
      case Storing(_, registration, _) =>
        assert Holds(t, registration);
        if succeeded {
          ActivateCoherent(t, registration, replies);
        } else {
          RemovedState(t, registration, replies.removed);
          RemoveReleases(t, registration, replies.removed);
          hide Holds, HoldsNothing, Coherent;
          SignedOutCoherent(ResultOf(s, id, succeeded, error, replies));
        }
      case Deleting(_) =>
        if succeeded {
          assert Holds(t, t.account.value);
          DetachCoherent(t, replies);
        }
    }
  }

  /** What removal leaves alone. */
  lemma RemovedState(s: State, registration: Registration, removed: bool)
    ensures var t := RemoveOf(s, registration, removed);
      && t.account == s.account && t.pending == s.pending && t.snapshot == s.snapshot && t.lingering == s.lingering
      && t.engine.active == s.engine.active && HoldsNothing(t) == HoldsNothing(t.(snapshot := SIGNED_OUT))
  {
  }

  lemma DetachCoherent(s: State, replies: Replies)
    requires s.account.Some? && Holds(s, s.account.value) && s.pending.None?
    ensures Coherent(DetachOf(s, replies).(snapshot := SIGNED_OUT))
  {
    hide RemoveOf, Coherent;
    var t := if replies.cleared then s.(engine := s.engine.(active := None), lingering := None)
             else s.(lingering := s.engine.active);
    var u := t.(account := None);
    assert Holds(u, s.account.value);
    RemoveReleases(u, s.account.value, replies.removed);
    RemovedState(u, s.account.value, replies.removed);
    hide Holds, HoldsNothing;
    SignedOutCoherent(DetachOf(s, replies).(snapshot := SIGNED_OUT));
  }

  /** The request bookkeeping of a state. */
  predicate SameBooks(s: State, t: State) {
    t.pending == s.pending && t.nextRequestId == s.nextRequestId && t.issued == s.issued && t.resolved == s.resolved
  }

  lemma IssueKeepsAccounts(s: State, t: State, pending: Pending)
    requires Accounted(s) && s.pending.None? && SameBooks(Issue(s).(pending := Some(pending)), t)
    requires pending.request.id == s.nextRequestId && (pending.request.operation.Store? <==> pending.Storing?)
    ensures Accounted(t)
  {
  }

  lemma ResultKeepsAccounts(s: State, t: State)
    requires Accounted(s) && s.pending.Some?
    requires SameBooks(s.(pending := None, resolved := s.resolved + [s.pending.value.request.id]), t)
    ensures Accounted(t)
  {
    assert s.resolved + [s.pending.value.request.id] == s.issued;
  }

  lemma CallKeepsAccounts(s: State, call: Call)
    requires Accounted(s)
    ensures Accounted(Do(s, call))
  {
    hide Accounted, Do;
    var t := Do(s, call);
    CallBooks(s, call);
    if SameBooks(s, t) {
      SameBooksAccounts(s, t);
    } else if s.pending.Some? {
      ResultKeepsAccounts(s, t);
    } else {
      IssueKeepsAccounts(s, t, t.pending.value);
    }
  }

  lemma SameBooksAccounts(s: State, t: State)
    requires Accounted(s) && SameBooks(s, t)
    ensures Accounted(t)
  {
  }

  /** Removing, activating and detaching leave the books alone. */
  lemma EngineKeepsBooks(s: State, registration: Registration, pubkey: string, replies: Replies)
    ensures SameBooks(s, RemoveOf(s, registration, replies.removed)) && SameBooks(s, DetachOf(s, replies))
    ensures SameBooks(s, ActivateOf(s, registration, pubkey, replies))
  {
  }

  /** A call leaves the books alone, settles the pending request, or issues the next one. */
  lemma CallBooks(s: State, call: Call)
    ensures var t := Do(s, call);
      || SameBooks(s, t)
      || (s.pending.Some? && SameBooks(s.(pending := None, resolved := s.resolved + [s.pending.value.request.id]), t))
      || (s.pending.None? && t.pending.Some? && SameBooks(Issue(s).(pending := t.pending), t)
          && t.pending.value.request.id == s.nextRequestId
          && (t.pending.value.request.operation.Store? <==> t.pending.value.Storing?))
  {
    hide CapabilityError, Saturated, RemoveOf, ActivateOf, DetachOf;
    match call
    case Login(pubkey, persist, replies) =>
      if s.pending.None? && s.account.None? && pubkey.Some? {
        var registration := Registration(s.engine.nextHandle, pubkey.value);
        var t := s.(engine := s.engine.(registrations := s.engine.registrations + {registration},
                                        nextHandle := s.engine.nextHandle + 1));
        EngineKeepsBooks(t, registration, pubkey.value, replies);
      }
    case Logout =>
    case RestoreFailed(_) =>
    case CredentialResult(id, _, _, replies) =>
      if s.pending.Some? && s.pending.value.request.id == id {
        var t := s.(pending := None, resolved := s.resolved + [id]);
        match s.pending.value
        case Storing(_, registration, pubkey) => EngineKeepsBooks(t, registration, pubkey, replies);
        case Deleting(_) => EngineKeepsBooks(t, Registration(0, ""), "", replies);
      }
  }

  /** In every reachable state the phase is determined by what the controller holds; the engine's registrations are that
      and what it failed to remove, its active account the held one or what it failed to clear, both nothing while it
      obeys; and every credential request is accounted for. */
  lemma {:induction false} AlwaysCoherent(calls: seq<Call>)
    ensures Coherent(Run(NEW, calls)) && Accounted(Run(NEW, calls))
    ensures (forall call <- calls :: Obeyed(call)) ==> NothingLeft(Run(NEW, calls))
  {
    if calls == [] {
      assert Run(NEW, calls) == NEW;
    } else {
      hide Coherent, Accounted, Do, Obeyed, NothingLeft;
      var init, last := calls[..|calls| - 1], calls[|calls| - 1];
      assert last in calls && forall call <- init :: call in calls;
      AlwaysCoherent(init);
      CallKeeps(Run(NEW, init), last);
    }
  }

  /** Requests are settled at most once each exactly as long as no more have been settled than there are u64 ids. */
  lemma SettledAtMostOnce(calls: seq<Call>)
    ensures var s := Run(NEW, calls);
      (forall i, j :: 0 <= i < j < |s.resolved| ==> s.resolved[i] != s.resolved[j]) <==> |s.resolved| <= U64_MAX
  {
    AlwaysCoherent(calls);
    var s := Run(NEW, calls);
    assert forall k :: 0 <= k < |s.resolved| ==> s.resolved[k] == s.issued[k];
    if |s.resolved| > U64_MAX {
      assert s.resolved[U64_MAX - 1] == s.resolved[U64_MAX];
    }
  }

  /** A result that is not for the pending request changes nothing; so, while ids last, does any second result for a
      request already settled. */
  lemma StaleResultsChangeNothing(calls: seq<Call>, requestId: nat, succeeded: bool, error: Option<string>,
                                  replies: Replies)
    ensures var s := Run(NEW, calls);
      && (s.pending.None? || s.pending.value.request.id != requestId ==>
            ResultOf(s, requestId, succeeded, error, replies) == s)
      && (requestId in s.resolved && |s.issued| <= U64_MAX ==>
            ResultOf(s, requestId, succeeded, error, replies) == s)
  {
    AlwaysCoherent(calls);
    var s := Run(NEW, calls);
    if requestId in s.resolved && |s.issued| <= U64_MAX {
      var k :| 0 <= k < |s.resolved| && s.resolved[k] == requestId;
      assert s.resolved[k] == s.issued[k];
    }
  }

  /** Shutdown leaves the engine no registration and no active account beyond what it fails to remove or to clear,
      whatever was in progress: none at all when it has obeyed throughout. */
  lemma ShutdownReleasesEverything(calls: seq<Call>, replies: Replies)
    ensures var before := Run(NEW, calls);
      var s := ShutdownOf(before, replies);
      && s.account.None? && s.pending.None? && s.engine.registrations == s.orphaned && s.engine.active == s.lingering
      && (replies.removed ==> s.orphaned == before.orphaned) && (replies.cleared ==> s.lingering.None?)
      && (replies.removed && replies.cleared && (forall call <- calls :: Obeyed(call)) ==>
            s.engine.registrations == {} && s.engine.active.None?)
  {
    AlwaysCoherent(calls);
    var s := Run(NEW, calls);
    HeldHolds(s);
    hide Run, Accounted, Obeyed;
    if s.pending.Some? && s.pending.value.Storing? {
      RemoveReleases(s.(pending := None), s.pending.value.registration, replies.removed);
    } else if s.account.Some? {
      assert Holds(s.(pending := None, account := None), s.account.value);
    }
  }

  class IdentityController {
    var account: Option<Registration>
    var snapshot: Snapshot
    var pending: Option<Pending>
    var nextRequestId: nat
    var engine: Engine
    ghost var issued: seq<nat>
    ghost var resolved: seq<nat>
    ghost var orphaned: set<Registration>
    ghost var lingering: Option<string>

    constructor ()
      ensures Contents() == NEW
    {
      account, snapshot, pending, nextRequestId, engine := None, SIGNED_OUT, None, 1, Engine({}, None, 0);
      issued, resolved, orphaned, lingering := [], [], {}, None;
    }

    ghost function Contents(): State
      reads this
    {
      State(account, snapshot, pending, nextRequestId, engine, issued, resolved, orphaned, lingering)
    }

    function Active(): Option<string>
      reads this
    {
      if snapshot.phase.SignedIn? then snapshot.pubkey else None
    }

    method Login(pubkey: Option<string>, persist: bool, replies: Replies)
      modifies this
      ensures Contents() == LoginOf(old(Contents()), pubkey, persist, replies)
    {
      if pending.Some? {
        SetError(BUSY);
        return;
      }
      if account.Some? {
        SetError("Log out before signing in with another key.");
        return;
      }
      if pubkey.None? {
        snapshot := Snapshot(SignedOut, None, Some("That nsec is not valid."));
        return;
      }
      var registration := Registration(engine.nextHandle, pubkey.value);
      engine := engine.(registrations := engine.registrations + {registration}, nextHandle := engine.nextHandle + 1);
      if persist {
        var request := Request(Store);
        pending := Some(Storing(request, registration, pubkey.value));
        snapshot := Snapshot(Saving, pubkey, None);
        return;
      }
      Activate(registration, pubkey.value, replies);
    }

    method Logout()
      modifies this
      ensures Contents() == LogoutOf(old(Contents()))
    {
      if pending.Some? {
        SetError(BUSY);
        return;
      }
      if account.None? {
        snapshot := SIGNED_OUT;
        return;
      }
      var request := Request(Delete);
      pending := Some(Deleting(request));
      snapshot := snapshot.(phase := LoggingOut);
      snapshot := snapshot.(error := None);
    }

    method RestoreFailed(error: string)
      modifies this
      ensures Contents() == RestoreFailedOf(old(Contents()), error)
    {
      if account.None? && pending.None? {
        snapshot := Snapshot(SignedOut, None, Some(CapabilityError("The saved login could not be read.", Some(error))));
      }
    }

    method CredentialResult(requestId: nat, succeeded: bool, error: Option<string>, replies: Replies)
      modifies this
      ensures Contents() == ResultOf(old(Contents()), requestId, succeeded, error, replies)
    {
      if pending.None? { return; }
      var taken := pending.value;
      pending := None;
      if taken.request.id != requestId {
        pending := Some(taken);
        return;
      }
      resolved := resolved + [requestId];
      match taken
      case Storing(_, registration, pubkey) =>
        if succeeded {
          Activate(registration, pubkey, replies);
        } else {
          Remove(registration, replies.removed);
          snapshot := Snapshot(SignedOut, None, Some(CapabilityError("The login could not be saved.", error)));
        }
      case Deleting(_) =>
        if succeeded {
          Detach(replies);
          snapshot := SIGNED_OUT;
        } else {
          snapshot := snapshot.(phase := SignedIn);
          snapshot := snapshot.(error := Some(CapabilityError("The saved login could not be removed.", error)));
        }
    }

    method Shutdown(replies: Replies)
      modifies this
      ensures Contents() == ShutdownOf(old(Contents()), replies)
    {
      var taken := pending;
      pending := None;
      if taken.Some? && taken.value.Storing? { Remove(taken.value.registration, replies.removed); }
      Detach(replies);
    }

    /** `remove_account`: its failure is ignored. */
    method Remove(registration: Registration, removed: bool)
      modifies this
      ensures Contents() == RemoveOf(old(Contents()), registration, removed)
    {
      if removed {
        engine := engine.(registrations := engine.registrations - {registration});
      } else {
        orphaned := orphaned + {registration};
      }
    }

    method Activate(registration: Registration, pubkey: string, replies: Replies)
      modifies this
      ensures Contents() == ActivateOf(old(Contents()), registration, pubkey, replies)
    {
      if replies.refusal.Some? {
        Remove(registration, replies.removed);
        snapshot := Snapshot(SignedOut, None, Some("The account could not be activated: " + replies.refusal.value));
        return;
      }
      engine := engine.(active := Some(registration.pubkey));
      lingering := None;
      account := Some(registration);
      snapshot := Snapshot(SignedIn, Some(pubkey), None);
    }

    method Detach(replies: Replies)
      modifies this
      ensures Contents() == DetachOf(old(Contents()), replies)
    {
      if replies.cleared {
        engine := engine.(active := None);
        lingering := None;
      } else {
        lingering := engine.active;
      }
      var taken := account;
      account := None;
      if taken.Some? { Remove(taken.value, replies.removed); }
    }

    method Request(operation: Operation) returns (request: CredentialRequest)
      modifies this
      ensures Contents() == Issue(old(Contents()))
      ensures request == CredentialRequest(old(nextRequestId), operation)
    {
      request := CredentialRequest(nextRequestId, operation);
      issued := issued + [nextRequestId];
      nextRequestId := Saturated(nextRequestId);
    }

    method SetError(message: string)
      modifies this
      ensures Contents() == ErrorOf(old(Contents()), message)
    {
      snapshot := snapshot.(error := Some(message));
    }
  }
}
