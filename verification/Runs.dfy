/**
 Exactly-once publication: what holds after any sequence of admissions, advances, lost saves, restarts
 and foreign NMP writes, for any number of jobs handled by one runner.
 */
module Runs {
  import opened Contract
  import opened Text
  import opened Composer
  import opened Jobs
  import opened Journal
  import opened Publisher
  import opened Runner

  /** A restart loses the publisher's session cache; `OtherWrite` is any write that is not this runner's. */
  datatype Action =
    | Admit(request: ProducerRequest, author: string, createdAt: nat, w: World)
    | Advance(id: string, w: World)
    | Restart
    | OtherWrite(eventId: string)

  const EMPTY := State(map[], Nmp([], map[]))

  ghost function Do(setup: Setup, s: State, a: Action): State {
    match a
    case Admit(request, author, createdAt, w) =>
      s.(jobs := AdmitOf(setup, s.jobs, request, author, createdAt, w).0)
    case Advance(id, w) => AdvanceOf(setup, s, id, w).0
    case Restart => s.(nmp := s.nmp.(members := map[]))
    case OtherWrite(event) => s.(nmp := s.nmp.(writes := s.nmp.writes + [Foreign(event)]))
  }

  ghost function Run(setup: Setup, s: State, actions: seq<Action>): State {
    if actions == [] then s
    else Do(setup, Run(setup, s, actions[..|actions| - 1]), actions[|actions| - 1])
  }

  lemma {:induction false} RunConcat(setup: Setup, s: State, a: seq<Action>, b: seq<Action>)
    ensures Run(setup, s, a + b) == Run(setup, Run(setup, s, a), b)
  {
    if b == [] {
      assert a + b == a;
    } else {
      assert (a + b)[..|a + b| - 1] == a + b[..|b| - 1];
      RunConcat(setup, s, a, b[..|b| - 1]);
    }
  }

  // ----- the invariant -----

  predicate Bound(writes: seq<Write>, receipt: nat, write: Write) {
    receipt < |writes| && writes[receipt] == write
  }

  /** A record is its own request's; its frozen item is the request's; its receipts are its own writes. */
  predicate JobSound(setup: Setup, writes: seq<Write>, id: string, job: JobRecord) {
    && job.request.requestId == id && ValidRequestId(id) && job.requestDigest == setup.digest(job.request)
    && (job.phase.HasItem() ==> job.phase.item == FrozenItem(job, job.phase.item.audio)
                                && ValidateSpokenItem(job.phase.item, setup.host.key).Ok?)
    && (job.phase.AuthorizationAccepted? ==>
          Bound(writes, job.phase.receiptId, Membership(id, job.author, job.createdAt)))
    && (job.phase.PublicationAccepted? || job.phase.Published? ==>
          Bound(writes, job.phase.receiptId, Spoken(id, job.phase.item)))
    && (job.phase.Published? ==>
          job.phase.eventId == SpokenId(setup.host, job.phase.item) && IsLowerHex(job.phase.eventId, 64))
  }

  /** A submitted write is the journaled one: the spoken item is frozen, the membership is the author's. */
  predicate WriteSound(jobs: Records, write: Write) {
    match write
    case Spoken(id, item) => id in jobs && jobs[id].phase.Rank() <= 2 && jobs[id].phase.item == item
    case Membership(id, author, createdAt) =>
      id in jobs && jobs[id].phase.Rank() <= 4 && jobs[id].author == author && jobs[id].createdAt == createdAt
    case Foreign(_) => true
  }

  ghost predicate OnePerToken(writes: seq<Write>) {
    forall i, j :: 0 <= i < j < |writes| && writes[i].Membership? && writes[j].Membership? ==>
      !(writes[i].requestId == writes[j].requestId && writes[i].author == writes[j].author)
  }

  ghost predicate Inv(setup: Setup, s: State) {
    && (forall id <- s.jobs :: JobSound(setup, s.nmp.writes, id, s.jobs[id]))
    && (forall write <- s.nmp.writes :: WriteSound(s.jobs, write))
    && OnePerToken(s.nmp.writes)
  }

  /** A job may only gain: its identity, its frozen item and its publication are settled once. */
  predicate JobLater(before: JobRecord, after: JobRecord) {
    && SameIdentity(before, after) && after.phase.Rank() <= before.phase.Rank()
    && (before.phase.HasItem() ==> after.phase.item == before.phase.item)
    && (before.phase.Published? ==> after == before)
  }

  ghost predicate Later(before: State, after: State) {
    && (forall id <- before.jobs :: id in after.jobs && JobLater(before.jobs[id], after.jobs[id]))
    && before.nmp.writes <= after.nmp.writes
  }

  lemma LaterTransitive(a: State, b: State, c: State)
    requires Later(a, b) && Later(b, c)
    ensures Later(a, c)
  {
    forall id | id in a.jobs ensures id in c.jobs && JobLater(a.jobs[id], c.jobs[id]) {
      assert JobLater(a.jobs[id], b.jobs[id]) && JobLater(b.jobs[id], c.jobs[id]);
    }
  }

  // ----- one effect -----

  /** The writes an effect adds: at most one, the job's own. */
  predicate Appends(before: seq<Write>, after: seq<Write>, write: Write) {
    after == before || after == before + [write]
  }

  lemma EffectAppends(setup: Setup, nmp: Nmp, job: JobRecord, w: World)
    ensures var writes := EffectOf(setup, nmp, job, w).0.writes;
      match job.phase
      case ArtifactsDurable(item) =>
        var write := Membership(job.request.requestId, item.author, job.createdAt);
        Appends(nmp.writes, writes, write)
        && (writes != nmp.writes ==> TokenReceipt(nmp.writes, write.requestId, write.author).None?)
      case AuthorAuthorized(item, _) => Appends(nmp.writes, writes, Spoken(job.request.requestId, item))
      case _ => writes == nmp.writes
  {
    hide ValidateSpokenItem, TokenReceipt, ValidLocalAudio, IsLowerHex, FrozenItem, ComposeSpokenItem, Bounded,
         DuplicateMember, AwaitHostAck, SynthesizeOf, FreezeOf, AuthorizedPhase, ResumedPhase, AcceptedPhase,
         PublishedPhase;
  }

  /** The phase an effect earns is further on, keeps a frozen item and is bound to its own write. */
  predicate Earned(setup: Setup, writes: seq<Write>, id: string, job: JobRecord, phase: JobPhase) {
    var next := job.(phase := phase);
    JobSound(setup, writes, id, next) && JobLater(job, next) && phase.Rank() < job.phase.Rank()
  }

  lemma EarlyEffectSound(setup: Setup, nmp: Nmp, id: string, job: JobRecord, w: World)
    requires JobSound(setup, nmp.writes, id, job) && (job.phase.Admitted? || job.phase.Synthesized?)
    ensures var (after, phase) := EffectOf(setup, nmp, job, w);
      phase.Ok? ==> Earned(setup, after.writes, id, job, phase.value)
  {
    hide ValidateSpokenItem, IsLowerHex, SpokenId, ValidLocalAudio, IsIdentifier;
  }

  /** A later phase of a job that has its item is earned when it keeps the item and its receipt is its own write's. */
  lemma LaterPhaseEarned(setup: Setup, before: seq<Write>, after: seq<Write>, id: string, job: JobRecord,
                         phase: JobPhase)
    requires JobSound(setup, before, id, job) && job.phase.HasItem() && before <= after
    requires phase.HasItem() && phase.item == job.phase.item && phase.Rank() < job.phase.Rank()
    requires phase.AuthorizationAccepted? ==> Bound(after, phase.receiptId, Membership(id, job.author, job.createdAt))
    requires phase.PublicationAccepted? || phase.Published? ==> Bound(after, phase.receiptId, Spoken(id, phase.item))
    requires phase.Published? ==> phase.eventId == SpokenId(setup.host, phase.item) && IsLowerHex(phase.eventId, 64)
    ensures Earned(setup, after, id, job, phase)
  {
    hide ValidateSpokenItem, IsLowerHex, SpokenId, FrozenItem, ValidRequestId, Bound;
    SameFrozenItem(job, phase);
  }

  lemma SameFrozenItem(job: JobRecord, phase: JobPhase)
    ensures forall audio :: FrozenItem(job.(phase := phase), audio) == FrozenItem(job, audio)
  {
  }

  /** The author of a frozen item is the job's. */
  lemma ItemAuthor(setup: Setup, writes: seq<Write>, id: string, job: JobRecord)
    requires JobSound(setup, writes, id, job)
    ensures job.request.requestId == id && (job.phase.HasItem() ==> job.phase.item.author == job.author)
  {
    hide ValidateSpokenItem, IsLowerHex, SpokenId, ValidRequestId, Bound;
  }

  lemma AuthorizeEffect(setup: Setup, nmp: Nmp, job: JobRecord, w: World)
    requires job.phase.ArtifactsDurable?
    ensures var item := job.phase.item;
      var (after, step) :=
          AuthorizeOf(setup.host, nmp, job.request.requestId, item.author, job.createdAt, w.frames, w.token, w.refusal);
      && EffectOf(setup, nmp, job, w) == (after, AuthorizedPhase(step, item))
      && nmp.writes <= after.writes
  {
    hide AuthorizedPhase, TokenReceipt, Bounded;
  }

  lemma AuthorizedPhaseShape(step: Result<AuthorizationStep, string>, item: FrozenSpokenItem)
    ensures var phase := AuthorizedPhase(step, item);
      phase.Ok? ==> phase.value.HasItem() && phase.value.item == item && phase.value.Rank() < 4
                    && (phase.value.AuthorAuthorized? || phase.value.AuthorizationAccepted?)
                    && (phase.value.AuthorizationAccepted? ==> step == Ok(Accepted(phase.value.receiptId)))
  {
    hide IsLowerHex;
  }

  lemma AuthorizeEffectSound(setup: Setup, nmp: Nmp, id: string, job: JobRecord, w: World)
    requires JobSound(setup, nmp.writes, id, job) && job.phase.ArtifactsDurable?
    requires forall write <- nmp.writes :: write.Membership? && write.requestId == id ==>
        write.createdAt == job.createdAt
    ensures var (after, phase) := EffectOf(setup, nmp, job, w);
      phase.Ok? ==> Earned(setup, after.writes, id, job, phase.value)
  {
    hide JobSound, EffectOf, AuthorizeOf, AuthorizedPhase, Earned, Bound;
    var item := job.phase.item;
    ItemAuthor(setup, nmp.writes, id, job);
    AuthorizeEffect(setup, nmp, job, w);
    var (after, step) := AuthorizeOf(setup.host, nmp, id, item.author, job.createdAt, w.frames, w.token, w.refusal);
    AuthorizedPhaseShape(step, item);
    AuthorizeBinds(setup.host, nmp, id, item.author, job.createdAt, w);
    if AuthorizedPhase(step, item).Ok? {
      LaterPhaseEarned(setup, nmp.writes, after.writes, id, job, AuthorizedPhase(step, item).value);
    }
  }

  lemma AuthorizeBinds(host: Host, nmp: Nmp, id: string, author: string, createdAt: nat, w: World)
    requires forall write <- nmp.writes :: write.Membership? && write.requestId == id ==> write.createdAt == createdAt
    ensures var (after, step) := AuthorizeOf(host, nmp, id, author, createdAt, w.frames, w.token, w.refusal);
      step.Ok? && step.value.Accepted? ==> Bound(after.writes, step.value.receiptId, Membership(id, author, createdAt))
  {
    hide TokenReceipt;
    var token := TokenReceipt(nmp.writes, id, author);
    if token.Some? { assert nmp.writes[token.value] in nmp.writes; }
  }

  lemma ResumeEffect(setup: Setup, nmp: Nmp, job: JobRecord, w: World)
    requires job.phase.AuthorizationAccepted?
    ensures var (after, phase) := EffectOf(setup, nmp, job, w);
      after.writes == nmp.writes && (phase.Ok? ==> phase.value.AuthorAuthorized? && phase.value.item == job.phase.item)
  {
    hide IsLowerHex, AwaitHostAck, DuplicateMember;
  }

  lemma ResumeEffectSound(setup: Setup, nmp: Nmp, id: string, job: JobRecord, w: World)
    requires JobSound(setup, nmp.writes, id, job) && job.phase.AuthorizationAccepted?
    ensures var (after, phase) := EffectOf(setup, nmp, job, w);
      phase.Ok? ==> Earned(setup, after.writes, id, job, phase.value)
  {
    hide JobSound, EffectOf, Earned, Bound;
    ResumeEffect(setup, nmp, job, w);
    var (after, phase) := EffectOf(setup, nmp, job, w);
    if phase.Ok? { LaterPhaseEarned(setup, nmp.writes, after.writes, id, job, phase.value); }
  }

  lemma AcceptEffect(setup: Setup, nmp: Nmp, job: JobRecord, w: World)
    requires job.phase.AuthorAuthorized?
    ensures var (after, phase) := EffectOf(setup, nmp, job, w);
      && nmp.writes <= after.writes
      && (phase.Ok? ==> phase.value.PublicationAccepted? && phase.value.item == job.phase.item
                        && Bound(after.writes, phase.value.receiptId, Spoken(job.request.requestId, job.phase.item)))
  {
    hide ComposeSpokenItem;
  }

  lemma PublishEffect(setup: Setup, nmp: Nmp, job: JobRecord, w: World)
    requires job.phase.PublicationAccepted?
             && Bound(nmp.writes, job.phase.receiptId, Spoken(job.request.requestId, job.phase.item))
    ensures var (after, phase) := EffectOf(setup, nmp, job, w);
      && after == nmp
      && (phase.Ok? ==> phase.value.Published? && phase.value.item == job.phase.item
                        && phase.value.receiptId == job.phase.receiptId
                        && phase.value.eventId == SpokenId(setup.host, job.phase.item)
                        && IsLowerHex(phase.value.eventId, 64))
  {
    hide IsLowerHex, SpokenId;
  }

  lemma ReceiptOf(setup: Setup, writes: seq<Write>, id: string, job: JobRecord)
    requires JobSound(setup, writes, id, job)
    ensures job.phase.PublicationAccepted? || job.phase.Published? ==>
      Bound(writes, job.phase.receiptId, Spoken(id, job.phase.item))
  {
    hide ValidateSpokenItem, IsLowerHex, SpokenId, ValidRequestId, Bound, FrozenItem;
  }

  lemma PublishEffectSound(setup: Setup, nmp: Nmp, id: string, job: JobRecord, w: World)
    requires JobSound(setup, nmp.writes, id, job) && (job.phase.AuthorAuthorized? || job.phase.PublicationAccepted?)
    ensures var (after, phase) := EffectOf(setup, nmp, job, w);
      phase.Ok? ==> Earned(setup, after.writes, id, job, phase.value)
  {
    hide JobSound, EffectOf, Earned, Bound, SpokenId, IsLowerHex;
    ItemAuthor(setup, nmp.writes, id, job);
    ReceiptOf(setup, nmp.writes, id, job);
    if job.phase.AuthorAuthorized? { AcceptEffect(setup, nmp, job, w); } else { PublishEffect(setup, nmp, job, w); }
    var (after, phase) := EffectOf(setup, nmp, job, w);
    if phase.Ok? { LaterPhaseEarned(setup, nmp.writes, after.writes, id, job, phase.value); }
  }

  lemma EffectSound(setup: Setup, nmp: Nmp, id: string, job: JobRecord, w: World)
    requires JobSound(setup, nmp.writes, id, job) && !job.phase.Published?
    requires forall write <- nmp.writes :: write.Membership? && write.requestId == id ==>
        write.createdAt == job.createdAt
    ensures var (after, phase) := EffectOf(setup, nmp, job, w);
      phase.Ok? ==> Earned(setup, after.writes, id, job, phase.value)
  {
    hide JobSound, EffectOf, Earned;
    match job.phase
    case Admitted => EarlyEffectSound(setup, nmp, id, job, w);
    case Synthesized(_) => EarlyEffectSound(setup, nmp, id, job, w);
    case ArtifactsDurable(_) => AuthorizeEffectSound(setup, nmp, id, job, w);
    case AuthorizationAccepted(_, _) => ResumeEffectSound(setup, nmp, id, job, w);
    case AuthorAuthorized(_, _) => PublishEffectSound(setup, nmp, id, job, w);
    case PublicationAccepted(_, _, _) => PublishEffectSound(setup, nmp, id, job, w);
  }

  // ----- one action -----

  lemma WriteStays(jobs: Records, after: Records, write: Write)
    requires WriteSound(jobs, write)
    requires forall id <- jobs :: id in after && JobLater(jobs[id], after[id])
    ensures WriteSound(after, write)
  {
    if !write.Foreign? { assert JobLater(jobs[write.requestId], after[write.requestId]); }
  }

  lemma JobStays(setup: Setup, before: seq<Write>, after: seq<Write>, id: string, job: JobRecord)
    requires JobSound(setup, before, id, job) && before <= after
    ensures JobSound(setup, after, id, job)
  {
    hide ValidateSpokenItem, IsLowerHex, SpokenId, FrozenItem, ValidRequestId;
  }

  lemma TokenStays(before: seq<Write>, write: Write)
    requires OnePerToken(before)
    requires write.Membership? ==> TokenReceipt(before, write.requestId, write.author).None?
    ensures OnePerToken(before + [write])
  {
    var after := before + [write];
    forall i, j | 0 <= i < j < |after| && after[i].Membership? && after[j].Membership?
      ensures !(after[i].requestId == after[j].requestId && after[i].author == after[j].author)
    {
      if j == |before| { assert after[i] in before; }
    }
  }

  /** Any step that only advances jobs, each of them sound, and appends one sound write keeps the invariant. */
  lemma InvBy(setup: Setup, s: State, t: State)
    requires Inv(setup, s) && Later(s, t)
    requires forall id <- t.jobs ::
        (id in s.jobs && t.jobs[id] == s.jobs[id]) || JobSound(setup, t.nmp.writes, id, t.jobs[id])
    requires t.nmp.writes == s.nmp.writes
             || exists write :: t.nmp.writes == s.nmp.writes + [write] && WriteSound(t.jobs, write)
                  && (write.Membership? ==> TokenReceipt(s.nmp.writes, write.requestId, write.author).None?)
    ensures Inv(setup, t)
  {
    hide JobSound, WriteSound, JobLater, TokenReceipt;
    forall id | id in t.jobs ensures JobSound(setup, t.nmp.writes, id, t.jobs[id]) {
      if id in s.jobs && t.jobs[id] == s.jobs[id] { JobStays(setup, s.nmp.writes, t.nmp.writes, id, t.jobs[id]); }
    }
    forall write | write in s.nmp.writes ensures WriteSound(t.jobs, write) { WriteStays(s.jobs, t.jobs, write); }
    if t.nmp.writes != s.nmp.writes {
      var write :| t.nmp.writes == s.nmp.writes + [write] && WriteSound(t.jobs, write)
                   && (write.Membership? ==> TokenReceipt(s.nmp.writes, write.requestId, write.author).None?);
      TokenStays(s.nmp.writes, write);
    }
  }

  /** A journaled admission: valid, fresh and digested. */
  predicate FreshRecord(setup: Setup, id: string, job: JobRecord) {
    job.request.requestId == id && ValidRequestId(id) && job.phase.Admitted?
        && job.requestDigest == setup.digest(job.request)
  }

  /** Admission adds at most one fresh record, under an id that was free. */
  lemma AdmitShape(setup: Setup, jobs: Records, request: ProducerRequest, author: string, createdAt: nat, w: World)
    ensures var after, id := AdmitOf(setup, jobs, request, author, createdAt, w).0, request.requestId;
      after == jobs
          || (id !in jobs && id in after && after == jobs[id := after[id]] && FreshRecord(setup, id, after[id]))
  {
    hide IsIdentifier, SameRequest;
  }

  lemma FreshIsSound(setup: Setup, writes: seq<Write>, id: string, job: JobRecord)
    requires FreshRecord(setup, id, job)
    ensures JobSound(setup, writes, id, job)
  {
    hide IsIdentifier;
  }

  lemma NewJobIsLater(s: State, t: State, id: string)
    requires id !in s.jobs && id in t.jobs && t.jobs == s.jobs[id := t.jobs[id]] && t.nmp == s.nmp
    ensures Later(s, t)
  {
  }

  lemma AdmitKeeps(setup: Setup, s: State, request: ProducerRequest, author: string, createdAt: nat, w: World)
    requires Inv(setup, s)
    ensures var t := s.(jobs := AdmitOf(setup, s.jobs, request, author, createdAt, w).0);
      Inv(setup, t) && Later(s, t)
  {
    var id, t := request.requestId, s.(jobs := AdmitOf(setup, s.jobs, request, author, createdAt, w).0);
    AdmitShape(setup, s.jobs, request, author, createdAt, w);
    hide AdmitOf, Inv;
    if t.jobs == s.jobs {
      LaterReflexive(s);
      assert t == s;
    } else {
      FreshIsSound(setup, s.nmp.writes, id, t.jobs[id]);
      NewJobIsLater(s, t, id);
      hide JobSound, Later;
      InvBy(setup, s, t);
    }
  }

  /** What an advance does that reaches its effect. */
  predicate Reaches(s: State, id: string, w: World) {
    id in s.jobs && !s.jobs[id].phase.Published? && ValidRequestId(id) && w.readable
  }

  lemma AdvanceShape(setup: Setup, s: State, id: string, w: World)
    requires id in s.jobs ==> s.jobs[id].request.requestId == id
    ensures var (t, r) := AdvanceOf(setup, s, id, w);
      if !Reaches(s, id, w) then t == s && (r.Ok? ==> id in s.jobs && r.value == s.jobs[id] && r.value.phase.Published?)
      else
        var (nmp, phase) := EffectOf(setup, s.nmp, s.jobs[id], w);
        && t.nmp == nmp
        && (phase.Err? ==> t.jobs == s.jobs && r.Err?)
        && (phase.Ok? ==> t.jobs == if SaveFate(w.budget).Lost? then s.jobs
            else s.jobs[id := s.jobs[id].(phase := phase.value)])
        && (r.Ok? ==> phase.Ok? && !SaveFate(w.budget).Lost? && r.value == s.jobs[id].(phase := phase.value))
  {
    hide EffectOf, IsIdentifier;
    if id in s.jobs {
      var (nmp, phase) := EffectOf(setup, s.nmp, s.jobs[id], w);
      assert phase.Ok? || phase.Err?;
    }
  }

  lemma AdvanceWrites(setup: Setup, s: State, id: string, w: World, t: State)
    requires Inv(setup, s) && Reaches(s, id, w)
    requires t.nmp == EffectOf(setup, s.nmp, s.jobs[id], w).0
    requires id in t.jobs && JobLater(s.jobs[id], t.jobs[id])
    ensures t.nmp.writes == s.nmp.writes
            || exists write :: t.nmp.writes == s.nmp.writes + [write] && WriteSound(t.jobs, write)
                 && (write.Membership? ==> TokenReceipt(s.nmp.writes, write.requestId, write.author).None?)
  {
    var job := s.jobs[id];
    assert JobSound(setup, s.nmp.writes, id, job);
    EffectAppends(setup, s.nmp, job, w);
    hide EffectOf, TokenReceipt, ValidateSpokenItem, IsLowerHex, SpokenId, Inv, IsIdentifier, Reaches;
    if t.nmp.writes != s.nmp.writes {
      var write := t.nmp.writes[|t.nmp.writes| - 1];
      assert t.nmp.writes == s.nmp.writes + [write] && WriteSound(t.jobs, write);
    }
  }

  lemma AdvanceKeeps(setup: Setup, s: State, id: string, w: World)
    requires Inv(setup, s)
    ensures var t := AdvanceOf(setup, s, id, w).0;
      Inv(setup, t) && Later(s, t)
  {
    hide AdvanceOf, EffectOf, JobSound, WriteSound, OnePerToken, Inv, ValidRequestId;
    var t := AdvanceOf(setup, s, id, w).0;
    if id in s.jobs { JobAt(setup, s, id); }
    AdvanceShape(setup, s, id, w);
    if Reaches(s, id, w) {
      MembershipsOf(setup, s, id);
      EffectSound(setup, s.nmp, id, s.jobs[id], w);
      AdvanceWrites(setup, s, id, w, t);
      InvBy(setup, s, t);
    } else {
      LaterReflexive(s);
    }
  }

  lemma JobAt(setup: Setup, s: State, id: string)
    requires Inv(setup, s) && id in s.jobs
    ensures JobSound(setup, s.nmp.writes, id, s.jobs[id]) && s.jobs[id].request.requestId == id
  {
    hide WriteSound, OnePerToken, ValidRequestId;
  }

  lemma MembershipsOf(setup: Setup, s: State, id: string)
    requires Inv(setup, s) && id in s.jobs
    ensures forall write <- s.nmp.writes :: write.Membership? && write.requestId == id ==>
              write.createdAt == s.jobs[id].createdAt && write.author == s.jobs[id].author
  {
    forall write | write in s.nmp.writes && write.Membership? && write.requestId == id
      ensures write.createdAt == s.jobs[id].createdAt && write.author == s.jobs[id].author
    {
      assert WriteSound(s.jobs, write);
    }
  }

  lemma StepKeeps(setup: Setup, s: State, a: Action)
    requires Inv(setup, s)
    ensures Inv(setup, Do(setup, s, a)) && Later(s, Do(setup, s, a))
  {
    hide AdmitOf, AdvanceOf, JobSound;
    match a
    case Admit(request, author, createdAt, w) => AdmitKeeps(setup, s, request, author, createdAt, w);
    case Advance(id, w) => AdvanceKeeps(setup, s, id, w);
    case Restart =>
    case OtherWrite(event) =>
      var t := Do(setup, s, a);
      assert t.nmp.writes == s.nmp.writes + [Foreign(event)] && WriteSound(t.jobs, Foreign(event));
      InvBy(setup, s, t);
  }

  /** Every run from a sound state stays sound, and jobs and the log only grow. */
  lemma {:induction false} RunKeeps(setup: Setup, s: State, actions: seq<Action>)
    requires Inv(setup, s)
    ensures Inv(setup, Run(setup, s, actions)) && Later(s, Run(setup, s, actions))
  {
    hide Inv, JobLater, Do;
    if actions == [] {
      LaterReflexive(s);
    } else {
      var middle := Run(setup, s, actions[..|actions| - 1]);
      RunKeeps(setup, s, actions[..|actions| - 1]);
      StepKeeps(setup, middle, actions[|actions| - 1]);
      LaterTransitive(s, middle, Run(setup, s, actions));
    }
  }

  lemma LaterReflexive(s: State)
    ensures Later(s, s)
  {
  }

  // ----- the theorems -----

  /** In every run of one runner: whatever NMP was ever given for a job is the one journaled item, so the job has
      one spoken event id and at most one membership obligation; a published record carries that event id. */
  lemma ExactlyOnce(setup: Setup, actions: seq<Action>)
    ensures var s := Run(setup, EMPTY, actions);
      && (forall write <- s.nmp.writes :: write.Spoken? ==>
            write.requestId in s.jobs && s.jobs[write.requestId].phase.HasItem()
            && write.item == s.jobs[write.requestId].phase.item
            && write.item == FrozenItem(s.jobs[write.requestId], write.item.audio))
      && (forall a <- s.nmp.writes, b <- s.nmp.writes :: a.Spoken? && b.Spoken? && a.requestId == b.requestId ==>
            EventIdOf(setup.host, a) == EventIdOf(setup.host, b))
      && (forall i, j :: 0 <= i < j < |s.nmp.writes| && s.nmp.writes[i].Membership? && s.nmp.writes[j].Membership? ==>
            s.nmp.writes[i].requestId != s.nmp.writes[j].requestId)
      && (forall id <- s.jobs :: s.jobs[id].phase.Published? ==>
            s.jobs[id].phase.eventId == SpokenId(setup.host, s.jobs[id].phase.item)
            && Bound(s.nmp.writes, s.jobs[id].phase.receiptId, Spoken(id, s.jobs[id].phase.item)))
  {
    hide Run, ValidateSpokenItem, IsIdentifier, SpokenId, IsLowerHex;
    assert Inv(setup, EMPTY);
    RunKeeps(setup, EMPTY, actions);
    var s := Run(setup, EMPTY, actions);
    forall write | write in s.nmp.writes ensures WriteSound(s.jobs, write) {}
    forall id | id in s.jobs ensures JobSound(setup, s.nmp.writes, id, s.jobs[id]) {}
    forall i, j | 0 <= i < j < |s.nmp.writes| && s.nmp.writes[i].Membership? && s.nmp.writes[j].Membership?
      ensures s.nmp.writes[i].requestId != s.nmp.writes[j].requestId
    {
      assert WriteSound(s.jobs, s.nmp.writes[i]) && WriteSound(s.jobs, s.nmp.writes[j]);
    }
  }

  /** Whatever happens later, a job keeps its request, digest, author and time, its frozen item once it has one, and
      its whole record once it is published; its rank never rises. */
  lemma SettledOnce(setup: Setup, actions: seq<Action>, more: seq<Action>)
    ensures Later(Run(setup, EMPTY, actions), Run(setup, EMPTY, actions + more))
  {
    hide Inv, Run, Later;
    EmptyIsSound(setup);
    RunKeeps(setup, EMPTY, actions);
    RunKeeps(setup, Run(setup, EMPTY, actions), more);
    RunConcat(setup, EMPTY, actions, more);
  }

  lemma EmptyIsSound(setup: Setup)
    ensures Inv(setup, EMPTY)
  {
  }

  /** A successful advance that found unpublished work strictly lowers the rank, and what it returns is journaled; a
      failed one never raises it, even when its save did take place. */
  lemma AdvanceLowersRank(setup: Setup, s: State, id: string, w: World)
    requires Inv(setup, s) && id in s.jobs
    ensures var (t, r) := AdvanceOf(setup, s, id, w);
      && id in t.jobs && t.jobs[id].phase.Rank() <= s.jobs[id].phase.Rank() <= 6
      && (r.Ok? ==> t.jobs[id] == r.value
                    && (s.jobs[id].phase.Published? || r.value.phase.Rank() < s.jobs[id].phase.Rank()))
      && (r.Err? && SaveFate(w.budget).Lost? ==> t.jobs == s.jobs)
  {
    hide EffectOf, AdvanceOf, JobSound, Inv, ValidRequestId;
    JobAt(setup, s, id);
    AdvanceShape(setup, s, id, w);
    if Reaches(s, id, w) {
      MembershipsOf(setup, s, id);
      EffectSound(setup, s.nmp, id, s.jobs[id], w);
      var (_, phase) := EffectOf(setup, s.nmp, s.jobs[id], w);
      assert phase.Ok? || phase.Err?;
    }
  }
}
