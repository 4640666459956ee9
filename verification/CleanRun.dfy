/** Completion: from every sound state, whatever phase a job was left in, a world that answers the remaining stages well
    gets it published, by exactly the writes it still owes. */
module CleanRun {
  import opened Contract
  import opened Text
  import opened Composer
  import opened Jobs
  import opened Publisher
  import opened Runner
  import opened Runs
  import opened Production
  import opened RoundTrip
  import opened Trees
  import Journal
  import Members

  /** Event ids are hexadecimal hashes. */
  ghost predicate HashesAreIds(host: Host) {
    && (forall intent :: IsLowerHex(host.spokenId(intent), 64))
    && (forall author, createdAt :: IsLowerHex(host.membershipId(author, createdAt), 64))
  }

  predicate CachedIsId(members: map<string, string>, author: string) {
    author in members ==> IsLowerHex(members[author], 64)
  }

  // ----- a world that answers well -----

  /** Journal, engine and host do their part. */
  predicate Serves(w: World) {
    w.readable && w.budget >= 5 && w.token.None? && w.refusal.None? && w.ack.Acked?
  }

  /** The synthesizer leaves valid audio at the job's path. */
  predicate Speaks(setup: Setup, job: JobRecord, w: World) {
    && w.directory && w.synthesized.Ok? && w.audio.Ok?
    && ValidLocalAudio(w.synthesized.value, AudioPath(setup, job.request.requestId), w.audio.value, setup.sha256)
  }

  /** The store keeps the same bytes under a url that makes a valid item. */
  predicate Uploads(setup: Setup, job: JobRecord, audio: LocalAudioArtifact, w: World) {
    w.uploaded.Ok? && SameBytes(w.uploaded.value, audio)
        && ValidateSpokenItem(FrozenItem(job, w.uploaded.value), setup.host.key).Ok?
  }

  ghost function Relay(host: Host, author: string, w: World): Result<Option<string>, string> {
    if host.key(author).None? then Err("")
    else Members.CurrentMembership(w.frames, host.groupId, host.key(author).value)
  }

  /** The relay answers about the author, who is a member under an event id or can be added by the admin. */
  ghost predicate Admits(host: Host, author: string, w: World) {
    var answer := Relay(host, author, w);
    answer.Ok? && if answer.value.Some? then IsLowerHex(answer.value.value, 64) else host.key(host.admin).Some?
  }

  const NO_ARTIFACT := DurableArtifact("", "", "", 0, None)

  function UploadedBy(w: World): DurableArtifact {
    if w.uploaded.Ok? then w.uploaded.value else NO_ARTIFACT
  }

  /** The stage in which a job of this rank, at stage `k` now, is at rank `rank`. */
  function StageAt(job: JobRecord, k: nat, rank: nat): nat
    requires rank <= job.phase.Rank()
  {
    k + job.phase.Rank() - rank
  }

  /** The worlds from stage `k` on answer well what the job still has to do. */
  ghost predicate Cooperate(setup: Setup, members: map<string, string>, job: JobRecord, worlds: nat -> World, k: nat) {
    var rank := job.phase.Rank();
    && (forall i | k <= i < k + rank :: Serves(worlds(i)))
    && (job.phase.Admitted? ==>
        Speaks(setup, job, worlds(k)) && Uploads(setup, job, worlds(k).synthesized.value, worlds(k + 1)))
    && (job.phase.Synthesized? ==> Uploads(setup, job, job.phase.audio, worlds(k)))
    && (rank >= 4 && job.author !in members ==> Admits(setup.host, job.author, worlds(StageAt(job, k, 4))))
    && (rank >= 2 ==> job.request.groupId == setup.host.groupId)
  }

  /** The one item the job is published as. */
  function ItemAhead(job: JobRecord, worlds: nat -> World, k: nat): FrozenSpokenItem {
    if job.phase.HasItem() then job.phase.item else FrozenItem(job, UploadedBy(worlds(StageAt(job, k, 5))))
  }

  /** The membership write the job still owes: none once it has one, or while the author is known. */
  ghost function MembershipAhead(setup: Setup, nmp: Nmp, job: JobRecord, worlds: nat -> World, k: nat): seq<Write> {
    if job.phase.Rank() >= 4 && job.author !in nmp.members
       && Relay(setup.host, job.author, worlds(StageAt(job, k, 4))) == Ok(None)
       && TokenReceipt(nmp.writes, job.request.requestId, job.author).None?
    then [Membership(job.request.requestId, job.author, job.createdAt)]
    else []
  }

  /** The spoken write the job still owes: none once its receipt is journaled. */
  function SpokenAhead(job: JobRecord, worlds: nat -> World, k: nat): seq<Write> {
    if job.phase.Rank() >= 2 then [Spoken(job.request.requestId, ItemAhead(job, worlds, k))] else []
  }

  ghost function Owed(setup: Setup, nmp: Nmp, job: JobRecord, worlds: nat -> World, k: nat): seq<Write> {
    MembershipAhead(setup, nmp, job, worlds, k) + SpokenAhead(job, worlds, k)
  }

  // ----- one stage -----

  /** The author is a known member, or will be once the job has settled its authorization. */
  predicate Learns(members: map<string, string>, job: JobRecord) {
    job.author in members || job.phase.Rank() >= 3
  }

  /** What one stage achieves: a lower rank, and otherwise the same prospects. */
  ghost predicate MovesOn(setup: Setup, nmp: Nmp, job: JobRecord, after: Nmp, phase: JobPhase, worlds: nat -> World,
                          k: nat)
  {
    var next := job.(phase := phase);
    && phase.Rank() < job.phase.Rank() && CachedIsId(after.members, job.author)
    && (Learns(nmp.members, job) ==> Learns(after.members, next))
    && Cooperate(setup, after.members, next, worlds, k + 1)
    && ItemAhead(next, worlds, k + 1) == ItemAhead(job, worlds, k)
    && after.writes + Owed(setup, after, next, worlds, k + 1) == nmp.writes + Owed(setup, nmp, job, worlds, k)
  }

  /** The premises of every stage. */
  ghost predicate Ready(setup: Setup, nmp: Nmp, id: string, job: JobRecord, worlds: nat -> World, k: nat) {
    && JobSound(setup, nmp.writes, id, job) && HashesAreIds(setup.host) && CachedIsId(nmp.members, job.author)
    && Cooperate(setup, nmp.members, job, worlds, k)
  }

  lemma FromAdmitted(setup: Setup, nmp: Nmp, id: string, job: JobRecord, worlds: nat -> World, k: nat)
    requires Ready(setup, nmp, id, job, worlds, k) && job.phase.Admitted?
    ensures var (after, phase) := EffectOf(setup, nmp, job, worlds(k));
      phase.Ok? && MovesOn(setup, nmp, job, after, phase.value, worlds, k)
  {
    hide JobSound, HashesAreIds, ValidLocalAudio, ValidateSpokenItem, FrozenItem, IsLowerHex, Relay, Admits,
         TokenReceipt;
    SameFreeze(job, Synthesized(worlds(k).synthesized.value), UploadedBy(worlds(k + 1)));
  }

  /** Freezing looks at the request, not at the phase. */
  lemma SameFreeze(job: JobRecord, phase: JobPhase, audio: DurableArtifact)
    ensures FrozenItem(job.(phase := phase), audio) == FrozenItem(job, audio)
  {
  }

  lemma FromSynthesized(setup: Setup, nmp: Nmp, id: string, job: JobRecord, worlds: nat -> World, k: nat)
    requires Ready(setup, nmp, id, job, worlds, k) && job.phase.Synthesized?
    ensures var (after, phase) := EffectOf(setup, nmp, job, worlds(k));
      phase.Ok? && MovesOn(setup, nmp, job, after, phase.value, worlds, k)
  {
    hide JobSound, HashesAreIds, ValidateSpokenItem, FrozenItem, IsLowerHex, Relay, Admits, TokenReceipt;
  }

  /** What authorization does to the store: the writes owed for membership, and a step that can be resumed. */
  lemma Authorizes(setup: Setup, nmp: Nmp, id: string, job: JobRecord, worlds: nat -> World, k: nat)
    requires Ready(setup, nmp, id, job, worlds, k) && job.phase.ArtifactsDurable?
    ensures var w := worlds(k);
      var (after, step) := AuthorizeOf(setup.host, nmp, id, job.author, job.createdAt, w.frames, w.token, w.refusal);
      && step.Ok? && (step.value.Authorized? ==> IsLowerHex(step.value.eventId, 64))
      && after.writes == nmp.writes + MembershipAhead(setup, nmp, job, worlds, k)
      && CachedIsId(after.members, job.author) && (job.author in nmp.members ==> job.author in after.members)
      && (step.value.Authorized? ==> job.author in after.members)
  {
    hide HashesAreIds, ValidateSpokenItem, FrozenItem, IsLowerHex, TokenReceipt, Bounded;
    GroupIsBounded(setup, job);
    assert nmp.writes + [] == nmp.writes;
  }

  lemma GroupIsBounded(setup: Setup, job: JobRecord)
    requires job.phase.HasItem() && ValidateSpokenItem(job.phase.item, setup.host.key).Ok?
    requires job.phase.item == FrozenItem(job, job.phase.item.audio) && job.request.groupId == setup.host.groupId
    ensures Bounded(setup.host.groupId, 128).Some? && setup.host.key(job.author).Some?
  {
    hide Bounded, ValidArtifact, ValidateQuestions, IsLowerHex;
  }

  lemma FromDurable(setup: Setup, nmp: Nmp, id: string, job: JobRecord, worlds: nat -> World, k: nat)
    requires Ready(setup, nmp, id, job, worlds, k) && job.phase.ArtifactsDurable?
    ensures var (after, phase) := EffectOf(setup, nmp, job, worlds(k));
      phase.Ok? && MovesOn(setup, nmp, job, after, phase.value, worlds, k)
  {
    hide EffectOf, AuthorizeOf, JobSound, HashesAreIds, Cooperate, Owed, MembershipAhead, IsLowerHex, FrozenItem;
    ReadyItem(setup, nmp, id, job, worlds, k);
    Authorizes(setup, nmp, id, job, worlds, k);
    DurableEffect(setup, nmp, job, worlds(k));
    var (after, phase) := EffectOf(setup, nmp, job, worlds(k));
    StillCooperate(setup, nmp.members, after.members, job, phase.value, worlds, k);
    LaterOwesSpoken(setup, after, job.(phase := phase.value), worlds, k + 1);
    OwedNow(setup, nmp, job, worlds, k);
  }

  lemma OwedNow(setup: Setup, nmp: Nmp, job: JobRecord, worlds: nat -> World, k: nat)
    requires job.phase.HasItem()
    ensures nmp.writes + Owed(setup, nmp, job, worlds, k)
         == nmp.writes + MembershipAhead(setup, nmp, job, worlds, k) + SpokenAhead(job, worlds, k)
  {
    hide MembershipAhead, SpokenAhead;
  }

  lemma ReadyItem(setup: Setup, nmp: Nmp, id: string, job: JobRecord, worlds: nat -> World, k: nat)
    requires Ready(setup, nmp, id, job, worlds, k) && job.phase.HasItem()
    ensures job.phase.item.author == job.author && job.phase.item.groupId == job.request.groupId
             && job.request.requestId == id
  {
    hide ValidateSpokenItem, IsLowerHex, SpokenId, IsIdentifier, Cooperate;
  }

  lemma DurableEffect(setup: Setup, nmp: Nmp, job: JobRecord, w: World)
    requires job.phase.ArtifactsDurable?
    ensures var item := job.phase.item;
      var (after, step) :=
        AuthorizeOf(setup.host, nmp, job.request.requestId, item.author, job.createdAt, w.frames, w.token, w.refusal);
      EffectOf(setup, nmp, job, w) == (after, AuthorizedPhase(step, item))
  {
    hide AuthorizeOf, AuthorizedPhase;
  }

  /** With the item frozen and the author settled, what is left to ask of the worlds was asked before. */
  lemma StillCooperate(setup: Setup, members: map<string, string>, after: map<string, string>, job: JobRecord,
                       phase: JobPhase, worlds: nat -> World, k: nat)
    requires Cooperate(setup, members, job, worlds, k) && phase.Rank() < job.phase.Rank() && phase.Rank() < 4
    ensures Cooperate(setup, after, job.(phase := phase), worlds, k + 1)
  {
    hide Serves, Speaks, Uploads, Admits;
  }

  lemma FrozenAuthor(job: JobRecord)
    requires job.phase.HasItem() && job.phase.item == FrozenItem(job, job.phase.item.audio)
    ensures job.phase.item.author == job.author && job.phase.item.groupId == job.request.groupId
  {
  }

  /** Below rank 4 only the spoken write can be owed. */
  lemma LaterOwesSpoken(setup: Setup, nmp: Nmp, job: JobRecord, worlds: nat -> World, k: nat)
    requires job.phase.Rank() < 4
    ensures Owed(setup, nmp, job, worlds, k) == SpokenAhead(job, worlds, k)
  {
  }

  lemma FromAuthorization(setup: Setup, nmp: Nmp, id: string, job: JobRecord, worlds: nat -> World, k: nat)
    requires Ready(setup, nmp, id, job, worlds, k) && job.phase.AuthorizationAccepted?
    ensures var (after, phase) := EffectOf(setup, nmp, job, worlds(k));
      phase.Ok? && MovesOn(setup, nmp, job, after, phase.value, worlds, k)
  {
    hide ValidateSpokenItem, FrozenItem, IsLowerHex, Relay, Admits, TokenReceipt, IsIdentifier;
    FrozenAuthor(job);
    MembershipEvent(setup, nmp, id, job);
    assert Serves(worlds(k));
    var (after, phase) := EffectOf(setup, nmp, job, worlds(k));
    LaterOwesSpoken(setup, nmp, job, worlds, k);
    LaterOwesSpoken(setup, after, job.(phase := phase.value), worlds, k + 1);
  }

  lemma MembershipEvent(setup: Setup, nmp: Nmp, id: string, job: JobRecord)
    requires JobSound(setup, nmp.writes, id, job) && HashesAreIds(setup.host) && job.phase.AuthorizationAccepted?
    ensures var event := AwaitHostAck(setup.host, nmp.writes, job.phase.receiptId, Acked);
      event.Ok? && IsLowerHex(event.value, 64)
  {
    hide IsLowerHex, ValidateSpokenItem, FrozenItem;
  }

  lemma FromAuthorized(setup: Setup, nmp: Nmp, id: string, job: JobRecord, worlds: nat -> World, k: nat)
    requires Ready(setup, nmp, id, job, worlds, k) && job.phase.AuthorAuthorized?
    ensures var (after, phase) := EffectOf(setup, nmp, job, worlds(k));
      phase.Ok? && MovesOn(setup, nmp, job, after, phase.value, worlds, k)
  {
    hide ValidateSpokenItem, ComposeSpokenItem, FrozenItem, IsLowerHex, Relay, Admits, TokenReceipt, IsIdentifier,
         HashesAreIds;
    FrozenAuthor(job);
    Composes(setup.host, job.phase.item);
    assert Serves(worlds(k));
    var (after, phase) := EffectOf(setup, nmp, job, worlds(k));
    LaterOwesSpoken(setup, nmp, job, worlds, k);
    LaterOwesSpoken(setup, after, job.(phase := phase.value), worlds, k + 1);
  }

  lemma Composes(host: Host, item: FrozenSpokenItem)
    requires ValidateSpokenItem(item, host.key).Ok?
    ensures ComposeSpokenItem(item, host.key).Ok?
  {
    hide Bounded, ValidArtifact, ValidateQuestions, IsLowerHex;
  }

  lemma FromAccepted(setup: Setup, nmp: Nmp, id: string, job: JobRecord, worlds: nat -> World, k: nat)
    requires Ready(setup, nmp, id, job, worlds, k) && job.phase.PublicationAccepted?
    ensures var (after, phase) := EffectOf(setup, nmp, job, worlds(k));
      phase.Ok? && MovesOn(setup, nmp, job, after, phase.value, worlds, k)
  {
    hide ValidateSpokenItem, FrozenItem, IsLowerHex, Relay, Admits, TokenReceipt, IsIdentifier, HashesAreIds, SpokenId;
    SpokenEvent(setup, nmp, id, job);
    assert Serves(worlds(k));
    var (after, phase) := EffectOf(setup, nmp, job, worlds(k));
    LaterOwesSpoken(setup, nmp, job, worlds, k);
    LaterOwesSpoken(setup, after, job.(phase := phase.value), worlds, k + 1);
  }

  lemma SpokenEvent(setup: Setup, nmp: Nmp, id: string, job: JobRecord)
    requires JobSound(setup, nmp.writes, id, job) && HashesAreIds(setup.host) && job.phase.PublicationAccepted?
    ensures var event := AwaitHostAck(setup.host, nmp.writes, job.phase.receiptId, Acked);
      event.Ok? && IsLowerHex(event.value, 64)
  {
    hide IsLowerHex, ValidateSpokenItem, FrozenItem;
    Composes(setup.host, job.phase.item);
  }

  lemma StageMovesOn(setup: Setup, nmp: Nmp, id: string, job: JobRecord, worlds: nat -> World, k: nat)
    requires Ready(setup, nmp, id, job, worlds, k) && !job.phase.Published?
    ensures var (after, phase) := EffectOf(setup, nmp, job, worlds(k));
      phase.Ok? && MovesOn(setup, nmp, job, after, phase.value, worlds, k)
  {
    hide *;
    match job.phase
    case Admitted => FromAdmitted(setup, nmp, id, job, worlds, k);
    case Synthesized(_) => FromSynthesized(setup, nmp, id, job, worlds, k);
    case ArtifactsDurable(_) => FromDurable(setup, nmp, id, job, worlds, k);
    case AuthorizationAccepted(_, _) => FromAuthorization(setup, nmp, id, job, worlds, k);
    case AuthorAuthorized(_, _) => FromAuthorized(setup, nmp, id, job, worlds, k);
    case PublicationAccepted(_, _, _) => FromAccepted(setup, nmp, id, job, worlds, k);
  }

  // ----- the stage loop -----

  /** What publication achieves from this record. */
  ghost predicate Completes(setup: Setup, s: State, job: JobRecord, worlds: nat -> World, k: nat, t: State, r: Outcome)
  {
    && r.Ok? && r.value.phase.Published? && r.value.phase.item == ItemAhead(job, worlds, k)
    && t.nmp.writes == s.nmp.writes + Owed(setup, s.nmp, job, worlds, k)
    && CachedIsId(t.nmp.members, job.author) && (Learns(s.nmp.members, job) ==> job.author in t.nmp.members)
  }

  lemma DoneCompletes(setup: Setup, s: State, job: JobRecord, worlds: nat -> World, k: nat)
    requires job.phase.Published? && CachedIsId(s.nmp.members, job.author)
    ensures Completes(setup, s, job, worlds, k, s, Ok(job))
  {
    assert s.nmp.writes + [] == s.nmp.writes;
  }

  lemma OneStageMore(setup: Setup, s: State, job: JobRecord, after: Nmp, phase: JobPhase, worlds: nat -> World, k: nat,
                     mid: State, t: State, r: Outcome)
    requires MovesOn(setup, s.nmp, job, after, phase, worlds, k) && mid.nmp == after
    requires Completes(setup, mid, job.(phase := phase), worlds, k + 1, t, r)
    ensures Completes(setup, s, job, worlds, k, t, r)
  {
    hide Cooperate, Owed, ItemAhead, CachedIsId;
  }

  lemma {:induction false} StagesComplete(setup: Setup, s: State, id: string, worlds: nat -> World, k: nat)
    requires Inv(setup, s) && id in s.jobs && 1 <= k && s.jobs[id].phase.Rank() <= 7 - k
    requires Ready(setup, s.nmp, id, s.jobs[id], worlds, k)
    ensures var (t, r) := StagesOf(setup, s, id, s.jobs[id], worlds, k);
      Completes(setup, s, s.jobs[id], worlds, k, t, r)
    decreases 7 - k
  {
    hide *;
    var job := s.jobs[id];
    StagesUnfold(setup, s, id, job, worlds, k);
    ReadyFacts(setup, s.nmp, id, job, worlds, k);
    if job.phase.Published? {
      DoneCompletes(setup, s, job, worlds, k);
    } else {
      RankIsZeroWhenPublished(job.phase);
      StageMovesOn(setup, s.nmp, id, job, worlds, k);
      AdvanceSucceeds(setup, s, id, worlds(k));
      var (after, phase) := EffectOf(setup, s.nmp, job, worlds(k));
      var (t, r) := AdvanceOf(setup, s, id, worlds(k));
      AdvanceKeeps(setup, s, id, worlds(k));
      StillReady(setup, s.nmp, id, job, after, phase.value, worlds, k, t);
      StagesComplete(setup, t, id, worlds, k + 1);
      var (u, last) := StagesOf(setup, t, id, r.value, worlds, k + 1);
      OneStageMore(setup, s, job, after, phase.value, worlds, k, t, u, last);
    }
  }

  lemma RankIsZeroWhenPublished(phase: JobPhase)
    ensures phase.Rank() == 0 <==> phase.Published?
  {
  }

  lemma ReadyFacts(setup: Setup, nmp: Nmp, id: string, job: JobRecord, worlds: nat -> World, k: nat)
    requires Ready(setup, nmp, id, job, worlds, k)
    ensures job.request.requestId == id && ValidRequestId(id) && CachedIsId(nmp.members, job.author)
    ensures !job.phase.Published? ==> worlds(k).readable && worlds(k).budget >= 5
  {
    hide ValidateSpokenItem, IsLowerHex, SpokenId, FrozenItem, IsIdentifier;
    if !job.phase.Published? { assert Serves(worlds(k)); }
  }

  /** An advance whose effect succeeds and whose save is kept. */
  lemma AdvanceSucceeds(setup: Setup, s: State, id: string, w: World)
    requires id in s.jobs && !s.jobs[id].phase.Published? && s.jobs[id].request.requestId == id && ValidRequestId(id)
    requires w.readable && w.budget >= 5 && EffectOf(setup, s.nmp, s.jobs[id], w).1.Ok?
    ensures var (nmp, phase) := EffectOf(setup, s.nmp, s.jobs[id], w);
      var job := s.jobs[id].(phase := phase.value);
      AdvanceOf(setup, s, id, w) == (State(s.jobs[id := job], nmp), Ok(job))
  {
    hide EffectOf, IsIdentifier;
  }

  lemma StillReady(setup: Setup, nmp: Nmp, id: string, job: JobRecord, after: Nmp, phase: JobPhase,
                   worlds: nat -> World, k: nat, t: State)
    requires Ready(setup, nmp, id, job, worlds, k) && MovesOn(setup, nmp, job, after, phase, worlds, k)
    requires Inv(setup, t) && t.nmp == after && id in t.jobs && t.jobs[id] == job.(phase := phase)
    requires job.phase.Rank() <= 7 - k
    ensures Ready(setup, t.nmp, id, t.jobs[id], worlds, k + 1) && t.jobs[id].phase.Rank() <= 7 - (k + 1)
  {
    hide JobSound, HashesAreIds, CachedIsId, Cooperate, Owed, ItemAhead;
  }

  // ----- publish_as -----

  /** The record the publication works on: the journaled one, or the fresh one it will journal. */
  function RecordFor(setup: Setup, jobs: Journal.Records, request: ProducerRequest, author: string, createdAt: nat)
    : JobRecord
  {
    if request.requestId in jobs then jobs[request.requestId] else Fresh(setup, request, author, createdAt)
  }

  /** The journaled record, if any, is this request's by this author, and the worlds answer what it still needs. */
  ghost predicate Publishable(setup: Setup, jobs: Journal.Records, members: map<string, string>,
                              request: ProducerRequest, author: string, createdAt: nat, worlds: nat -> World)
  {
    var job := RecordFor(setup, jobs, request, author, createdAt);
    && ValidRequestId(request.requestId) && job.requestDigest == setup.digest(request) && job.author == author
    && worlds(0).readable && (request.requestId !in jobs ==> worlds(0).rival.None? && worlds(0).budget >= 6)
    && Cooperate(setup, members, job, worlds, 1)
  }

  /** From every sound state: when no record is journaled, or one of this request and author at any phase, and the world
      answers the remaining stages well, the request is published as its one frozen item, and the log gains exactly the
      writes still owed: at most one membership write, at most one spoken write, nothing once its receipt is
      journaled. */
  lemma CooperativeWorldPublishes(setup: Setup, s: State, request: ProducerRequest, author: string, createdAt: nat,
                                  worlds: nat -> World)
    requires Inv(setup, s) && HashesAreIds(setup.host) && CachedIsId(s.nmp.members, author)
    requires Publishable(setup, s.jobs, s.nmp.members, request, author, createdAt, worlds)
    ensures
      var job := RecordFor(setup, s.jobs, request, author, createdAt);
      var (t, r) := PublishAsOf(setup, s, request, author, createdAt, worlds);
      && r.Ok? && r.value.phase.Published? && r.value.phase.item == ItemAhead(job, worlds, 1)
      && r.value.phase.eventId == SpokenId(setup.host, r.value.phase.item)
      && t.nmp.writes == s.nmp.writes + Owed(setup, s.nmp, job, worlds, 1)
      && |MembershipAhead(setup, s.nmp, job, worlds, 1)| <= 1 && |SpokenAhead(job, worlds, 1)| <= 1
      && (job.phase.Rank() <= 1 ==> t.nmp.writes == s.nmp.writes)
      && CachedIsId(t.nmp.members, author) && (Learns(s.nmp.members, job) ==> author in t.nmp.members)
  {
    hide *;
    RecordsAuthor(setup, s.jobs, s.nmp.members, request, author, createdAt, worlds);
    var id, job := request.requestId, RecordFor(setup, s.jobs, request, author, createdAt);
    var admitted := s.(jobs := s.jobs[id := job]);
    PublishAsUnfolds(setup, s, request, author, createdAt, worlds);
    AdmitKeeps(setup, s, request, author, createdAt, worlds(0));
    AdmissionAnswers(setup, s, request, author, createdAt, worlds);
    NowReady(setup, admitted, s, request, author, createdAt, worlds);
    StagesComplete(setup, admitted, id, worlds, 1);
    PublishAsSound(setup, s, request, author, createdAt, worlds);
    var (t, r) := PublishAsOf(setup, s, request, author, createdAt, worlds);
    CompletesMeans(setup, admitted, job, worlds, t, r);
    PublishedEvent(setup, t, id);
  }

  lemma RecordsAuthor(setup: Setup, jobs: Journal.Records, members: map<string, string>, request: ProducerRequest,
                      author: string, createdAt: nat, worlds: nat -> World)
    requires Publishable(setup, jobs, members, request, author, createdAt, worlds)
    ensures RecordFor(setup, jobs, request, author, createdAt).author == author
  {
    hide Cooperate, IsIdentifier;
  }

  lemma AdmissionAnswers(setup: Setup, s: State, request: ProducerRequest, author: string, createdAt: nat,
                         worlds: nat -> World)
    requires Publishable(setup, s.jobs, s.nmp.members, request, author, createdAt, worlds)
    ensures var job := RecordFor(setup, s.jobs, request, author, createdAt);
      AdmitOf(setup, s.jobs, request, author, createdAt, worlds(0)) == (s.jobs[request.requestId := job], Ok(job))
  {
    hide Cooperate, IsIdentifier;
    if request.requestId in s.jobs { assert s.jobs[request.requestId := s.jobs[request.requestId]] == s.jobs; }
  }

  lemma NowReady(setup: Setup, admitted: State, s: State, request: ProducerRequest, author: string, createdAt: nat,
                 worlds: nat -> World)
    requires Publishable(setup, s.jobs, s.nmp.members, request, author, createdAt, worlds)
    requires HashesAreIds(setup.host) && CachedIsId(s.nmp.members, author) && Inv(setup, admitted)
             && admitted.nmp == s.nmp
    requires request.requestId in admitted.jobs
    requires admitted.jobs[request.requestId] == RecordFor(setup, s.jobs, request, author, createdAt)
    ensures Ready(setup, admitted.nmp, request.requestId, admitted.jobs[request.requestId], worlds, 1)
    ensures admitted.jobs[request.requestId].phase.Rank() <= 6
  {
    hide Cooperate, HashesAreIds, JobSound, RecordFor, CachedIsId, IsIdentifier;
  }

  lemma PublishedEvent(setup: Setup, s: State, id: string)
    requires Inv(setup, s) && id in s.jobs
    ensures s.jobs[id].phase.Published? ==> s.jobs[id].phase.eventId == SpokenId(setup.host, s.jobs[id].phase.item)
  {
    assert JobSound(setup, s.nmp.writes, id, s.jobs[id]);
    hide ValidateSpokenItem, IsLowerHex, SpokenId, FrozenItem, IsIdentifier;
  }

  lemma CompletesMeans(setup: Setup, s: State, job: JobRecord, worlds: nat -> World, t: State, r: Outcome)
    requires Completes(setup, s, job, worlds, 1, t, r)
    ensures && r.Ok? && r.value.phase.Published? && r.value.phase.item == ItemAhead(job, worlds, 1)
      && t.nmp.writes == s.nmp.writes + Owed(setup, s.nmp, job, worlds, 1)
      && |MembershipAhead(setup, s.nmp, job, worlds, 1)| <= 1 && |SpokenAhead(job, worlds, 1)| <= 1
      && (job.phase.Rank() <= 1 ==> t.nmp.writes == s.nmp.writes)
      && CachedIsId(t.nmp.members, job.author) && (Learns(s.nmp.members, job) ==> job.author in t.nmp.members)
  {
    hide ItemAhead, CachedIsId, Relay, TokenReceipt;
    assert s.nmp.writes + [] == s.nmp.writes;
  }

  // ----- such worlds exist -----

  /** A request whose item is the sample one. */
  function SampleRequest(): ProducerRequest {
    ProducerRequest("r", "g", "", "", "s", "", "b", BlankLabelItem().attachments, [], None)
  }

  function SampleSetup(): Setup {
    var id := seq(64, _ => 'a');
    Setup(Host("g", "k", (_: string) => Some("k"), (_: WriteIntent) => id, (_: string, _: nat) => id),
          (_: ProducerRequest) => "", (_: Bytes) => id, "w")
  }

  /** The relay shows no membership, everything else succeeds. */
  function SampleWorld(): World {
    var audio := LocalAudioArtifact(AudioPath(SampleSetup(), "r"), seq(64, _ => 'a'), "audio/mpeg", 1);
    World(true, None, true, true, Ok(audio), Ok([0]), Ok(BlankLabelItem().audio),
          [Members.Frame([], Some(Members.Requesting(true)))], None, None, Acked, 6)
  }

  lemma NobodyShown(host: Host, author: string)
    requires host.key(author).Some?
    ensures Relay(host, author, SampleWorld()) == Ok(None)
  {
    var frames := SampleWorld().frames;
    assert Members.Apply(map[], []) == Ok(map[]);
    assert Members.Reconciled(map[], frames) == Ok(map[]);
  }

  /** The premises of completion can be met together, here by a new request of an unknown author. */
  lemma CooperationIsPossible()
    ensures HashesAreIds(SampleSetup().host)
    ensures Publishable(SampleSetup(), map[], map[], SampleRequest(), "k", 1, (_: nat) => SampleWorld())
    ensures Relay(SampleSetup().host, "k", SampleWorld()) == Ok(None)
  {
    hide ValidateSpokenItem, ComposeSpokenItem, Relay;
    var setup, request, item := SampleSetup(), SampleRequest(), BlankLabelItem();
    BlankLabelItemIsValid(setup.host.key);
    ComposedIsValid(item, setup.host.key);
    NobodyShown(setup.host, "k");
    assert FrozenItem(Fresh(setup, request, "k", 1), item.audio) == item;
  }

  lemma ComposedIsValid(item: FrozenSpokenItem, key: KeyParser)
    requires ComposeSpokenItem(item, key).Ok?
    ensures ValidateSpokenItem(item, key).Ok?
  {
    hide ValidateSpokenItem;
  }
}
