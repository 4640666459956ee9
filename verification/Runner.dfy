/**
 `ProducerRunner` (daemon/src/runner.rs): load a job, perform the effect of its phase, save the next
 phase. The journal and the NMP store share no transaction, so an effect may outlive a lost save.
 */
module Runner {
  import opened Contract
  import opened Text
  import opened Composer
  import opened Jobs
  import opened Journal
  import Members
  import opened Publisher

  datatype Setup = Setup(host: Host, digest: ProducerRequest -> string, sha256: Bytes -> string, workRoot: string)

  /** Another process's admission of the same request id, linked between this one's load and insert. */
  datatype Rival = Rival(request: ProducerRequest, author: string, createdAt: nat)

  /** How the world answers one call: the journal's readability, the synthesizer, the bytes read back,
      the uploader, the membership frames, the engine and the receipt stream; `budget` is the number of
      journal file operations that succeed. */
  datatype World = World(
    readable: bool, rival: Option<Rival>, reread: bool, directory: bool,
    synthesized: Result<LocalAudioArtifact, string>, audio: Result<Bytes, string>,
    uploaded: Result<DurableArtifact, string>, frames: seq<Members.Frame>, token: Option<string>,
    refusal: Option<string>, ack: Ack, budget: nat)

  datatype State = State(jobs: Records, nmp: Nmp)

  type Outcome = Result<JobRecord, ProducerError>

  function AudioPath(setup: Setup, id: string): string {
    setup.workRoot + "/" + id + "/speech.mp3"
  }

  function Fresh(setup: Setup, request: ProducerRequest, author: string, createdAt: nat): JobRecord {
    JobRecord(1, setup.digest(request), author, createdAt, request, Admitted)
  }

  function RivalJob(setup: Setup, rival: Rival, id: string): JobRecord {
    Fresh(setup, rival.request.(requestId := id), rival.author, rival.createdAt)
  }

  function AdmitOf(setup: Setup, jobs: Records, request: ProducerRequest, author: string, createdAt: nat, w: World)
    : (Records, Outcome)
  {
    var id := request.requestId;
    if !ValidRequestId(id) then (jobs, Err(InvalidRequest("request_id")))
    else if !w.readable then (jobs, Err(ProducerError.Journal(Io)))
    else if id in jobs then (jobs, SameRequest(jobs[id], setup.digest(request), author))
    else
      var job := Fresh(setup, request, author, createdAt);
      var others := if w.rival.Some? then Added(jobs, RivalJob(setup, w.rival.value, id)) else jobs;
      var (after, r) := InsertOf(others, job, w.budget);
      match r
      case Err(error) => (after, Err(ProducerError.Journal(error)))
      case Ok(Inserted) => (after, Ok(job))
      case Ok(AlreadyExists) =>
        (after, if !w.reread then Err(ProducerError.Journal(Io))
         else SameRequest(after[id], setup.digest(request), author))
  }

  /** Admitted: synthesize and check the bytes on disk. */
  function SynthesizeOf(setup: Setup, job: JobRecord, w: World): Result<JobPhase, ProducerError> {
    if !w.directory then Err(ProducerError.Journal(Io))
    else if w.synthesized.Err? then Err(Capability("synthesis", w.synthesized.error))
    else if w.audio.Err? then Err(Capability("synthesis", w.audio.error))
    else if !ValidLocalAudio(w.synthesized.value, AudioPath(setup, job.request.requestId), w.audio.value,
                             setup.sha256) then
      Err(InvalidRequest("synthesized_audio"))
    else Ok(Synthesized(w.synthesized.value))
  }

  /** Synthesized: upload, compare the metadata and freeze the item. */
  function FreezeOf(setup: Setup, job: JobRecord, audio: LocalAudioArtifact, w: World): Result<JobPhase, ProducerError>
  {
    if w.uploaded.Err? then Err(Capability("artifact_upload", w.uploaded.error))
    else if !SameBytes(w.uploaded.value, audio) then
      Err(Capability("artifact_upload", "durable metadata does not match synthesized bytes"))
    else
      var item := FrozenItem(job, w.uploaded.value);
      match ValidateSpokenItem(item, setup.host.key)
      case Err(error) => Err(Capability("contract_freeze", Describe(error)))
      case Ok(_) => Ok(ArtifactsDurable(item))
  }

  function AuthorizedPhase(step: Result<AuthorizationStep, string>, item: FrozenSpokenItem)
    : Result<JobPhase, ProducerError>
  {
    match step
    case Err(reason) => Err(Capability("membership_authorization", reason))
    case Ok(Authorized(event)) =>
      if !IsLowerHex(event, 64) then
        Err(Capability("membership_authorization", "publisher returned an invalid membership event id"))
      else Ok(AuthorAuthorized(item, MembershipEvidence(event, None)))
    case Ok(Accepted(receipt)) => Ok(AuthorizationAccepted(item, receipt))
  }

  function ResumedPhase(event: Result<string, string>, item: FrozenSpokenItem, receipt: nat)
    : Result<JobPhase, ProducerError>
  {
    match event
    case Err(reason) => Err(Capability("membership_receipt", reason))
    case Ok(id) =>
      if !IsLowerHex(id, 64) then
        Err(Capability("membership_receipt", "publisher returned an invalid membership event id"))
      else Ok(AuthorAuthorized(item, MembershipEvidence(id, Some(receipt))))
  }

  function AcceptedPhase(receipt: Result<nat, string>, item: FrozenSpokenItem, evidence: MembershipEvidence)
    : Result<JobPhase, ProducerError>
  {
    match receipt
    case Err(reason) => Err(Capability("publication_acceptance", reason))
    case Ok(r) => Ok(PublicationAccepted(item, Some(evidence), r))
  }

  function PublishedPhase(event: Result<string, string>, item: FrozenSpokenItem, membership: Option<MembershipEvidence>,
                          receipt: nat): Result<JobPhase, ProducerError>
  {
    match event
    case Err(reason) => Err(Capability("publication_receipt", reason))
    case Ok(id) =>
      if !IsLowerHex(id, 64) then Err(Capability("publication_receipt", "publisher returned an invalid event id"))
      else Ok(Published(item, membership, receipt, id))
  }

  /** The effect of one phase on the NMP store, and the phase it earns. */
  ghost function EffectOf(setup: Setup, nmp: Nmp, job: JobRecord, w: World): (Nmp, Result<JobPhase, ProducerError>) {
    var id := job.request.requestId;
    match job.phase
    case Admitted => (nmp, SynthesizeOf(setup, job, w))
    case Synthesized(audio) => (nmp, FreezeOf(setup, job, audio, w))
    case ArtifactsDurable(item) =>
      var (after, step) := AuthorizeOf(setup.host, nmp, id, item.author, job.createdAt, w.frames, w.token, w.refusal);
      (after, AuthorizedPhase(step, item))
    case AuthorizationAccepted(item, receipt) =>
      var (after, event) := ResumeAuthorizationOf(setup.host, nmp, receipt, item.author, w.ack);
      (after, ResumedPhase(event, item, receipt))
    case AuthorAuthorized(item, evidence) =>
      var (after, receipt) := AcceptOf(setup.host, nmp, id, item, w.refusal);
      (after, AcceptedPhase(receipt, item, evidence))
    case PublicationAccepted(item, membership, receipt) =>
      (nmp, PublishedPhase(AwaitHostAck(setup.host, nmp.writes, receipt, w.ack), item, membership, receipt))
    case Published(_, _, _, _) => (nmp, Ok(job.phase))
  }

  ghost function AdvanceOf(setup: Setup, s: State, id: string, w: World): (State, Outcome) {
    if !ValidRequestId(id) then (s, Err(InvalidRequest("request_id")))
    else if !w.readable then (s, Err(ProducerError.Journal(Io)))
    else if id !in s.jobs then (s, Err(JobNotFound(id)))
    else if s.jobs[id].phase.Published? then (s, Ok(s.jobs[id]))
    else
      var (nmp, phase) := EffectOf(setup, s.nmp, s.jobs[id], w);
      if phase.Err? then (State(s.jobs, nmp), Err(phase.error))
      else
        var job := s.jobs[id].(phase := phase.value);
        var (jobs, r) := SaveOf(s.jobs, job, w.budget);
        (State(jobs, nmp), if r.Ok? then Ok(job) else Err(ProducerError.Journal(r.error)))
  }

  class ProducerRunner {
    const setup: Setup
    const journal: FileJobJournal
    const publisher: NmpPublisher

    constructor (setup: Setup, journal: FileJobJournal, publisher: NmpPublisher)
      requires journal.Valid() && publisher.host == setup.host
      ensures this.setup == setup && this.journal == journal && this.publisher == publisher && Valid()
    {
      this.setup, this.journal, this.publisher := setup, journal, publisher;
    }

    ghost predicate Valid()
      reads journal, publisher
    {
      && journal.Valid() && publisher.host == setup.host
      && forall id <- journal.Contents() :: journal.Contents()[id].request.requestId == id
    }

    ghost function Contents(): State
      requires Valid()
      reads journal, publisher
    {
      State(journal.Contents(), publisher.Contents())
    }

    method Admit(request: ProducerRequest, author: string, createdAt: nat, w: World)
      returns (r: Outcome)
      requires Valid()
      modifies journal
      ensures Valid()
      ensures var (jobs, outcome) := AdmitOf(setup, old(Contents()).jobs, request, author, createdAt, w);
        Contents() == old(Contents()).(jobs := jobs) && r == outcome
    {
      hide Sound, RecordsOn, ValidRequestId, NewProcess;
      if !ValidRequestId(request.requestId) { return Err(InvalidRequest("request_id")); }
      var digest := setup.digest(request);
      var loaded := journal.Load(request.requestId, w.readable);
      if loaded.Err? { return Err(ProducerError.Journal(loaded.error)); }
      if loaded.value.Some? { return SameRequest(loaded.value.value, digest, author); }
      var job := JobRecord(1, digest, author, createdAt, request, Admitted);
      if w.rival.Some? { journal.OtherInsert(RivalJob(setup, w.rival.value, request.requestId)); }
      var outcome := journal.Insert(job, w.budget);
      if outcome.Err? { return Err(ProducerError.Journal(outcome.error)); }
      match outcome.value
      case Inserted => return Ok(job);
      case AlreadyExists =>
        var existing := journal.Load(request.requestId, w.reread);
        if existing.Err? { return Err(ProducerError.Journal(existing.error)); }
        return SameRequest(existing.value.value, digest, author);
    }

    method Advance(id: string, w: World) returns (r: Outcome)
      requires Valid()
      modifies journal, publisher
      ensures Valid() && (Contents(), r) == AdvanceOf(setup, old(Contents()), id, w)
    {
      if !ValidRequestId(id) { return Err(InvalidRequest("request_id")); }
      var loaded := journal.Load(id, w.readable);
      if loaded.Err? { return Err(ProducerError.Journal(loaded.error)); }
      if loaded.value.None? { return Err(JobNotFound(id)); }
      var job := loaded.value.value;
      if job.phase.Published? { return Ok(job); }
      var phase := Effect(job, w);
      if phase.Err? { return Err(phase.error); }
      job := job.(phase := phase.value);
      var saved := journal.Save(job, w.budget);
      if saved.Err? { return Err(ProducerError.Journal(saved.error)); }
      return Ok(job);
    }

    /** The match over the phase inside `advance`. */
    method Effect(job: JobRecord, w: World) returns (r: Result<JobPhase, ProducerError>)
      requires publisher.host == setup.host
      modifies publisher
      ensures (publisher.Contents(), r) == EffectOf(setup, old(publisher.Contents()), job, w)
    {
      hide AuthorizeOf, ResumeAuthorizationOf, AcceptOf, AuthorizedPhase, ResumedPhase, AcceptedPhase, PublishedPhase,
           ValidLocalAudio, ValidateSpokenItem, AudioPath, FrozenItem, Describe;
      var id := job.request.requestId;
      match job.phase
      case Admitted =>
        var output := AudioPath(setup, id);
        if !w.directory { return Err(ProducerError.Journal(Io)); }
        if w.synthesized.Err? { return Err(Capability("synthesis", w.synthesized.error)); }
        var audio := w.synthesized.value;
        if w.audio.Err? { return Err(Capability("synthesis", w.audio.error)); }
        if !ValidLocalAudio(audio, output, w.audio.value, setup.sha256) {
          return Err(InvalidRequest("synthesized_audio"));
        }
        return Ok(Synthesized(audio));
      case Synthesized(audio) =>
        if w.uploaded.Err? { return Err(Capability("artifact_upload", w.uploaded.error)); }
        var durable := w.uploaded.value;
        if durable.sha256 != audio.sha256 || durable.byteCount != audio.byteCount
            || durable.mediaType != audio.mediaType {
          return Err(Capability("artifact_upload", "durable metadata does not match synthesized bytes"));
        }
        var item := FrozenItem(job, durable);
        var checked := ValidateSpokenItem(item, setup.host.key);
        if checked.Err? { return Err(Capability("contract_freeze", Describe(checked.error))); }
        return Ok(ArtifactsDurable(item));
      case ArtifactsDurable(item) =>
        var step := publisher.Authorize(id, item.author, job.createdAt, w.frames, w.token, w.refusal);
        return AuthorizedPhase(step, item);
      case AuthorizationAccepted(item, receipt) =>
        var event := publisher.ResumeAuthorization(receipt, item.author, w.ack);
        return ResumedPhase(event, item, receipt);
      case AuthorAuthorized(item, evidence) =>
        var receipt := publisher.Accept(id, item, w.refusal);
        return AcceptedPhase(receipt, item, evidence);
      case PublicationAccepted(item, membership, receipt) =>
        return PublishedPhase(publisher.Resume(receipt, w.ack), item, membership, receipt);
      case Published(_, _, _, _) => return Ok(job.phase);
    }
  }
}
