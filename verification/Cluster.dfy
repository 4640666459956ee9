/**
 Any number of processes admitting and advancing one request id over the same journal and work directories, one
 file operation at a time (daemon/src/journal.rs, daemon/src/runner.rs, daemon/src/kokoro.rs), and over one NMP store. A
 process may crash between any two operations, leave staged files behind and come back under the same process id.
 */
module Cluster {
  import opened Contract
  import opened Files
  import opened Jobs
  import opened Journal
  import opened Publisher
  import opened Runner
  import opened Runs

  datatype AudioName = Speech | StagedSpeech(process: nat, temp: nat)

  /** `upload` is what the artifact store answers for given content, when it answers. */
  datatype Config = Config(setup: Setup, id: string, limit: nat, upload: LocalAudioArtifact -> DurableArtifact)

  datatype Admission = Admission(request: ProducerRequest, author: string, createdAt: nat)

  /** What a staged record is for. */
  datatype Purpose = Inserting(job: JobRecord) | Saving(job: JobRecord)

  /** Where a process is, between two operations. */
  datatype Point =
    | Idle
    | AdmitLoading(adm: Admission)
    | Creating(purpose: Purpose)
    | Writing(purpose: Purpose, name: Name, inode: nat)
    | Committing(purpose: Purpose, name: Name)
    | Removing(job: JobRecord, name: Name, outcome: InsertOutcome)
    | Reloading(job: JobRecord)
    | AdvanceLoading
    | Loaded(job: JobRecord)
    | AudioCreating(job: JobRecord, bytes: Bytes)
    | AudioWriting(job: JobRecord, bytes: Bytes, staged: AudioName, inode: nat)
    | AudioLinking(job: JobRecord, bytes: Bytes, staged: AudioName)
    | AudioRemoving(job: JobRecord, staged: AudioName)
    | AudioReading(job: JobRecord)

  /** `members` is the process's session cache of authorized authors. */
  datatype Process = Process(at: Point, temp: nat, members: map<string, string>)

  /** `writes` is the NMP store's log; `admitted` and `frozen` record every successful admission's result and every item
      frozen so far. */
  datatype System = System(
    journal: Disk<Name, JobRecord>, audio: Disk<AudioName, Bytes>, processes: map<nat, Process>, writes: seq<Write>,
    admitted: seq<JobRecord>, frozen: seq<FrozenSpokenItem>)

  /** What happens to a process next: a crash, a failing operation, or the operation it is at. `w` is whatever the rest
      of the world answers. `OtherWrite` is a write to the store that is about another request. */
  datatype Choice =
    | Crash
    | Fail
    | Admit(adm: Admission)
    | Advance
    | Go(generated: Bytes, upload: LocalAudioArtifact -> Result<DurableArtifact, string>, w: World)
    | OtherWrite(eventId: string)

  const START := System(Disk(map[], []), Disk(map[], []), map[], [], [], [])

  const NEW_PROCESS := Process(Idle, 1, map[])

  function At(sys: System, p: nat): Process {
    if p in sys.processes then sys.processes[p] else NEW_PROCESS
  }

  function Move(sys: System, p: nat, at: Point): System {
    sys.(processes := sys.processes[p := At(sys, p).(at := at)])
  }

  /** The bytes on disk as `artifact_for_existing` describes them. */
  function ArtifactOf(c: Config, bytes: Bytes): LocalAudioArtifact {
    LocalAudioArtifact(AudioPath(c.setup, c.id), c.setup.sha256(bytes), "audio/mpeg", |bytes|)
  }

  /** What a load finds. */
  function Found(sys: System, c: Config): Option<Content<JobRecord>> {
    if Record(c.id) in sys.journal.names && sys.journal.names[Record(c.id)] < |sys.journal.inodes|
    then Some(sys.journal.inodes[sys.journal.names[Record(c.id)]])
    else None
  }

  function FoundSpeech(sys: System): Option<Content<Bytes>> {
    if Speech in sys.audio.names && sys.audio.names[Speech] < |sys.audio.inodes|
    then Some(sys.audio.inodes[sys.audio.names[Speech]])
    else None
  }

  /** An admission that loaded `job`: `same_request`. */
  function Answer(c: Config, sys: System, p: nat, job: JobRecord, digest: string, author: string): System {
    var s := Move(sys, p, Idle);
    if SameRequest(job, digest, author).Ok? then s.(admitted := s.admitted + [job]) else s
  }

  // ----- one operation -----

  function CreateStep(sys: System, c: Config, p: nat, purpose: Purpose): System {
    var process := At(sys, p);
    var name := Staged(c.id, p, process.temp);
    match sys.journal.CreateNew(name)
    case None => sys.(processes := sys.processes[p := process.(at := Idle, temp := process.temp + 1)])
    case Some(disk) =>
      sys.(journal := disk,
           processes := sys.processes[p := Process(Writing(purpose, name, |sys.journal.inodes|), process.temp + 1,
                                                   process.members)])
  }

  function CommitStep(sys: System, c: Config, p: nat, purpose: Purpose, name: Name): System {
    match purpose
    case Inserting(job) =>
      (match sys.journal.Link(name, Record(c.id))
       case Linked(disk) => Move(sys.(journal := disk), p, Removing(job, name, Inserted))
       case Exists => Move(sys, p, Removing(job, name, AlreadyExists))
       case Missing => Move(sys, p, Idle))
    case Saving(job) =>
      match sys.journal.Rename(name, Record(c.id))
      case Some(disk) => Move(sys.(journal := disk), p, Idle)
      case None => Move(sys, p, Idle)
  }

  /** The effect of the loaded phase; an admitted job goes through the audio file. */
  ghost function EffectStep(sys: System, c: Config, p: nat, job: JobRecord, choice: Choice): System
    requires choice.Go?
  {
    if job.phase.Published? then Move(sys, p, Idle)
    else if job.phase.Admitted? then
      Move(sys, p, if FoundSpeech(sys).Some? then AudioReading(job) else AudioCreating(job, choice.generated))
    else
      var w := if job.phase.Synthesized? then choice.w.(uploaded := choice.upload(job.phase.audio)) else choice.w;
      var (nmp, phase) := EffectOf(c.setup, Nmp(sys.writes, At(sys, p).members), job, w);
      var stored := sys.(writes := nmp.writes, processes := sys.processes[p := At(sys, p).(members := nmp.members)]);
      if phase.Err? then Move(stored, p, Idle)
      else
        var s := Move(stored, p, Creating(Saving(job.(phase := phase.value))));
        if job.phase.Synthesized? && phase.value.HasItem() then s.(frozen := s.frozen + [phase.value.item]) else s
  }

  function AudioCreateStep(sys: System, p: nat, job: JobRecord, bytes: Bytes): System {
    var process := At(sys, p);
    var name := StagedSpeech(p, process.temp);
    match sys.audio.CreateNew(name)
    case None => sys.(processes := sys.processes[p := process.(at := Idle, temp := process.temp + 1)])
    case Some(disk) =>
      sys.(audio := disk,
           processes := sys.processes[p := Process(AudioWriting(job, bytes, name, |sys.audio.inodes|), process.temp + 1,
                                                   process.members)])
  }

  /** Read the speech file back and check it. */
  function AudioReadStep(sys: System, c: Config, p: nat, job: JobRecord): System {
    match FoundSpeech(sys)
    case Some(Whole(bytes)) =>
      var audio := ArtifactOf(c, bytes);
      if bytes == [] || c.limit < |bytes| || !ValidLocalAudio(audio, AudioPath(c.setup, c.id), bytes, c.setup.sha256)
      then Move(sys, p, Idle)
      else Move(sys, p, Creating(Saving(job.(phase := Synthesized(audio)))))
    case _ => Move(sys, p, Idle)
  }

  ghost function GoStep(c: Config, sys: System, p: nat, choice: Choice): System
    requires choice.Go?
  {
    match At(sys, p).at
    case Idle => sys
    case AdmitLoading(adm) =>
      (match Found(sys, c)
       case None => Move(sys, p, Creating(Inserting(Fresh(c.setup, adm.request, adm.author, adm.createdAt))))
       case Some(Whole(job)) => Answer(c, sys, p, job, c.setup.digest(adm.request), adm.author)
       case Some(Partial) => Move(sys, p, Idle))
    case Creating(purpose) => CreateStep(sys, c, p, purpose)
    case Writing(purpose, name, inode) =>
      if inode < |sys.journal.inodes| then
        Move(sys.(journal := sys.journal.Write(inode, purpose.job)), p, Committing(purpose, name))
      else Move(sys, p, Idle)
    case Committing(purpose, name) => CommitStep(sys, c, p, purpose, name)
    case Removing(job, name, outcome) =>
      var s := sys.(journal := sys.journal.Remove(name));
      if outcome.Inserted? then Move(s, p, Idle).(admitted := sys.admitted + [job]) else Move(s, p, Reloading(job))
    case Reloading(job) =>
      (match Found(sys, c)
       case Some(Whole(existing)) => Answer(c, sys, p, existing, job.requestDigest, job.author)
       case _ => Move(sys, p, Idle))
    case AdvanceLoading =>
      (match Found(sys, c)
       case Some(Whole(job)) => Move(sys, p, Loaded(job))
       case _ => Move(sys, p, Idle))
    case Loaded(job) => EffectStep(sys, c, p, job, choice)
    case AudioCreating(job, bytes) => AudioCreateStep(sys, p, job, bytes)
    case AudioWriting(job, bytes, staged, inode) =>
      if inode < |sys.audio.inodes| then
        Move(sys.(audio := sys.audio.Write(inode, bytes)), p, AudioLinking(job, bytes, staged))
      else Move(sys, p, Idle)
    case AudioLinking(job, bytes, staged) =>
      (match sys.audio.Link(staged, Speech)
       case Linked(disk) => Move(sys.(audio := disk), p, AudioRemoving(job, staged))
       case Exists => Move(sys, p, AudioRemoving(job, staged))
       case Missing => Move(sys, p, Idle))
    case AudioRemoving(job, staged) => Move(sys.(audio := sys.audio.Remove(staged)), p, AudioReading(job))
    case AudioReading(job) => AudioReadStep(sys, c, p, job)
  }

  /** A failing operation ends the call; the synthesizer removes its staged audio, the journal leaves its file. */
  function FailStep(sys: System, p: nat): System {
    match At(sys, p).at
    case AudioWriting(_, _, staged, _) => Move(sys.(audio := sys.audio.Remove(staged)), p, Idle)
    case AudioLinking(_, _, staged) => Move(sys.(audio := sys.audio.Remove(staged)), p, Idle)
    case _ => Move(sys, p, Idle)
  }

  ghost function Next(c: Config, sys: System, p: nat, choice: Choice): System {
    match choice
    case Crash => sys.(processes := sys.processes[p := NEW_PROCESS])
    case Fail => FailStep(sys, p)
    case Admit(adm) =>
      if At(sys, p).at.Idle? && adm.request.requestId == c.id && ValidRequestId(c.id) then
        Move(sys, p, AdmitLoading(adm))
      else sys
    case Advance => if At(sys, p).at.Idle? then Move(sys, p, AdvanceLoading) else sys
    case Go(_, _, _) => GoStep(c, sys, p, choice)
    case OtherWrite(event) => sys.(writes := sys.writes + [Foreign(event)])
  }

  type Schedule = seq<(nat, Choice)>

  ghost function Execute(c: Config, sys: System, steps: Schedule): System {
    if steps == [] then sys
    else
      var last := steps[|steps| - 1];
      Next(c, Execute(c, sys, steps[..|steps| - 1]), last.0, last.1)
  }

  // ----- the invariant -----

  /** What a reader may see: nothing, or a complete record. */
  function Visible(c: Config, sys: System): Option<JobRecord> {
    match Found(sys, c) case Some(Whole(job)) => Some(job) case _ => None
  }

  function Audible(sys: System): Option<Bytes> {
    match FoundSpeech(sys) case Some(Whole(bytes)) => Some(bytes) case _ => None
  }

  /** The item every runner must freeze, given the record's identity and the committed audio. */
  function TheItem(c: Config, job: JobRecord, bytes: Bytes): FrozenSpokenItem {
    FrozenItem(job, c.upload(ArtifactOf(c, bytes)))
  }

  /** A phase is this request's: it fits the committed audio and, with faithful uploads, so does the frozen item; its
      receipts are this job's own writes and its event id is its item's. */
  ghost predicate PhaseFits(c: Config, faithful: bool, sys: System, job: JobRecord) {
    && job.request.requestId == c.id
    && (job.phase.Synthesized? ==> Audible(sys).Some? && job.phase.audio == ArtifactOf(c, Audible(sys).value))
    && (job.phase.HasItem() ==> job.phase.item == FrozenItem(job, job.phase.item.audio))
    && (job.phase.HasItem() && faithful ==> Audible(sys).Some? && job.phase.item == TheItem(c, job, Audible(sys).value))
    && ReceiptFits(c, sys.writes, job)
  }

  predicate ReceiptFits(c: Config, writes: seq<Write>, job: JobRecord) {
    && (job.phase.AuthorizationAccepted? ==>
          Bound(writes, job.phase.receiptId, Membership(c.id, job.author, job.createdAt)))
    && (job.phase.PublicationAccepted? || job.phase.Published? ==>
          Bound(writes, job.phase.receiptId, Spoken(c.id, job.phase.item)))
    && (job.phase.Published? ==> job.phase.eventId == SpokenId(c.setup.host, job.phase.item))
  }

  /** A job in some process's hands, or in the past, agrees with the record on disk. */
  ghost predicate Agrees(c: Config, faithful: bool, sys: System, job: JobRecord) {
    var record := Visible(c, sys);
    record.Some? && SameIdentity(job, record.value) && PhaseFits(c, faithful, sys, job)
  }

  ghost predicate PurposeFits(c: Config, faithful: bool, sys: System, purpose: Purpose) {
    match purpose
    case Inserting(job) =>
      job.phase.Admitted? && job.request.requestId == c.id && job.requestDigest == c.setup.digest(job.request)
    case Saving(job) => Agrees(c, faithful, sys, job)
  }

  /** What holds of process `p` at each point. */
  ghost predicate PointFits(c: Config, faithful: bool, sys: System, p: nat, at: Point, temp: nat) {
    match at
    case Idle => true
    case AdmitLoading(adm) => adm.request.requestId == c.id
    case AdvanceLoading => true
    case Reloading(_) => true
    case Creating(purpose) => PurposeFits(c, faithful, sys, purpose)
    case Writing(purpose, name, inode) =>
      PurposeFits(c, faithful, sys, purpose) && Own(c, p, temp, name) && Exclusive(sys.journal, name, inode)
    case Committing(purpose, name) =>
      PurposeFits(c, faithful, sys, purpose) && Own(c, p, temp, name) && Holds(sys.journal, name, purpose.job)
    case Removing(job, name, outcome) => Own(c, p, temp, name) && (outcome.Inserted? ==> Agrees(c, faithful, sys, job))
    case Loaded(job) => Agrees(c, faithful, sys, job)
    case AudioCreating(job, _) => Agrees(c, faithful, sys, job)
    case AudioWriting(job, bytes, staged, inode) =>
      Agrees(c, faithful, sys, job) && OwnSpeech(p, temp, staged) && Exclusive(sys.audio, staged, inode)
    case AudioLinking(job, bytes, staged) =>
      Agrees(c, faithful, sys, job) && OwnSpeech(p, temp, staged) && Holds(sys.audio, staged, bytes)
    case AudioRemoving(job, staged) => Agrees(c, faithful, sys, job) && OwnSpeech(p, temp, staged)
    case AudioReading(job) => Agrees(c, faithful, sys, job)
  }

  predicate Own(c: Config, p: nat, temp: nat, name: Name) {
    name.Staged? && name.id == c.id && name.process == p && name.temp < temp
  }

  predicate OwnSpeech(p: nat, temp: nat, name: AudioName) {
    name.StagedSpeech? && name.process == p && name.temp < temp
  }

  ghost predicate DisksSound(c: Config, sys: System) {
    && sys.journal.Valid() && sys.audio.Valid()
    && (Record(c.id) in sys.journal.names ==> Visible(c, sys).Some?)
    && (Speech in sys.audio.names ==> Audible(sys).Some?)
  }

  ghost predicate PastFits(c: Config, faithful: bool, sys: System) {
    && (Visible(c, sys).Some? ==> Agrees(c, faithful, sys, Visible(c, sys).value))
    && (forall job <- sys.admitted :: Agrees(c, faithful, sys, job))
    && (faithful ==> forall item <- sys.frozen :: IsTheItem(c, sys, item))
  }

  /** The item is the one fixed by the record and the committed audio. */
  ghost predicate IsTheItem(c: Config, sys: System, item: FrozenSpokenItem) {
    Visible(c, sys).Some? && Audible(sys).Some? && item == TheItem(c, Visible(c, sys).value, Audible(sys).value)
  }

  /** A write about this request carries the record's author and time, and with faithful uploads the one item. */
  ghost predicate WriteFits(c: Config, faithful: bool, sys: System, write: Write) {
    match write
    case Spoken(id, item) =>
      && id == c.id && Visible(c, sys).Some? && item == FrozenItem(Visible(c, sys).value, item.audio)
      && (faithful ==> IsTheItem(c, sys, item))
    case Membership(id, author, createdAt) =>
      && id == c.id && Visible(c, sys).Some?
      && author == Visible(c, sys).value.author && createdAt == Visible(c, sys).value.createdAt
    case Foreign(_) => true
  }

  ghost predicate LogFits(c: Config, faithful: bool, sys: System) {
    (forall write <- sys.writes :: WriteFits(c, faithful, sys, write)) && OnePerToken(sys.writes)
  }

  ghost predicate AllFit(c: Config, faithful: bool, sys: System) {
    forall p <- sys.processes :: PointFits(c, faithful, sys, p, sys.processes[p].at, sys.processes[p].temp)
  }

  ghost predicate Consistent(c: Config, faithful: bool, sys: System) {
    DisksSound(c, sys) && PastFits(c, faithful, sys) && AllFit(c, faithful, sys) && LogFits(c, faithful, sys)
  }

  /** What no step takes back: the record's identity, the committed audio, and the past. */
  ghost predicate Settled(c: Config, before: System, after: System) {
    && (Visible(c, before).Some? ==>
        Visible(c, after).Some? && SameIdentity(Visible(c, before).value, Visible(c, after).value))
    && (Audible(before).Some? ==> Audible(after) == Audible(before))
    && before.admitted <= after.admitted && before.frozen <= after.frozen && before.writes <= after.writes
  }
}
