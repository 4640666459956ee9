/** Every interleaving of file operations and crashes keeps readers, admissions and frozen items in agreement. */
module ClusterRuns {
  import opened Contract
  import opened Composer
  import opened Files
  import opened Jobs
  import opened Journal
  import opened Publisher
  import opened Runner
  import opened Runs
  import opened Cluster

  /** The store's answers depend only on the audio's bytes. */
  ghost predicate FaithfulUpload(c: Config, choice: Choice) {
    choice.Go? ==> forall audio :: choice.upload(audio).Ok? ==> choice.upload(audio).value == c.upload(audio)
  }

  // ----- what other processes keep -----

  ghost predicate LeavesOthers(s: System, t: System, p: nat) {
    && (forall name: Name :: name.Staged? && name.process != p ==> Leaves(s.journal, t.journal, name))
    && (forall name: AudioName :: name.StagedSpeech? && name.process != p ==> Leaves(s.audio, t.audio, name))
  }

  lemma AgreesStays(c: Config, faithful: bool, s: System, t: System, job: JobRecord)
    requires Settled(c, s, t) && Agrees(c, faithful, s, job)
    ensures Agrees(c, faithful, t, job)
  {
    hide Visible, Audible;
  }

  lemma PurposeStays(c: Config, faithful: bool, s: System, t: System, purpose: Purpose)
    requires Settled(c, s, t) && PurposeFits(c, faithful, s, purpose)
    ensures PurposeFits(c, faithful, t, purpose)
  {
    hide Visible, Audible, Agrees, Settled;
    if purpose.Saving? { AgreesStays(c, faithful, s, t, purpose.job); }
  }

  lemma OthersStay(c: Config, faithful: bool, s: System, t: System, p: nat, q: nat, at: Point, temp: nat)
    requires Settled(c, s, t) && LeavesOthers(s, t, p) && q != p && PointFits(c, faithful, s, q, at, temp)
    ensures PointFits(c, faithful, t, q, at, temp)
  {
    hide Visible, Audible, Agrees, Settled, PurposeFits, Exclusive, Holds;
    match at
    case Idle =>
    case AdmitLoading(_) =>
    case AdvanceLoading =>
    case Reloading(_) =>
    case Creating(purpose) => PurposeStays(c, faithful, s, t, purpose);
    case Writing(purpose, name, inode) =>
      PurposeStays(c, faithful, s, t, purpose);
      assert Leaves(s.journal, t.journal, name);
    case Committing(purpose, name) =>
      PurposeStays(c, faithful, s, t, purpose);
      assert Leaves(s.journal, t.journal, name);
    case Removing(job, name, outcome) => if outcome.Inserted? { AgreesStays(c, faithful, s, t, job); }
    case Loaded(job) => AgreesStays(c, faithful, s, t, job);
    case AudioCreating(job, _) => AgreesStays(c, faithful, s, t, job);
    case AudioWriting(job, bytes, staged, inode) =>
      AgreesStays(c, faithful, s, t, job);
      assert Leaves(s.audio, t.audio, staged);
    case AudioLinking(job, bytes, staged) =>
      AgreesStays(c, faithful, s, t, job);
      assert Leaves(s.audio, t.audio, staged);
    case AudioRemoving(job, staged) => AgreesStays(c, faithful, s, t, job);
    case AudioReading(job) => AgreesStays(c, faithful, s, t, job);
  }

  /** What a step of `p` owes: others untouched, nothing settled taken back, its own new point and past in order. */
  ghost predicate Owes(c: Config, faithful: bool, s: System, t: System, p: nat) {
    && Settled(c, s, t) && LeavesOthers(s, t, p) && DisksSound(c, t)
    && p in t.processes && t.processes == s.processes[p := t.processes[p]]
    && PointFits(c, faithful, t, p, t.processes[p].at, t.processes[p].temp)
    && (Visible(c, t).Some? ==> Agrees(c, faithful, t, Visible(c, t).value))
    && (forall job <- t.admitted :: job in s.admitted || Agrees(c, faithful, t, job))
    && (faithful ==> forall item <- t.frozen :: item in s.frozen || IsTheItem(c, t, item))
    && (t.writes == s.writes || LogFits(c, faithful, t))
  }

  lemma Assemble(c: Config, faithful: bool, s: System, t: System, p: nat)
    requires Consistent(c, faithful, s) && Owes(c, faithful, s, t, p)
    ensures Consistent(c, faithful, t)
  {
    hide DisksSound, LeavesOthers, Visible, Audible, Agrees, PointFits, Settled, IsTheItem, LogFits;
    forall q | q in t.processes ensures PointFits(c, faithful, t, q, t.processes[q].at, t.processes[q].temp) {
      if q != p { OthersStay(c, faithful, s, t, p, q, s.processes[q].at, s.processes[q].temp); }
    }
    forall job | job in t.admitted ensures Agrees(c, faithful, t, job) {
      if job in s.admitted { AgreesStays(c, faithful, s, t, job); }
    }
    if faithful {
      forall item | item in t.frozen ensures IsTheItem(c, t, item) {
        if item in s.frozen { ItemStays(c, s, t, item); }
      }
    }
    if t.writes == s.writes { LogStays(c, faithful, s, t); }
  }

  lemma ItemStays(c: Config, s: System, t: System, item: FrozenSpokenItem)
    requires Settled(c, s, t) && IsTheItem(c, s, item)
    ensures IsTheItem(c, t, item)
  {
    hide Visible, Audible;
    SameItem(c, Visible(c, s).value, Visible(c, t).value, Audible(s).value);
  }

  lemma WriteStays(c: Config, faithful: bool, s: System, t: System, write: Write)
    requires Settled(c, s, t) && WriteFits(c, faithful, s, write)
    ensures WriteFits(c, faithful, t, write)
  {
    hide Visible, Audible, IsTheItem, Settled;
    if write.Spoken? && faithful { ItemStays(c, s, t, write.item); }
    if !write.Foreign? { RecordStays(c, s, t); }
  }

  lemma RecordStays(c: Config, s: System, t: System)
    requires Settled(c, s, t) && Visible(c, s).Some?
    ensures Visible(c, t).Some? && Visible(c, t).value.author == Visible(c, s).value.author
    ensures Visible(c, t).value.createdAt == Visible(c, s).value.createdAt
    ensures forall audio :: FrozenItem(Visible(c, t).value, audio) == FrozenItem(Visible(c, s).value, audio)
  {
    hide Visible, Audible;
  }

  lemma LogStays(c: Config, faithful: bool, s: System, t: System)
    requires Settled(c, s, t) && LogFits(c, faithful, s) && t.writes == s.writes
    ensures LogFits(c, faithful, t)
  {
    hide WriteFits, Settled, OnePerToken;
    forall write | write in t.writes ensures WriteFits(c, faithful, t, write) { WriteStays(c, faithful, s, t, write); }
  }

  lemma SameItem(c: Config, a: JobRecord, b: JobRecord, bytes: Bytes)
    requires SameIdentity(a, b)
    ensures TheItem(c, a, bytes) == TheItem(c, b, bytes)
  {
  }

  // ----- steps that only move -----

  lemma SameDisks(c: Config, faithful: bool, s: System, t: System, p: nat)
    requires Consistent(c, faithful, s) && t.journal == s.journal && t.audio == s.audio
    requires s.admitted <= t.admitted && s.frozen <= t.frozen && s.writes <= t.writes
    ensures Settled(c, s, t) && LeavesOthers(s, t, p) && DisksSound(c, t)
    ensures Visible(c, t) == Visible(c, s) && Audible(t) == Audible(s)
    ensures Visible(c, t).Some? ==> Agrees(c, faithful, t, Visible(c, t).value)
  {
  }

  lemma JustMoves(c: Config, faithful: bool, s: System, p: nat, at: Point)
    requires Consistent(c, faithful, s) && PointFits(c, faithful, s, p, at, At(s, p).temp)
    ensures Consistent(c, faithful, Move(s, p, at)) && Settled(c, s, Move(s, p, at))
  {
    var t := Move(s, p, at);
    SameDisks(c, faithful, s, t, p);
    hide Visible, Audible, Agrees, Consistent, DisksSound, LeavesOthers, Settled;
    PointCarries(c, faithful, s, t, p, at, At(s, p).temp);
    Assemble(c, faithful, s, t, p);
  }

  lemma PointCarries(c: Config, faithful: bool, s: System, t: System, p: nat, at: Point, temp: nat)
    requires t.journal == s.journal && t.audio == s.audio && t.writes == s.writes
             && PointFits(c, faithful, s, p, at, temp)
    ensures PointFits(c, faithful, t, p, at, temp)
  {
    assert Visible(c, t) == Visible(c, s) && Audible(t) == Audible(s);
    hide Visible, Audible, Agrees, PurposeFits, Exclusive, Holds;
  }

  /** Back to idle, with whatever counter. */
  lemma Idles(c: Config, faithful: bool, s: System, p: nat, process: Process)
    requires Consistent(c, faithful, s) && process.at.Idle?
    ensures var t := s.(processes := s.processes[p := process]); Consistent(c, faithful, t) && Settled(c, s, t)
  {
    var t := s.(processes := s.processes[p := process]);
    SameDisks(c, faithful, s, t, p);
    hide Visible, Audible, Agrees, Consistent, DisksSound, LeavesOthers, Settled;
    Assemble(c, faithful, s, t, p);
  }

  lemma Answers(c: Config, faithful: bool, s: System, p: nat, job: JobRecord, digest: string, author: string)
    requires Consistent(c, faithful, s) && Visible(c, s) == Some(job)
    ensures var t := Answer(c, s, p, job, digest, author); Consistent(c, faithful, t) && Settled(c, s, t)
  {
    var t := Answer(c, s, p, job, digest, author);
    SameDisks(c, faithful, s, t, p);
    assert Agrees(c, faithful, t, job);
    hide Visible, Audible, Agrees, Consistent, DisksSound, LeavesOthers, Settled;
    Assemble(c, faithful, s, t, p);
  }

  // ----- the journal's steps -----

  lemma Creates(c: Config, faithful: bool, s: System, p: nat, purpose: Purpose)
    requires Consistent(c, faithful, s) && PurposeFits(c, faithful, s, purpose)
    ensures var t := CreateStep(s, c, p, purpose); Consistent(c, faithful, t) && Settled(c, s, t)
  {
    hide Consistent, Agrees, Visible, Audible, Settled, PurposeFits, DisksSound;
    SoundDisks(c, faithful, s);
    var temp := At(s, p).temp;
    var name := Staged(c.id, p, temp);
    if name in s.journal.names {
      Idles(c, faithful, s, p, At(s, p).(at := Idle, temp := temp + 1));
    } else {
      var t := CreateStep(s, c, p, purpose);
      forall other: Name | other != name ensures Leaves(s.journal, t.journal, other) {
        CreateLeaves(s.journal, name, other);
      }
      CreateLeaves(s.journal, name, Record(c.id));
      hide Leaves, Exclusive;
      SameRecord(c, s, t);
      PurposeSame(c, faithful, s, t, purpose);
      LeavesSelf(s.audio);
      OwnStep(c, faithful, s, t, p);
    }
  }

  lemma LeavesSelf<N(!new), T(!new)>(disk: Disk<N, T>)
    ensures forall name: N :: Leaves(disk, disk, name)
  {
  }

  /** A record the operation leaves alone reads the same. */
  lemma SameRecord(c: Config, s: System, t: System)
    requires DisksSound(c, s) && t.journal.Valid() && Leaves(s.journal, t.journal, Record(c.id)) && t.audio == s.audio
    ensures Visible(c, t) == Visible(c, s) && Audible(t) == Audible(s) && DisksSound(c, t)
  {
    if Record(c.id) in s.journal.names {
      var job := Visible(c, s).value;
      assert Holds(s.journal, Record(c.id), job);
      assert Holds(t.journal, Record(c.id), job);
    }
  }

  /** Steps that change what only `p` can see. */
  lemma StepOwes(c: Config, faithful: bool, s: System, t: System, p: nat)
    requires Consistent(c, faithful, s) && DisksSound(c, t) && Visible(c, t) == Visible(c, s)
             && Audible(t) == Audible(s)
    requires forall name: Name :: name.Staged? && name.process != p ==> Leaves(s.journal, t.journal, name)
    requires forall name: AudioName :: name.StagedSpeech? && name.process != p ==> Leaves(s.audio, t.audio, name)
    requires p in t.processes && t.processes == s.processes[p := t.processes[p]]
    requires PointFits(c, faithful, t, p, t.processes[p].at, t.processes[p].temp)
    requires s.admitted <= t.admitted && t.frozen == s.frozen && t.writes == s.writes
    requires forall job <- t.admitted :: job in s.admitted || Agrees(c, faithful, s, job)
    ensures Owes(c, faithful, s, t, p)
  {
    hide Visible, Audible, Leaves, PointFits, DisksSound;
  }

  /** A step that changes what only `p` can see keeps everything. */
  lemma OwnStep(c: Config, faithful: bool, s: System, t: System, p: nat)
    requires Consistent(c, faithful, s) && DisksSound(c, t) && Visible(c, t) == Visible(c, s)
             && Audible(t) == Audible(s)
    requires forall name: Name :: name.Staged? && name.process != p ==> Leaves(s.journal, t.journal, name)
    requires forall name: AudioName :: name.StagedSpeech? && name.process != p ==> Leaves(s.audio, t.audio, name)
    requires p in t.processes && t.processes == s.processes[p := t.processes[p]]
    requires PointFits(c, faithful, t, p, t.processes[p].at, t.processes[p].temp)
    requires s.admitted <= t.admitted && t.frozen == s.frozen && t.writes == s.writes
    requires forall job <- t.admitted :: job in s.admitted || Agrees(c, faithful, s, job)
    ensures Consistent(c, faithful, t) && Settled(c, s, t)
  {
    StepOwes(c, faithful, s, t, p);
    Assemble(c, faithful, s, t, p);
    hide *;
    OwesSettled(c, faithful, s, t, p);
  }

  lemma OwesSettled(c: Config, faithful: bool, s: System, t: System, p: nat)
    requires Owes(c, faithful, s, t, p)
    ensures Settled(c, s, t)
  {
    hide Settled, LeavesOthers, DisksSound, PointFits, Visible, Agrees, LogFits, IsTheItem;
  }

  lemma SoundDisks(c: Config, faithful: bool, s: System)
    requires Consistent(c, faithful, s)
    ensures DisksSound(c, s) && s.journal.Valid() && s.audio.Valid()
  {
    hide PastFits, AllFit, LogFits, Visible, Audible;
  }

  /** What agrees keeps agreeing while the same can be seen. */
  lemma AgreesSame(c: Config, faithful: bool, s: System, t: System, job: JobRecord)
    requires Visible(c, t) == Visible(c, s) && Audible(t) == Audible(s) && t.writes == s.writes
             && Agrees(c, faithful, s, job)
    ensures Agrees(c, faithful, t, job)
  {
    hide Visible, Audible, TheItem, FrozenItem, ReceiptFits;
  }

  lemma PurposeSame(c: Config, faithful: bool, s: System, t: System, purpose: Purpose)
    requires Visible(c, t) == Visible(c, s) && Audible(t) == Audible(s) && t.writes == s.writes
    requires PurposeFits(c, faithful, s, purpose)
    ensures PurposeFits(c, faithful, t, purpose)
  {
    hide Visible, Audible, Agrees;
    if purpose.Saving? { AgreesSame(c, faithful, s, t, purpose.job); }
  }

  lemma Writes(c: Config, faithful: bool, s: System, p: nat, purpose: Purpose, name: Name, inode: nat)
    requires Consistent(c, faithful, s) && PointFits(c, faithful, s, p, Writing(purpose, name, inode), At(s, p).temp)
    ensures inode < |s.journal.inodes|
    ensures var t := Move(s.(journal := s.journal.Write(inode, purpose.job)), p, Committing(purpose, name));
      Consistent(c, faithful, t) && Settled(c, s, t)
  {
    hide Consistent, Agrees, Visible, Audible, Settled, PurposeFits, DisksSound;
    SoundDisks(c, faithful, s);
    var t := Move(s.(journal := s.journal.Write(inode, purpose.job)), p, Committing(purpose, name));
    forall other: Name | other != name ensures Leaves(s.journal, t.journal, other) {
      WriteLeaves(s.journal, name, inode, purpose.job, other);
    }
    WriteLeaves(s.journal, name, inode, purpose.job, Record(c.id));
    hide Leaves, Holds;
    SameRecord(c, s, t);
    PurposeSame(c, faithful, s, t, purpose);
    LeavesSelf(s.audio);
    OwnStep(c, faithful, s, t, p);
  }

  /** A committed record is visible, complete and of the same identity as any before it. */
  lemma Commits(c: Config, faithful: bool, s: System, t: System, p: nat, job: JobRecord, at: Point)
    requires Consistent(c, faithful, s) && t.journal.Valid() && t.audio == s.audio
    requires Holds(t.journal, Record(c.id), job) && (Visible(c, s).Some? ==> SameIdentity(Visible(c, s).value, job))
    requires PhaseFits(c, faithful, s, job)
    requires forall name: Name :: name.Staged? && name.process != p ==> Leaves(s.journal, t.journal, name)
    requires p in t.processes && t.processes == s.processes[p := t.processes[p]] && t.processes[p].at == at
    requires at.Idle? || (at.Removing? && at.job == job && Own(c, p, t.processes[p].temp, at.name))
    requires t.admitted == s.admitted && t.frozen == s.frozen && t.writes == s.writes
    ensures Consistent(c, faithful, t) && Settled(c, s, t)
  {
    assert Visible(c, t) == Some(job) && Audible(t) == Audible(s);
    assert DisksSound(c, t);
    assert LeavesOthers(s, t, p);
    hide Visible, Audible, Consistent, DisksSound, PhaseFits, LeavesOthers, Holds;
    Assemble(c, faithful, s, t, p);
  }

  lemma CommitsInsert(c: Config, faithful: bool, s: System, p: nat, job: JobRecord, name: Name)
    requires Consistent(c, faithful, s) && PointFits(c, faithful, s, p, Committing(Inserting(job), name), At(s, p).temp)
    ensures var t := CommitStep(s, c, p, Inserting(job), name); Consistent(c, faithful, t) && Settled(c, s, t)
  {
    var to := Record(c.id);
    if to in s.journal.names {
      hide Visible, Audible, Agrees;
      JustMoves(c, faithful, s, p, Removing(job, name, AlreadyExists));
    } else {
      var t := CommitStep(s, c, p, Inserting(job), name);
      forall other: Name | other != name && other != to ensures Leaves(s.journal, t.journal, other) {
        LinkLeaves(s.journal, name, to, other);
      }
      LinkLeaves(s.journal, name, to, Staged(c.id, p + 1, 0));
      assert Visible(c, s).None?;
      Commits(c, faithful, s, t, p, job, Removing(job, name, Inserted));
    }
  }

  lemma CommitsSave(c: Config, faithful: bool, s: System, p: nat, job: JobRecord, name: Name)
    requires Consistent(c, faithful, s) && PointFits(c, faithful, s, p, Committing(Saving(job), name), At(s, p).temp)
    ensures var t := CommitStep(s, c, p, Saving(job), name); Consistent(c, faithful, t) && Settled(c, s, t)
  {
    var to, t := Record(c.id), CommitStep(s, c, p, Saving(job), name);
    forall other: Name | other != name && other != to ensures Leaves(s.journal, t.journal, other) {
      RenameLeaves(s.journal, name, to, other);
    }
    RenameLeaves(s.journal, name, to, Staged(c.id, p + 1, 0));
    assert SameIdentity(Visible(c, s).value, job);
    Commits(c, faithful, s, t, p, job, Idle);
  }

  lemma Removes(c: Config, faithful: bool, s: System, p: nat, job: JobRecord, name: Name, outcome: InsertOutcome)
    requires Consistent(c, faithful, s) && PointFits(c, faithful, s, p, Removing(job, name, outcome), At(s, p).temp)
    ensures var t := Move(s.(journal := s.journal.Remove(name)), p, if outcome.Inserted? then Idle else Reloading(job));
      var u := if outcome.Inserted? then t.(admitted := s.admitted + [job]) else t;
      Consistent(c, faithful, u) && Settled(c, s, u)
  {
    hide Consistent, Agrees, Visible, Audible, Settled, PurposeFits, DisksSound;
    SoundDisks(c, faithful, s);
    var t := Move(s.(journal := s.journal.Remove(name)), p, if outcome.Inserted? then Idle else Reloading(job));
    var u := if outcome.Inserted? then t.(admitted := s.admitted + [job]) else t;
    forall other: Name | other != name ensures Leaves(s.journal, u.journal, other) {
      RemoveLeaves(s.journal, name, other);
    }
    RemoveLeaves(s.journal, name, Record(c.id));
    hide Leaves;
    SameRecord(c, s, u);
    LeavesSelf(s.audio);
    OwnStep(c, faithful, s, u, p);
  }

  // ----- the speech file's steps -----

  lemma SameSpeech(c: Config, s: System, t: System)
    requires DisksSound(c, s) && t.audio.Valid() && Leaves(s.audio, t.audio, Speech) && t.journal == s.journal
    ensures Visible(c, t) == Visible(c, s) && Audible(t) == Audible(s) && DisksSound(c, t)
  {
    if Speech in s.audio.names {
      var bytes := Audible(s).value;
      assert Holds(s.audio, Speech, bytes);
      assert Holds(t.audio, Speech, bytes);
    }
  }

  lemma AudioCreates(c: Config, faithful: bool, s: System, p: nat, job: JobRecord, bytes: Bytes)
    requires Consistent(c, faithful, s) && Agrees(c, faithful, s, job)
    ensures var t := AudioCreateStep(s, p, job, bytes); Consistent(c, faithful, t) && Settled(c, s, t)
  {
    hide Consistent, Agrees, Visible, Audible, Settled, PurposeFits, DisksSound;
    SoundDisks(c, faithful, s);
    var temp := At(s, p).temp;
    var name := StagedSpeech(p, temp);
    if name in s.audio.names {
      Idles(c, faithful, s, p, At(s, p).(at := Idle, temp := temp + 1));
    } else {
      var t := AudioCreateStep(s, p, job, bytes);
      forall other: AudioName | other != name ensures Leaves(s.audio, t.audio, other) {
        CreateLeaves(s.audio, name, other);
      }
      CreateLeaves(s.audio, name, Speech);
      hide Leaves, Exclusive;
      SameSpeech(c, s, t);
      AgreesSame(c, faithful, s, t, job);
      LeavesSelf(s.journal);
      OwnStep(c, faithful, s, t, p);
    }
  }

  lemma AudioWrites(c: Config, faithful: bool, s: System, p: nat, job: JobRecord, bytes: Bytes, name: AudioName,
                    inode: nat)
    requires Consistent(c, faithful, s)
             && PointFits(c, faithful, s, p, AudioWriting(job, bytes, name, inode), At(s, p).temp)
    ensures inode < |s.audio.inodes|
    ensures var t := Move(s.(audio := s.audio.Write(inode, bytes)), p, AudioLinking(job, bytes, name));
      Consistent(c, faithful, t) && Settled(c, s, t)
  {
    hide Consistent, Agrees, Visible, Audible, Settled, PurposeFits, DisksSound;
    SoundDisks(c, faithful, s);
    var t := Move(s.(audio := s.audio.Write(inode, bytes)), p, AudioLinking(job, bytes, name));
    forall other: AudioName | other != name ensures Leaves(s.audio, t.audio, other) {
      WriteLeaves(s.audio, name, inode, bytes, other);
    }
    WriteLeaves(s.audio, name, inode, bytes, Speech);
    hide Leaves, Holds;
    SameSpeech(c, s, t);
    AgreesSame(c, faithful, s, t, job);
    LeavesSelf(s.journal);
    OwnStep(c, faithful, s, t, p);
  }

  lemma AudioRemoves(c: Config, faithful: bool, s: System, p: nat, name: AudioName, at: Point)
    requires Consistent(c, faithful, s) && OwnSpeech(p, At(s, p).temp, name)
    requires at.Idle? || (at.AudioReading? && Agrees(c, faithful, s, at.job))
    ensures var t := Move(s.(audio := s.audio.Remove(name)), p, at); Consistent(c, faithful, t) && Settled(c, s, t)
  {
    hide Consistent, Agrees, Visible, Audible, Settled, PurposeFits, DisksSound;
    SoundDisks(c, faithful, s);
    var t := Move(s.(audio := s.audio.Remove(name)), p, at);
    forall other: AudioName | other != name ensures Leaves(s.audio, t.audio, other) {
      RemoveLeaves(s.audio, name, other);
    }
    RemoveLeaves(s.audio, name, Speech);
    hide Leaves;
    SameSpeech(c, s, t);
    if at.AudioReading? { AgreesSame(c, faithful, s, t, at.job); }
    LeavesSelf(s.journal);
    OwnStep(c, faithful, s, t, p);
  }

  lemma AudioLinks(c: Config, faithful: bool, s: System, p: nat, job: JobRecord, bytes: Bytes, name: AudioName)
    requires Consistent(c, faithful, s) && PointFits(c, faithful, s, p, AudioLinking(job, bytes, name), At(s, p).temp)
    ensures var r := s.audio.Link(name, Speech);
      var t := if r.Linked? then Move(s.(audio := r.disk), p, AudioRemoving(job, name))
          else Move(s, p, AudioRemoving(job, name));
      Consistent(c, faithful, t) && Settled(c, s, t)
  {
    if Speech in s.audio.names {
      hide Visible, Audible, Agrees;
      JustMoves(c, faithful, s, p, AudioRemoving(job, name));
    } else {
      FirstSpeech(c, faithful, s, p, job, bytes, name);
    }
  }

  /** The first link makes the speech audible, and settles it. */
  lemma FirstSpeech(c: Config, faithful: bool, s: System, p: nat, job: JobRecord, bytes: Bytes, name: AudioName)
    requires Consistent(c, faithful, s) && Speech !in s.audio.names
    requires PointFits(c, faithful, s, p, AudioLinking(job, bytes, name), At(s, p).temp)
    ensures var r := s.audio.Link(name, Speech);
      r.Linked? && var t := Move(s.(audio := r.disk), p, AudioRemoving(job, name));
      Consistent(c, faithful, t) && Settled(c, s, t)
  {
    var t := Move(s.(audio := s.audio.Link(name, Speech).disk), p, AudioRemoving(job, name));
    hide Visible, Audible, Consistent, DisksSound, LeavesOthers, Agrees, Settled, Holds;
    LinkedSpeech(c, faithful, s, p, job, bytes, name);
    VisibleStillAgrees(c, faithful, s, t, job);
    Assemble(c, faithful, s, t, p);
  }

  lemma LinkedSpeech(c: Config, faithful: bool, s: System, p: nat, job: JobRecord, bytes: Bytes, name: AudioName)
    requires Consistent(c, faithful, s) && Speech !in s.audio.names
    requires PointFits(c, faithful, s, p, AudioLinking(job, bytes, name), At(s, p).temp)
    ensures s.audio.Link(name, Speech).Linked?
    ensures var t := Move(s.(audio := s.audio.Link(name, Speech).disk), p, AudioRemoving(job, name));
      Settled(c, s, t) && LeavesOthers(s, t, p) && DisksSound(c, t)
  {
    hide Agrees, PastFits, LogFits, AllFit;
    var t := Move(s.(audio := s.audio.Link(name, Speech).disk), p, AudioRemoving(job, name));
    forall other: AudioName | other != name && other != Speech ensures Leaves(s.audio, t.audio, other) {
      LinkLeaves(s.audio, name, Speech, other);
    }
    LinkLeaves(s.audio, name, Speech, StagedSpeech(p + 1, 0));
    assert Audible(s).None? && Audible(t) == Some(bytes) && Visible(c, t) == Visible(c, s);
  }

  lemma VisibleStillAgrees(c: Config, faithful: bool, s: System, t: System, job: JobRecord)
    requires Consistent(c, faithful, s) && Settled(c, s, t) && Agrees(c, faithful, s, job) && t.journal == s.journal
    ensures Agrees(c, faithful, t, job) && Visible(c, t).Some? && Agrees(c, faithful, t, Visible(c, t).value)
  {
    assert Visible(c, t) == Visible(c, s);
    VisibleAgrees(c, faithful, s);
    hide Visible, Audible, Settled;
    AgreesStays(c, faithful, s, t, job);
    AgreesStays(c, faithful, s, t, Visible(c, s).value);
  }

  // ----- effects -----

  /** A later effect keeps the item and is bound to its own write. */
  lemma EffectFits(c: Config, nmp: Nmp, job: JobRecord, w: World)
    requires job.phase.HasItem() && job.phase.item == FrozenItem(job, job.phase.item.audio)
             && job.request.requestId == c.id
    requires !job.phase.Published? && ReceiptFits(c, nmp.writes, job)
    requires forall write <- nmp.writes :: write.Membership? && write.requestId == c.id ==>
        write.createdAt == job.createdAt
    ensures var (after, phase) := EffectOf(c.setup, nmp, job, w);
      phase.Ok? ==> phase.value.HasItem() && phase.value.item == job.phase.item
                    && ReceiptFits(c, after.writes, job.(phase := phase.value))
  {
    hide EffectOf, AuthorizeOf, AuthorizedPhase, SpokenId, FrozenItem, Bound;
    var (after, phase) := EffectOf(c.setup, nmp, job, w);
    match job.phase
    case ArtifactsDurable(item) =>
      FrozenAuthor(job);
      AuthorizeEffect(c.setup, nmp, job, w);
      var (_, step) := AuthorizeOf(c.setup.host, nmp, c.id, item.author, job.createdAt, w.frames, w.token, w.refusal);
      AuthorizedPhaseShape(step, item);
      AuthorizeBinds(c.setup.host, nmp, c.id, item.author, job.createdAt, w);
    case AuthorizationAccepted(_, _) => ResumeEffect(c.setup, nmp, job, w);
    case AuthorAuthorized(_, _) => AcceptEffect(c.setup, nmp, job, w);
    case PublicationAccepted(_, _, _) => PublishEffect(c.setup, nmp, job, w);
  }

  lemma FrozenAuthor(job: JobRecord)
    requires job.phase.HasItem() && job.phase.item == FrozenItem(job, job.phase.item.audio)
    ensures job.phase.item.author == job.author
  {
  }

  lemma FreezeFreezes(setup: Setup, nmp: Nmp, job: JobRecord, w: World)
    requires job.phase.Synthesized?
    ensures var (after, phase) := EffectOf(setup, nmp, job, w);
      after == nmp
      && (phase.Ok? ==>
          phase.value.ArtifactsDurable? && w.uploaded.Ok? && phase.value.item == FrozenItem(job, w.uploaded.value))
  {
    hide ValidateSpokenItem, FrozenItem;
  }

  /** The state after an effect on the store, before the process moves. */
  function Stored(s: System, p: nat, nmp: Nmp): System {
    s.(writes := nmp.writes, processes := s.processes[p := At(s, p).(members := nmp.members)])
  }

  /** What an effect appends fits: the loaded job agrees with the record. */
  lemma StoreKeeps(c: Config, faithful: bool, s: System, p: nat, job: JobRecord, w: World)
    requires Consistent(c, faithful, s) && Agrees(c, faithful, s, job) && job.phase.HasItem()
    ensures var t := Stored(s, p, EffectOf(c.setup, Nmp(s.writes, At(s, p).members), job, w).0);
      Consistent(c, faithful, Move(t, p, Idle)) && Settled(c, s, Move(t, p, Idle))
          && LogFits(c, faithful, Move(t, p, Idle))
  {
    hide EffectOf, Visible, Audible, Consistent, DisksSound, LeavesOthers, LogFits, Agrees, Settled, TokenReceipt,
         ReceiptFits, FrozenItem, Bound;
    var nmp := Nmp(s.writes, At(s, p).members);
    var after := EffectOf(c.setup, nmp, job, w).0;
    var t := Move(Stored(s, p, after), p, Idle);
    EffectAppends(c.setup, nmp, job, w);
    AgreedJob(c, faithful, s, job);
    LogParts(c, faithful, s);
    assert s.writes <= after.writes;
    SameDisks(c, faithful, s, t, p);
    if after.writes == s.writes {
      LogStays(c, faithful, s, t);
    } else {
      var write := after.writes[|s.writes|];
      assert after.writes == s.writes + [write];
      NewWriteFits(c, faithful, s, t, job, write);
    }
    Assemble(c, faithful, s, t, p);
  }

  lemma LogParts(c: Config, faithful: bool, s: System)
    requires Consistent(c, faithful, s)
    ensures LogFits(c, faithful, s)
  {
  }

  /** What the loaded job shares with the record on disk. */
  lemma AgreedJob(c: Config, faithful: bool, s: System, job: JobRecord)
    requires Agrees(c, faithful, s, job)
    ensures job.request.requestId == c.id && Visible(c, s).Some? && SameIdentity(job, Visible(c, s).value)
    ensures job.phase.HasItem() ==>
        job.phase.item == FrozenItem(job, job.phase.item.audio) && job.phase.item.author == job.author
    ensures ReceiptFits(c, s.writes, job)
  {
    hide Visible, Audible, TheItem, ReceiptFits;
  }

  lemma NewWriteFits(c: Config, faithful: bool, s: System, t: System, job: JobRecord, write: Write)
    requires LogFits(c, faithful, s) && Settled(c, s, t) && Agrees(c, faithful, s, job) && job.phase.HasItem()
    requires t.writes == s.writes + [write]
    requires write == Spoken(c.id, job.phase.item)
             || (write == Membership(c.id, job.author, job.createdAt) && TokenReceipt(s.writes, c.id, job.author).None?)
    ensures LogFits(c, faithful, t)
  {
    hide Visible, Audible, Settled, TokenReceipt, OnePerToken;
    forall other | other in s.writes ensures WriteFits(c, faithful, t, other) { WriteStays(c, faithful, s, t, other); }
    TokenStays(s.writes, write);
    OwnWriteFits(c, faithful, s, job, write);
    WriteStays(c, faithful, s, t, write);
  }

  lemma OwnWriteFits(c: Config, faithful: bool, s: System, job: JobRecord, write: Write)
    requires Agrees(c, faithful, s, job) && job.phase.HasItem()
    requires write == Spoken(c.id, job.phase.item) || write == Membership(c.id, job.author, job.createdAt)
    ensures WriteFits(c, faithful, s, write)
  {
    hide Visible, Audible, ReceiptFits;
    if faithful { SameItem(c, job, Visible(c, s).value, Audible(s).value); }
  }

  lemma MembershipTimes(c: Config, faithful: bool, s: System, job: JobRecord)
    requires LogFits(c, faithful, s) && Agrees(c, faithful, s, job)
    ensures forall write <- s.writes :: write.Membership? && write.requestId == c.id ==>
        write.createdAt == job.createdAt
  {
    hide Visible, Audible, PhaseFits, OnePerToken;
    forall write | write in s.writes && write.Membership? && write.requestId == c.id
      ensures write.createdAt == job.createdAt
    {
      assert WriteFits(c, faithful, s, write);
    }
  }

  /** The next phase still agrees, and is what the process stages. */
  lemma NextAgrees(c: Config, faithful: bool, s: System, p: nat, job: JobRecord, w: World)
    requires Consistent(c, faithful, s) && Agrees(c, faithful, s, job) && job.phase.HasItem() && !job.phase.Published?
    ensures var (nmp, phase) := EffectOf(c.setup, Nmp(s.writes, At(s, p).members), job, w);
      phase.Ok? ==> Agrees(c, faithful, Move(Stored(s, p, nmp), p, Idle), job.(phase := phase.value))
  {
    hide EffectOf, Consistent, LogFits, Agrees, Visible, Audible, ReceiptFits, FrozenItem, Bound;
    var before := Nmp(s.writes, At(s, p).members);
    AgreedJob(c, faithful, s, job);
    LogParts(c, faithful, s);
    MembershipTimes(c, faithful, s, job);
    EffectFits(c, before, job, w);
    var (nmp, phase) := EffectOf(c.setup, before, job, w);
    if phase.Ok? {
      MovedSees(c, s, p, nmp);
      StillAgrees(c, faithful, s, Move(Stored(s, p, nmp), p, Idle), job, phase.value);
    }
  }

  lemma MovedSees(c: Config, s: System, p: nat, nmp: Nmp)
    ensures var t := Move(Stored(s, p, nmp), p, Idle);
      Visible(c, t) == Visible(c, s) && Audible(t) == Audible(s) && t.writes == nmp.writes
  {
  }

  /** Agreement carries over to a next phase with the same item whose receipt fits. */
  lemma StillAgrees(c: Config, faithful: bool, s: System, t: System, job: JobRecord, phase: JobPhase)
    requires Agrees(c, faithful, s, job) && job.phase.HasItem() && phase.HasItem() && phase.item == job.phase.item
    requires Visible(c, t) == Visible(c, s) && Audible(t) == Audible(s)
             && ReceiptFits(c, t.writes, job.(phase := phase))
    ensures Agrees(c, faithful, t, job.(phase := phase))
  {
    hide Visible, Audible, ReceiptFits, FrozenItem;
    SamePhaseItem(c, job, phase);
  }

  lemma SamePhaseItem(c: Config, job: JobRecord, phase: JobPhase)
    ensures forall bytes :: TheItem(c, job.(phase := phase), bytes) == TheItem(c, job, bytes)
    ensures forall audio :: FrozenItem(job.(phase := phase), audio) == FrozenItem(job, audio)
  {
  }

  lemma Effects(c: Config, faithful: bool, s: System, p: nat, job: JobRecord, choice: Choice)
    requires Consistent(c, faithful, s) && choice.Go? && (faithful ==> FaithfulUpload(c, choice))
    requires Agrees(c, faithful, s, job)
    ensures var t := EffectStep(s, c, p, job, choice); Consistent(c, faithful, t) && Settled(c, s, t)
  {
    if job.phase.Published? {
      JustMoves(c, faithful, s, p, Idle);
    } else if job.phase.Admitted? {
      hide Visible, Audible, Agrees;
      JustMoves(c, faithful, s, p, if FoundSpeech(s).Some? then AudioReading(job)
                else AudioCreating(job, choice.generated));
    } else if job.phase.Synthesized? {
      FreezeEffect(c, faithful, s, p, job, choice);
    } else {
      StoreEffect(c, faithful, s, p, job, choice);
    }
  }

  lemma StoreEffect(c: Config, faithful: bool, s: System, p: nat, job: JobRecord, choice: Choice)
    requires Consistent(c, faithful, s) && choice.Go? && Agrees(c, faithful, s, job)
    requires job.phase.HasItem() && !job.phase.Published?
    ensures var t := EffectStep(s, c, p, job, choice); Consistent(c, faithful, t) && Settled(c, s, t)
  {
    hide EffectOf, Consistent, Agrees, Settled, LogFits, Visible, Audible;
    StoreKeeps(c, faithful, s, p, job, choice.w);
    NextAgrees(c, faithful, s, p, job, choice.w);
    var (nmp, phase) := EffectOf(c.setup, Nmp(s.writes, At(s, p).members), job, choice.w);
    var t := Move(Stored(s, p, nmp), p, Idle);
    assert phase.Ok? || phase.Err?;
    if phase.Ok? {
      var at := Creating(Saving(job.(phase := phase.value)));
      JustMoves(c, faithful, t, p, at);
      assert Move(t, p, at) == EffectStep(s, c, p, job, choice);
      SettledTransitive(c, s, t, Move(t, p, at));
    }
  }

  lemma FreezeEffect(c: Config, faithful: bool, s: System, p: nat, job: JobRecord, choice: Choice)
    requires Consistent(c, faithful, s) && choice.Go? && (faithful ==> FaithfulUpload(c, choice))
    requires Agrees(c, faithful, s, job) && job.phase.Synthesized?
    ensures var t := EffectStep(s, c, p, job, choice); Consistent(c, faithful, t) && Settled(c, s, t)
  {
    hide EffectOf, Consistent, Settled, LogFits, Visible, Audible;
    var nmp, w := Nmp(s.writes, At(s, p).members), choice.w.(uploaded := choice.upload(job.phase.audio));
    FreezeFreezes(c.setup, nmp, job, w);
    var phase := EffectOf(c.setup, nmp, job, w).1;
    assert phase.Ok? || phase.Err?;
    assert Move(Stored(s, p, nmp), p, Idle) == Move(s, p, Idle);
    JustMoves(c, faithful, s, p, Idle);
    if phase.Ok? {
      var next := job.(phase := phase.value);
      FrozenAgrees(c, faithful, s, job, phase.value, choice);
      Freezes(c, faithful, s, p, next);
      assert Move(Stored(s, p, nmp), p, Creating(Saving(next))) == Move(s, p, Creating(Saving(next)));
    }
  }

  lemma FrozenAgrees(c: Config, faithful: bool, s: System, job: JobRecord, phase: JobPhase, choice: Choice)
    requires choice.Go? && (faithful ==> FaithfulUpload(c, choice)) && Agrees(c, faithful, s, job)
             && job.phase.Synthesized?
    requires phase.ArtifactsDurable? && choice.upload(job.phase.audio).Ok?
    requires phase.item == FrozenItem(job, choice.upload(job.phase.audio).value)
    ensures Agrees(c, faithful, s, job.(phase := phase))
  {
    hide Visible, Audible, FrozenItem;
    SamePhaseItem(c, job, phase);
    FrozenAudio(job, choice.upload(job.phase.audio).value);
  }

  lemma FrozenAudio(job: JobRecord, audio: DurableArtifact)
    ensures FrozenItem(job, audio).audio == audio
  {
  }

  lemma Freezes(c: Config, faithful: bool, s: System, p: nat, job: JobRecord)
    requires Consistent(c, faithful, s) && job.phase.HasItem() && Agrees(c, faithful, s, job)
    ensures var t := Move(s, p, Creating(Saving(job))).(frozen := s.frozen + [job.phase.item]);
      Consistent(c, faithful, t) && Settled(c, s, t)
  {
    var t := Move(s, p, Creating(Saving(job))).(frozen := s.frozen + [job.phase.item]);
    SameDisks(c, faithful, s, t, p);
    if faithful { SameItem(c, job, Visible(c, s).value, Audible(s).value); }
    AgreesStays(c, faithful, s, t, job);
    hide Visible, Audible, Consistent, DisksSound, LeavesOthers, SameIdentity, TheItem;
    Assemble(c, faithful, s, t, p);
  }

  lemma AudioReads(c: Config, faithful: bool, s: System, p: nat, job: JobRecord)
    requires Consistent(c, faithful, s) && Agrees(c, faithful, s, job)
    ensures var t := AudioReadStep(s, c, p, job); Consistent(c, faithful, t) && Settled(c, s, t)
  {
    JustMoves(c, faithful, s, p, Idle);
    if Audible(s).Some? {
      var next := job.(phase := Synthesized(ArtifactOf(c, Audible(s).value)));
      assert Agrees(c, faithful, s, next);
      JustMoves(c, faithful, s, p, Creating(Saving(next)));
      hide Consistent, Settled, Agrees, ValidLocalAudio;
    }
  }

  // ----- every step -----

  /** Loads, and what an admission or an advance makes of them. */
  lemma LoadKeeps(c: Config, faithful: bool, s: System, p: nat, choice: Choice)
    requires Consistent(c, faithful, s) && choice.Go?
    requires var at := At(s, p).at; at.AdmitLoading? || at.Reloading? || at.AdvanceLoading?
    requires PointFits(c, faithful, s, p, At(s, p).at, At(s, p).temp)
    ensures var t := GoStep(c, s, p, choice); Consistent(c, faithful, t) && Settled(c, s, t)
  {
    hide Found, FoundSpeech, Consistent, Settled, Visible, Audible, Agrees, Answer, PurposeFits, Move, At, Exclusive,
         Holds, Own, OwnSpeech, CreateStep, CommitStep, EffectStep, AudioCreateStep, AudioReadStep, Fresh;
    LoadIsWhole(c, faithful, s);
    JustMoves(c, faithful, s, p, Idle);
    if Visible(c, s).Some? {
      var found := Visible(c, s).value;
      VisibleAgrees(c, faithful, s);
      match At(s, p).at
      case AdmitLoading(adm) => Answers(c, faithful, s, p, found, c.setup.digest(adm.request), adm.author);
      case Reloading(job) => Answers(c, faithful, s, p, found, job.requestDigest, job.author);
      case AdvanceLoading => JustMoves(c, faithful, s, p, Loaded(found));
    } else if At(s, p).at.AdmitLoading? {
      var adm := At(s, p).at.adm;
      FreshFits(c, faithful, s, adm);
      JustMoves(c, faithful, s, p, Creating(Inserting(Fresh(c.setup, adm.request, adm.author, adm.createdAt))));
    }
  }

  lemma JournalKeeps(c: Config, faithful: bool, s: System, p: nat, choice: Choice)
    requires Consistent(c, faithful, s) && choice.Go?
    requires var at := At(s, p).at; at.Creating? || at.Writing? || at.Committing? || at.Removing?
    requires PointFits(c, faithful, s, p, At(s, p).at, At(s, p).temp)
    ensures var t := GoStep(c, s, p, choice); Consistent(c, faithful, t) && Settled(c, s, t)
  {
    hide Found, FoundSpeech, Consistent, Settled, Visible, Audible, Agrees, Answer, PurposeFits, Move, At, Exclusive,
         Holds, Own, OwnSpeech, CreateStep, CommitStep, EffectStep, AudioCreateStep, AudioReadStep, Fresh;
    match At(s, p).at
    case Creating(purpose) => Creates(c, faithful, s, p, purpose);
    case Writing(purpose, name, inode) => Writes(c, faithful, s, p, purpose, name, inode);
    case Committing(purpose, name) =>
      if purpose.Inserting? { CommitsInsert(c, faithful, s, p, purpose.job, name); }
      else { CommitsSave(c, faithful, s, p, purpose.job, name); }
    case Removing(job, name, outcome) => Removes(c, faithful, s, p, job, name, outcome);
  }

  lemma AudioKeeps(c: Config, faithful: bool, s: System, p: nat, choice: Choice)
    requires Consistent(c, faithful, s) && choice.Go?
    requires var at := At(s, p).at;
      at.AudioCreating? || at.AudioWriting? || at.AudioLinking? || at.AudioRemoving? || at.AudioReading?
    requires PointFits(c, faithful, s, p, At(s, p).at, At(s, p).temp)
    ensures var t := GoStep(c, s, p, choice); Consistent(c, faithful, t) && Settled(c, s, t)
  {
    hide Found, FoundSpeech, Consistent, Settled, Visible, Audible, Agrees, Answer, PurposeFits, Move, At, Exclusive,
         Holds, Own, OwnSpeech, CreateStep, CommitStep, EffectStep, AudioCreateStep, AudioReadStep, Fresh;
    JustMoves(c, faithful, s, p, Idle);
    match At(s, p).at
    case AudioCreating(job, bytes) => AudioCreates(c, faithful, s, p, job, bytes);
    case AudioWriting(job, bytes, staged, inode) => AudioWrites(c, faithful, s, p, job, bytes, staged, inode);
    case AudioLinking(job, bytes, staged) => AudioLinks(c, faithful, s, p, job, bytes, staged);
    case AudioRemoving(job, staged) => AudioRemoves(c, faithful, s, p, staged, AudioReading(job));
    case AudioReading(job) => AudioReads(c, faithful, s, p, job);
  }

  lemma GoKeeps(c: Config, faithful: bool, s: System, p: nat, choice: Choice)
    requires Consistent(c, faithful, s) && choice.Go? && (faithful ==> FaithfulUpload(c, choice))
    requires PointFits(c, faithful, s, p, At(s, p).at, At(s, p).temp)
    ensures var t := GoStep(c, s, p, choice); Consistent(c, faithful, t) && Settled(c, s, t)
  {
    hide *;
    match At(s, p).at
    case Idle => IdleStays(c, s, p, choice);
    case Loaded(job) => LoadedKeeps(c, faithful, s, p, choice);
    case AdmitLoading(_) => LoadKeeps(c, faithful, s, p, choice);
    case Reloading(_) => LoadKeeps(c, faithful, s, p, choice);
    case AdvanceLoading => LoadKeeps(c, faithful, s, p, choice);
    case Creating(_) => JournalKeeps(c, faithful, s, p, choice);
    case Writing(_, _, _) => JournalKeeps(c, faithful, s, p, choice);
    case Committing(_, _) => JournalKeeps(c, faithful, s, p, choice);
    case Removing(_, _, _) => JournalKeeps(c, faithful, s, p, choice);
    case AudioCreating(_, _) => AudioKeeps(c, faithful, s, p, choice);
    case AudioWriting(_, _, _, _) => AudioKeeps(c, faithful, s, p, choice);
    case AudioLinking(_, _, _) => AudioKeeps(c, faithful, s, p, choice);
    case AudioRemoving(_, _) => AudioKeeps(c, faithful, s, p, choice);
    case AudioReading(_) => AudioKeeps(c, faithful, s, p, choice);
  }

  lemma IdleStays(c: Config, s: System, p: nat, choice: Choice)
    requires choice.Go? && At(s, p).at.Idle?
    ensures GoStep(c, s, p, choice) == s && Settled(c, s, s)
  {
    SettledSelf(c, s);
    hide Settled;
  }

  lemma LoadedKeeps(c: Config, faithful: bool, s: System, p: nat, choice: Choice)
    requires Consistent(c, faithful, s) && choice.Go? && (faithful ==> FaithfulUpload(c, choice)) && At(s, p).at.Loaded?
    requires PointFits(c, faithful, s, p, At(s, p).at, At(s, p).temp)
    ensures var t := GoStep(c, s, p, choice); Consistent(c, faithful, t) && Settled(c, s, t)
  {
    hide Found, FoundSpeech, Consistent, Settled, Visible, Audible, Agrees, Answer, PurposeFits, Move, At, Exclusive,
         Holds, Own, OwnSpeech, CreateStep, CommitStep, EffectStep, AudioCreateStep, AudioReadStep, Fresh,
         FaithfulUpload;
    Effects(c, faithful, s, p, At(s, p).at.job, choice);
  }

  lemma SettledSelf(c: Config, s: System)
    ensures Settled(c, s, s)
  {
  }

  lemma LoadIsWhole(c: Config, faithful: bool, s: System)
    requires Consistent(c, faithful, s)
    ensures Found(s, c) == match Visible(c, s) case Some(job) => Some(Whole(job)) case None => None
  {
  }

  lemma FreshFits(c: Config, faithful: bool, s: System, adm: Admission)
    requires adm.request.requestId == c.id
    ensures PurposeFits(c, faithful, s, Inserting(Fresh(c.setup, adm.request, adm.author, adm.createdAt)))
  {
  }

  lemma VisibleAgrees(c: Config, faithful: bool, s: System)
    requires Consistent(c, faithful, s) && Visible(c, s).Some?
    ensures Agrees(c, faithful, s, Visible(c, s).value)
  {
  }

  lemma PointOf(c: Config, faithful: bool, s: System, p: nat)
    requires Consistent(c, faithful, s)
    ensures PointFits(c, faithful, s, p, At(s, p).at, At(s, p).temp)
  {
    hide Visible, Audible, Agrees, PurposeFits, Exclusive;
  }

  lemma FailKeeps(c: Config, faithful: bool, s: System, p: nat)
    requires Consistent(c, faithful, s) && PointFits(c, faithful, s, p, At(s, p).at, At(s, p).temp)
    ensures Consistent(c, faithful, FailStep(s, p)) && Settled(c, s, FailStep(s, p))
  {
    JustMoves(c, faithful, s, p, Idle);
    hide Consistent, Settled, Agrees, Exclusive, Visible, Audible;
    match At(s, p).at
    case AudioWriting(_, _, staged, _) => AudioRemoves(c, faithful, s, p, staged, Idle);
    case AudioLinking(_, _, staged) => AudioRemoves(c, faithful, s, p, staged, Idle);
    case _ =>
  }

  /** A write about something else. */
  lemma OtherKeeps(c: Config, faithful: bool, s: System, event: string)
    requires Consistent(c, faithful, s)
    ensures var t := s.(writes := s.writes + [Foreign(event)]); Consistent(c, faithful, t) && Settled(c, s, t)
  {
    var t := s.(writes := s.writes + [Foreign(event)]);
    assert forall p :: LeavesOthers(s, t, p);
    SameDisks(c, faithful, s, t, 0);
    TokenStays(s.writes, Foreign(event));
    hide Visible, Audible, Agrees, DisksSound, PointFits, Settled, WriteFits, OnePerToken;
    forall p | p in t.processes ensures PointFits(c, faithful, t, p, t.processes[p].at, t.processes[p].temp) {
      OthersStay(c, faithful, s, t, p + 1, p, t.processes[p].at, t.processes[p].temp);
    }
    forall job | job in t.admitted ensures Agrees(c, faithful, t, job) { AgreesStays(c, faithful, s, t, job); }
    forall item | item in t.frozen && faithful ensures IsTheItem(c, t, item) { ItemStays(c, s, t, item); }
    forall write | write in t.writes ensures WriteFits(c, faithful, t, write) {
      if write in s.writes { WriteStays(c, faithful, s, t, write); } else { ForeignFits(c, faithful, t, event); }
    }
  }

  lemma ForeignFits(c: Config, faithful: bool, s: System, event: string)
    ensures WriteFits(c, faithful, s, Foreign(event))
  {
  }

  lemma NextKeeps(c: Config, faithful: bool, s: System, p: nat, choice: Choice)
    requires Consistent(c, faithful, s) && (faithful ==> FaithfulUpload(c, choice))
    ensures Consistent(c, faithful, Next(c, s, p, choice)) && Settled(c, s, Next(c, s, p, choice))
  {
    hide Consistent, Settled, Agrees, GoStep, FailStep, Move, At, Visible, Audible, PurposeFits, Own, OwnSpeech,
         Exclusive, Holds, FaithfulUpload, ValidRequestId;
    PointOf(c, faithful, s, p);
    SettledSelf(c, s);
    match choice
    case Crash => Idles(c, faithful, s, p, NEW_PROCESS);
    case Fail => FailKeeps(c, faithful, s, p);
    case Admit(adm) => if adm.request.requestId == c.id { JustMoves(c, faithful, s, p, AdmitLoading(adm)); }
    case Advance => JustMoves(c, faithful, s, p, AdvanceLoading);
    case Go(_, _, _) => GoKeeps(c, faithful, s, p, choice);
    case OtherWrite(event) => OtherKeeps(c, faithful, s, event);
  }

  lemma SettledTransitive(c: Config, a: System, b: System, d: System)
    requires Settled(c, a, b) && Settled(c, b, d)
    ensures Settled(c, a, d)
  {
    hide Visible, Audible;
  }

  lemma {:induction false} ExecuteKeeps(c: Config, faithful: bool, s: System, steps: Schedule)
    requires Consistent(c, faithful, s) && (faithful ==> forall step <- steps :: FaithfulUpload(c, step.1))
    ensures Consistent(c, faithful, Execute(c, s, steps)) && Settled(c, s, Execute(c, s, steps))
  {
    hide Consistent, Settled, Next, FaithfulUpload;
    if steps == [] {
      SettledSelf(c, s);
    } else {
      var last := steps[|steps| - 1];
      assert last in steps;
      ExecuteKeeps(c, faithful, s, steps[..|steps| - 1]);
      var middle := Execute(c, s, steps[..|steps| - 1]);
      NextKeeps(c, faithful, middle, last.0, last.1);
      SettledTransitive(c, s, middle, Execute(c, s, steps));
    }
  }

  lemma StartIsConsistent(c: Config, faithful: bool)
    ensures Consistent(c, faithful, START)
  {
  }

  // ----- the theorems -----

  /** Under every interleaving of any number of processes, with crashes and failures anywhere: a reader finds no record
      or a complete one, likewise for the audio; all successful admissions returned the record's own identity; and once
      there, the record's identity and the committed audio never change, whatever runs on. */
  lemma ReadersAgree(c: Config, steps: Schedule, more: Schedule)
    ensures var s, t := Execute(c, START, steps), Execute(c, Execute(c, START, steps), more);
      && (forall content :: Found(s, c) == Some(content) ==> content.Whole?)
      && (forall content :: FoundSpeech(s) == Some(content) ==> content.Whole?)
      && (forall a <- s.admitted, b <- s.admitted :: SameIdentity(a, b))
      && (forall a <- s.admitted :: Visible(c, s).Some? && SameIdentity(a, Visible(c, s).value))
      && Settled(c, s, t)
  {
    StartIsConsistent(c, false);
    ExecuteKeeps(c, false, START, steps);
    var s := Execute(c, START, steps);
    ExecuteKeeps(c, false, s, more);
    hide Execute;
    IdentitiesAgree(c, s);
    hide Settled, AllFit;
    AudioIsWhole(c, s);
  }

  lemma AudioIsWhole(c: Config, s: System)
    requires Consistent(c, false, s)
    ensures forall content :: FoundSpeech(s) == Some(content) ==> content.Whole?
    ensures forall content :: Found(s, c) == Some(content) ==> content.Whole?
  {
  }

  lemma IdentitiesAgree(c: Config, s: System)
    requires Consistent(c, false, s)
    ensures forall a <- s.admitted :: Visible(c, s).Some? && SameIdentity(a, Visible(c, s).value)
    ensures forall a <- s.admitted, b <- s.admitted :: SameIdentity(a, b)
  {
    hide Visible, Audible, AllFit, DisksSound;
    forall a | a in s.admitted ensures Visible(c, s).Some? && SameIdentity(a, Visible(c, s).value) {
      assert Agrees(c, false, s, a);
    }
  }

  /** When uploads depend only on content, every item any process ever freezes is the same one, fixed by the record's
      identity and the first complete audio. */
  lemma RunnersFreezeOneItem(c: Config, steps: Schedule)
    requires forall step <- steps :: FaithfulUpload(c, step.1)
    ensures var s := Execute(c, START, steps);
      forall a <- s.frozen, b <- s.frozen :: a == b
    ensures var s := Execute(c, START, steps);
      Visible(c, s).Some? && Visible(c, s).value.phase.HasItem() ==>
        Audible(s).Some? && Visible(c, s).value.phase.item == TheItem(c, Visible(c, s).value, Audible(s).value)
  {
    StartIsConsistent(c, true);
    ExecuteKeeps(c, true, START, steps);
    hide Execute, Visible, Audible, AllFit, DisksSound, TheItem;
  }

  /** Whatever uploads answer, the processes together ask for membership at most once, every item any of them sends is
      the record's own but for its audio, and a published record names the event of its own write. */
  lemma RunnersAuthorizeOnce(c: Config, steps: Schedule)
    ensures var s := Execute(c, START, steps);
      && (forall i, j :: 0 <= i < j < |s.writes| && s.writes[i].Membership? ==> !s.writes[j].Membership?)
      && (forall write <- s.writes :: write.Spoken? ==>
            Visible(c, s).Some? && write == Spoken(c.id, FrozenItem(Visible(c, s).value, write.item.audio)))
      && (Visible(c, s).Some? && Visible(c, s).value.phase.Published? ==>
            var phase := Visible(c, s).value.phase;
            Bound(s.writes, phase.receiptId, Spoken(c.id, phase.item))
                && phase.eventId == SpokenId(c.setup.host, phase.item))
  {
    StartIsConsistent(c, false);
    ExecuteKeeps(c, false, START, steps);
    LogIsOwn(c, false, Execute(c, START, steps));
  }

  /** When uploads depend only on content, every spoken write of every process, and the published record, is the one
      item with the one event id. */
  lemma RunnersSendOneItem(c: Config, steps: Schedule)
    requires forall step <- steps :: FaithfulUpload(c, step.1)
    ensures var s := Execute(c, START, steps);
      && (forall a <- s.writes, b <- s.writes :: a.Spoken? && b.Spoken? ==>
            a == b && EventIdOf(c.setup.host, a) == EventIdOf(c.setup.host, b))
      && (forall write <- s.writes, item <- s.frozen :: write.Spoken? ==> write.item == item)
      && (Visible(c, s).Some? && Visible(c, s).value.phase.Published? ==>
            forall write <- s.writes :: write.Spoken? ==>
                EventIdOf(c.setup.host, write) == Visible(c, s).value.phase.eventId)
  {
    StartIsConsistent(c, true);
    ExecuteKeeps(c, true, START, steps);
    SpokenAreTheItem(c, Execute(c, START, steps));
  }

  lemma LogIsOwn(c: Config, faithful: bool, s: System)
    requires Consistent(c, faithful, s)
    ensures forall i, j :: 0 <= i < j < |s.writes| && s.writes[i].Membership? ==> !s.writes[j].Membership?
    ensures forall write <- s.writes :: write.Spoken? ==>
      Visible(c, s).Some? && write == Spoken(c.id, FrozenItem(Visible(c, s).value, write.item.audio))
    ensures Visible(c, s).Some? && Visible(c, s).value.phase.Published? ==>
      var phase := Visible(c, s).value.phase;
      Bound(s.writes, phase.receiptId, Spoken(c.id, phase.item)) && phase.eventId == SpokenId(c.setup.host, phase.item)
  {
    hide Visible, Audible, AllFit, DisksSound, IsTheItem, FrozenItem, TheItem, SpokenId;
    forall i, j | 0 <= i < j < |s.writes| && s.writes[i].Membership? ensures !s.writes[j].Membership? {
      assert WriteFits(c, faithful, s, s.writes[i]) && WriteFits(c, faithful, s, s.writes[j]);
    }
  }

  lemma SpokenAreTheItem(c: Config, s: System)
    requires Consistent(c, true, s)
    ensures forall a <- s.writes, b <- s.writes :: a.Spoken? && b.Spoken? ==>
      a == b && EventIdOf(c.setup.host, a) == EventIdOf(c.setup.host, b)
    ensures forall write <- s.writes, item <- s.frozen :: write.Spoken? ==> write.item == item
    ensures Visible(c, s).Some? && Visible(c, s).value.phase.Published? ==>
      forall write <- s.writes :: write.Spoken? ==> EventIdOf(c.setup.host, write) == Visible(c, s).value.phase.eventId
  {
    hide Visible, Audible, AllFit, DisksSound, FrozenItem, TheItem, SpokenId;
    forall write | write in s.writes && write.Spoken? ensures write.requestId == c.id && IsTheItem(c, s, write.item) {
      assert WriteFits(c, true, s, write);
    }
    forall item | item in s.frozen ensures IsTheItem(c, s, item) {}
  }
}
