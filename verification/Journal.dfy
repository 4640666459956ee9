/**
 `FileJobJournal` (daemon/src/journal.rs): records staged under a private name, then linked or renamed
 into place. `budget` is the number of file operations that succeed before an I/O fault or a crash.
 */
module Journal {
  import opened Contract
  import opened Text
  import opened Files
  import opened Jobs

  datatype Name = Record(id: string) | Staged(id: string, process: nat, temp: nat)

  type Records = map<string, JobRecord>

  datatype InsertOutcome = Inserted | AlreadyExists

  /** What became of one journal write: nothing visible, visible but reported as failed, or kept. */
  datatype Fate = Lost | Unsynced | Kept

  /** Create, write, sync, link, sync the directory, remove; without the directory sync when the record exists. */
  function InsertFate(budget: nat, present: bool): Fate {
    if budget < 4 then Lost else if budget < (if present then 5 else 6) then Unsynced else Kept
  }

  /** Create, write, sync, rename, sync the directory. */
  function SaveFate(budget: nat): Fate {
    if budget < 4 then Lost else if budget < 5 then Unsynced else Kept
  }

  /** The first record linked under an id stays. */
  function Added(jobs: Records, job: JobRecord): Records {
    if job.request.requestId in jobs then jobs else jobs[job.request.requestId := job]
  }

  function InsertOf(jobs: Records, job: JobRecord, budget: nat): (Records, Result<InsertOutcome, JournalError>) {
    var id := job.request.requestId;
    var added := Added(jobs, job);
    if !ValidRequestId(id) then (jobs, Err(if budget < 3 then JournalError.Io else InvalidId(id)))
    else match InsertFate(budget, id in jobs)
    case Lost => (jobs, Err(JournalError.Io))
    case Unsynced => (added, Err(JournalError.Io))
    case Kept => (added, Ok(if id in jobs then AlreadyExists else Inserted))
  }

  function SaveOf(jobs: Records, job: JobRecord, budget: nat): (Records, Result<(), JournalError>) {
    var id := job.request.requestId;
    var saved := jobs[id := job];
    if !ValidRequestId(id) then (jobs, Err(if budget < 3 then JournalError.Io else InvalidId(id)))
    else match SaveFate(budget)
    case Lost => (jobs, Err(JournalError.Io))
    case Unsynced => (saved, Err(JournalError.Io))
    case Kept => (saved, Ok(()))
  }

  /** The file a name stands for. */
  function Path(name: Name): string {
    match name
    case Record(id) => id + ".json"
    case Staged(id, process, temp) => "." + id + "." + Decimal(process) + "." + Decimal(temp) + ".tmp"
  }

  function Dotted(id: string, process: nat, temp: nat): string {
    id + (['.'] + (Decimal(process) + (['.'] + (Decimal(temp) + (['.'] + "tmp")))))
  }

  lemma DottedIsInjective(id: string, process: nat, temp: nat, id2: string, process2: nat, temp2: nat)
    requires ValidRequestId(id) && ValidRequestId(id2) && Dotted(id, process, temp) == Dotted(id2, process2, temp2)
    ensures id == id2 && process == process2 && temp == temp2
  {
    NoDot(process);
    NoDot(process2);
    NoDot(temp);
    NoDot(temp2);
    hide Decimal;
    var tail, tail2 := Decimal(temp) + (['.'] + "tmp"), Decimal(temp2) + (['.'] + "tmp");
    SplitAtFirst('.', id, Decimal(process) + (['.'] + tail), id2, Decimal(process2) + (['.'] + tail2));
    SplitAtFirst('.', Decimal(process), tail, Decimal(process2), tail2);
    SplitAtFirst('.', Decimal(temp), "tmp", Decimal(temp2), "tmp");
    SameDecimal(process, process2);
    SameDecimal(temp, temp2);
  }

  lemma NoDot(n: nat)
    ensures '.' !in Decimal(n)
  {
    DecimalReads(n);
  }

  lemma SameDecimal(m: nat, n: nat)
    requires Decimal(m) == Decimal(n)
    ensures m == n
  {
    DecimalReads(m);
    DecimalReads(n);
  }

  lemma DotMeansStaged(name: Name)
    requires ValidRequestId(name.id)
    ensures Path(name) != "" && (Path(name)[0] == '.' <==> name.Staged?)
  {
  }

  /** Different names are different files: a staged record can never be taken for a committed one. */
  lemma PathsAreDistinct(a: Name, b: Name)
    requires ValidRequestId(a.id) && ValidRequestId(b.id)
    ensures Path(a) == Path(b) <==> a == b
  {
    hide Decimal;
    DotMeansStaged(a);
    DotMeansStaged(b);
    if Path(a) == Path(b) {
      if a.Record? {
        assert Path(a)[..|a.id|] == a.id && Path(b)[..|a.id|] == b.id;
      } else {
        StagedPath(a);
        StagedPath(b);
        hide Path;
        DottedIsInjective(a.id, a.process, a.temp, b.id, b.process, b.temp);
      }
    }
  }

  lemma StagedPath(name: Name)
    requires name.Staged?
    ensures Path(name) != "" && Path(name)[1..] == Dotted(name.id, name.process, name.temp)
  {
    hide Decimal;
  }

  /** Every record name reads back as a complete record of its own request. */
  ghost predicate Sound(disk: Disk<Name, JobRecord>) {
    && disk.Valid()
    && forall n <- disk.names :: n.Record? ==>
         ValidRequestId(n.id) && disk.inodes[disk.names[n]].Whole?
         && disk.inodes[disk.names[n]].value.request.requestId == n.id
  }

  /** The records a reader sees. */
  ghost function RecordsOn(disk: Disk<Name, JobRecord>): Records
    requires Sound(disk)
  {
    map n | n in disk.names && n.Record? :: n.id := disk.inodes[disk.names[n]].value
  }

  /** A staged, complete record that is not yet visible. */
  ghost predicate StagedOn(disk: Disk<Name, JobRecord>, name: Name, job: JobRecord) {
    && Sound(disk) && name.Staged? && name in disk.names && disk.inodes[disk.names[name]] == Whole(job)
  }

  // ----- file operations, as readers see them -----

  lemma CreateIsInvisible(disk: Disk<Name, JobRecord>, name: Name)
    requires Sound(disk) && name.Staged? && name !in disk.names
    ensures var after := disk.CreateNew(name).value;
      Sound(after) && RecordsOn(after) == RecordsOn(disk)
  {
    var after := disk.CreateNew(name).value;
    SameRecords(disk, after);
  }

  lemma WriteIsInvisible(disk: Disk<Name, JobRecord>, inode: nat, job: JobRecord)
    requires Sound(disk) && inode < |disk.inodes|
    requires forall n <- disk.names :: n.Record? ==> disk.names[n] != inode
    ensures var after := disk.Write(inode, job); Sound(after) && RecordsOn(after) == RecordsOn(disk)
  {
    SameRecords(disk, disk.Write(inode, job));
  }

  lemma RemoveIsInvisible(disk: Disk<Name, JobRecord>, name: Name)
    requires Sound(disk) && name.Staged?
    ensures var after := disk.Remove(name); Sound(after) && RecordsOn(after) == RecordsOn(disk)
  {
    SameRecords(disk, disk.Remove(name));
  }

  lemma SameRecords(disk: Disk<Name, JobRecord>, after: Disk<Name, JobRecord>)
    requires Sound(disk) && after.Valid()
    requires forall n: Name :: n.Record? ==> (n in disk.names <==> n in after.names)
    requires forall n <- disk.names :: n.Record? ==> after.inodes[after.names[n]] == disk.inodes[disk.names[n]]
    ensures Sound(after) && RecordsOn(after) == RecordsOn(disk)
  {
    hide ValidRequestId, RecordsOn;
    forall id ensures id in RecordsOn(after) <==> id in RecordsOn(disk) {
      RecordAt(disk, id);
      RecordAt(after, id);
    }
    forall id | id in RecordsOn(after) ensures RecordsOn(after)[id] == RecordsOn(disk)[id] {
      RecordAt(disk, id);
      RecordAt(after, id);
      assert Record(id) in disk.names;
    }
  }

  lemma LinkPublishes(disk: Disk<Name, JobRecord>, name: Name, job: JobRecord, id: string)
    requires StagedOn(disk, name, job) && job.request.requestId == id && ValidRequestId(id)
    ensures id in RecordsOn(disk) <==> Record(id) in disk.names
    ensures var r := disk.Link(name, Record(id));
      if id in RecordsOn(disk) then r == Exists
      else r.Linked? && Sound(r.disk) && RecordsOn(r.disk) == RecordsOn(disk)[id := job]
  {
    assert id in RecordsOn(disk) ==> Record(id) in disk.names;
    if Record(id) !in disk.names { NowRecorded(disk, disk.Link(name, Record(id)).disk, job, id); }
  }

  lemma RenamePublishes(disk: Disk<Name, JobRecord>, name: Name, job: JobRecord, id: string)
    requires StagedOn(disk, name, job) && job.request.requestId == id && ValidRequestId(id)
    ensures var r := disk.Rename(name, Record(id));
      r.Some? && Sound(r.value) && RecordsOn(r.value) == RecordsOn(disk)[id := job]
  {
    NowRecorded(disk, disk.Rename(name, Record(id)).value, job, id);
  }

  /** Every record but this id's is where it was. */
  ghost predicate SameBut(disk: Disk<Name, JobRecord>, after: Disk<Name, JobRecord>, id: string)
    requires disk.Valid() && after.Valid()
  {
    forall n: Name :: n.Record? && n.id != id ==>
      (n in disk.names <==> n in after.names)
      && (n in disk.names ==> after.inodes[after.names[n]] == disk.inodes[disk.names[n]])
  }

  lemma NowRecorded(disk: Disk<Name, JobRecord>, after: Disk<Name, JobRecord>, job: JobRecord, id: string)
    requires Sound(disk) && after.Valid() && ValidRequestId(id) && job.request.requestId == id
    requires Record(id) in after.names && after.inodes[after.names[Record(id)]] == Whole(job)
    requires SameBut(disk, after, id)
    ensures Sound(after) && RecordsOn(after) == RecordsOn(disk)[id := job]
  {
    NowSound(disk, after, job, id);
    hide *;
    var before, now := RecordsOn(disk), RecordsOn(after);
    forall other ensures other in now <==> other == id || other in before { RecordNow(disk, after, job, id, other); }
    forall other | other in now ensures now[other] == if other == id then job else before[other] {
      RecordNow(disk, after, job, id, other);
    }
    IsUpdate(before, now, id, job);
  }

  lemma IsUpdate<K, V>(before: map<K, V>, now: map<K, V>, key: K, value: V)
    requires forall other :: other in now <==> other == key || other in before
    requires forall other <- now :: now[other] == if other == key then value else before[other]
    ensures now == before[key := value]
  {
  }

  lemma RecordNow(disk: Disk<Name, JobRecord>, after: Disk<Name, JobRecord>, job: JobRecord, id: string, other: string)
    requires Sound(disk) && Sound(after) && SameBut(disk, after, id)
    requires Record(id) in after.names && after.inodes[after.names[Record(id)]] == Whole(job)
    ensures other in RecordsOn(after) <==> other == id || other in RecordsOn(disk)
    ensures other in RecordsOn(after) ==>
      RecordsOn(after)[other] == if other == id then job else RecordsOn(disk)[other]
  {
    hide Sound, RecordsOn;
    RecordAt(disk, other);
    RecordAt(after, other);
  }

  lemma NowSound(disk: Disk<Name, JobRecord>, after: Disk<Name, JobRecord>, job: JobRecord, id: string)
    requires Sound(disk) && after.Valid() && ValidRequestId(id) && job.request.requestId == id
    requires Record(id) in after.names && after.inodes[after.names[Record(id)]] == Whole(job)
    requires SameBut(disk, after, id)
    ensures Sound(after)
  {
    hide ValidRequestId;
  }

  /** One record, as readers see it. */
  lemma RecordAt(disk: Disk<Name, JobRecord>, id: string)
    requires Sound(disk)
    ensures id in RecordsOn(disk) <==> Record(id) in disk.names
    ensures Record(id) in disk.names ==>
      disk.names[Record(id)] < |disk.inodes| && disk.inodes[disk.names[Record(id)]] == Whole(RecordsOn(disk)[id])
  {
    hide ValidRequestId;
    if id in RecordsOn(disk) { assert Record(id) in disk.names; }
    if Record(id) in disk.names { assert id in RecordsOn(disk); }
  }

  /** No staged file carries this process id. */
  ghost predicate NewProcess(disk: Disk<Name, JobRecord>, process: nat) {
    forall n <- disk.names :: n.Staged? ==> n.process != process
  }

  class FileJobJournal {
    var disk: Disk<Name, JobRecord>
    var process: nat
    var temp: nat

    constructor (disk: Disk<Name, JobRecord>, process: nat)
      requires Sound(disk) && NewProcess(disk, process)
      ensures Valid() && disk == this.disk && Contents() == RecordsOn(disk)
    {
      this.disk, this.process, this.temp := disk, process, 1;
    }

    /** The names this process has yet to stage are free. */
    ghost predicate Valid()
      reads this
    {
      && Sound(disk)
      && forall n <- disk.names :: n.Staged? && n.process == process ==> n.temp < temp
    }

    ghost function Contents(): Records
      requires Valid()
      reads this
    {
      RecordsOn(disk)
    }

    /** A new process opens the same directory; staged files of older ones stay behind. */
    method Reopen(process: nat)
      requires Valid() && NewProcess(disk, process)
      modifies this
      ensures Valid() && Contents() == old(Contents())
    {
      this.process, temp := process, 1;
    }

    method Load(id: string, readable: bool) returns (r: Result<Option<JobRecord>, JournalError>)
      requires Valid()
      ensures r == if !ValidRequestId(id) then Err(InvalidId(id))
                   else if !readable then Err(JournalError.Io)
                   else Ok(if id in Contents() then Some(Contents()[id]) else None)
    {
      if !ValidRequestId(id) { return Err(InvalidId(id)); }
      if !readable { return Err(JournalError.Io); }
      assert id in Contents() <==> Record(id) in disk.names;
      match disk.Read(Record(id))
      case None => return Ok(None);
      case Some(Partial) => return Err(Corrupt(id));
      case Some(Whole(job)) => return Ok(Some(job));
    }

    /** `write_staged`: create, write, sync. */
    method WriteStaged(job: JobRecord, budget: nat) returns (r: Result<Name, JournalError>, left: nat)
      requires Valid()
      modifies this
      ensures Valid() && Contents() == old(Contents())
      ensures r.Ok? <==> budget >= 3
      ensures r.Ok? ==> StagedOn(disk, r.value, job) && left + 3 == budget && r.value.process == process
      ensures r.Err? ==> r.error == JournalError.Io
    {
      var name := Staged(job.request.requestId, process, temp);
      temp, left := temp + 1, 0;
      if budget == 0 || name in disk.names { return Err(JournalError.Io), left; }
      var inode := |disk.inodes|;
      CreateIsInvisible(disk, name);
      disk := disk.CreateNew(name).value;
      if budget == 1 { return Err(JournalError.Io), left; }
      WriteIsInvisible(disk, inode, job);
      disk := disk.Write(inode, job);
      if budget == 2 { return Err(JournalError.Io), left; }
      return Ok(name), budget - 3;
    }

    /** Another process on the same directory links its own record, if the id is still free. */
    method OtherInsert(job: JobRecord)
      requires Valid() && ValidRequestId(job.request.requestId)
      modifies this
      ensures Valid() && Contents() == Added(old(Contents()), job)
    {
      hide RecordsOn, ValidRequestId;
      var id := job.request.requestId;
      RecordAt(disk, id);
      if Record(id) !in disk.names {
        ghost var before := disk;
        disk := Disk(disk.names[Record(id) := |disk.inodes|], disk.inodes + [Whole(job)]);
        NowRecorded(before, disk, job, id);
      }
    }

    method Insert(job: JobRecord, budget: nat) returns (r: Result<InsertOutcome, JournalError>)
      requires Valid()
      modifies this
      ensures Valid() && (Contents(), r) == InsertOf(old(Contents()), job, budget)
    {
      hide Sound, RecordsOn, ValidRequestId;
      var staged, left := WriteStaged(job, budget);
      if staged.Err? { return Err(staged.error); }
      var name, id := staged.value, job.request.requestId;
      if !ValidRequestId(id) { return Err(InvalidId(id)); }
      LinkPublishes(disk, name, job, id);
      if left == 0 { return Err(JournalError.Io); }
      match disk.Link(name, Record(id)) {
        case Linked(after) =>
          disk, r := after, Ok(Inserted);
          if left == 1 { return Err(JournalError.Io); }
          left := left - 2;
        case Exists =>
          r, left := Ok(AlreadyExists), left - 1;
        case Missing =>
          assert false;
      }
      if left == 0 { return Err(JournalError.Io); }
      RemoveIsInvisible(disk, name);
      disk := disk.Remove(name);
      return r;
    }

    method Save(job: JobRecord, budget: nat) returns (r: Result<(), JournalError>)
      requires Valid()
      modifies this
      ensures Valid() && (Contents(), r) == SaveOf(old(Contents()), job, budget)
    {
      hide Sound, RecordsOn, ValidRequestId;
      var staged, left := WriteStaged(job, budget);
      if staged.Err? { return Err(staged.error); }
      if !ValidRequestId(job.request.requestId) { return Err(InvalidId(job.request.requestId)); }
      RenamePublishes(disk, staged.value, job, job.request.requestId);
      if left == 0 { return Err(JournalError.Io); }
      disk := disk.Rename(staged.value, Record(job.request.requestId)).value;
      if left == 1 { return Err(JournalError.Io); }
      return Ok(());
    }
  }
}
