/** A directory of names for inodes, and the file operations the daemon stages its writes with. */
module Files {
  import opened Contract

  /** What an inode holds: a write in progress, or every byte of a value. */
  datatype Content<T> = Partial | Whole(value: T)

  datatype LinkResult<N(==), T> = Linked(disk: Disk<N, T>) | Exists | Missing

  datatype Disk<N(==), T> = Disk(names: map<N, nat>, inodes: seq<Content<T>>) {
    ghost predicate Valid() {
      forall n <- names :: names[n] < |inodes|
    }

    /** `create_new`: refused when the name is taken. */
    function CreateNew(name: N): Option<Disk<N, T>> {
      if name in names then None else Some(Disk(names[name := |inodes|], inodes + [Partial]))
    }

    function Write(inode: nat, value: T): Disk<N, T>
      requires inode < |inodes|
    {
      this.(inodes := inodes[inode := Whole(value)])
    }

    function Link(from: N, to: N): LinkResult<N, T> {
      if from !in names then Missing
      else if to in names then Exists
      else Linked(this.(names := names[to := names[from]]))
    }

    function Rename(from: N, to: N): Option<Disk<N, T>> {
      if from !in names then None else Some(this.(names := (names - {from})[to := names[from]]))
    }

    function Remove(name: N): Disk<N, T> {
      this.(names := names - {name})
    }

    function Read(name: N): Option<Content<T>>
      requires Valid()
    {
      if name in names then Some(inodes[names[name]]) else None
    }
  }

  /** `name` is the only name of `inode`, so only its owner can still be writing there. */
  ghost predicate Exclusive<N(!new), T>(disk: Disk<N, T>, name: N, inode: nat) {
    && name in disk.names && disk.names[name] == inode
    && forall n <- disk.names :: disk.names[n] == inode ==> n == name
  }

  /** `name` reads back as the complete value. */
  ghost predicate Holds<N, T>(disk: Disk<N, T>, name: N, value: T) {
    name in disk.names && disk.names[name] < |disk.inodes| && disk.inodes[disk.names[name]] == Whole(value)
  }

  /** What any operation on other names leaves alone: every reader's view and every writer's exclusive inode. */
  ghost predicate Leaves<N(!new), T(!new)>(before: Disk<N, T>, after: Disk<N, T>, name: N) {
    && (name in after.names <==> name in before.names)
    && (forall inode :: Exclusive(before, name, inode) ==> Exclusive(after, name, inode))
    && (forall value :: Holds(before, name, value) <==> Holds(after, name, value))
  }

  lemma CreateLeaves<N(!new), T(!new)>(disk: Disk<N, T>, own: N, name: N)
    requires disk.Valid() && own !in disk.names && name != own
    ensures var after := disk.CreateNew(own).value;
      after.Valid() && Leaves(disk, after, name) && Exclusive(after, own, |disk.inodes|)
  {
  }

  lemma WriteLeaves<N(!new), T(!new)>(disk: Disk<N, T>, own: N, inode: nat, value: T, name: N)
    requires disk.Valid() && Exclusive(disk, own, inode) && name != own
    ensures var after := disk.Write(inode, value);
      after.Valid() && Leaves(disk, after, name) && Holds(after, own, value)
  {
  }

  lemma LinkLeaves<N(!new), T(!new)>(disk: Disk<N, T>, own: N, to: N, name: N)
    requires disk.Valid() && own in disk.names && to !in disk.names && name != own && name != to
    ensures var after := disk.Link(own, to).disk;
      after.Valid() && Leaves(disk, after, name) && forall value :: Holds(disk, own, value) ==> Holds(after, to, value)
  {
  }

  lemma RenameLeaves<N(!new), T(!new)>(disk: Disk<N, T>, own: N, to: N, name: N)
    requires disk.Valid() && own in disk.names && own != to && name != own && name != to
    ensures var after := disk.Rename(own, to).value;
      after.Valid() && Leaves(disk, after, name) && forall value :: Holds(disk, own, value) ==> Holds(after, to, value)
  {
  }

  lemma RemoveLeaves<N(!new), T(!new)>(disk: Disk<N, T>, own: N, name: N)
    requires disk.Valid() && name != own
    ensures disk.Remove(own).Valid() && Leaves(disk, disk.Remove(own), name)
  {
  }
}
