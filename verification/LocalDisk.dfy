/** One directory on a file system that may crash between any two system calls.
    Directory changes reach the disk in order but late: a crash restores the directory as it
    was at some point since its last sync. File contents that were not synced may come back as
    anything. A directory whose own entry was never synced may be gone altogether. */
module LocalDisk {
  import opened Wrappers

  type Inode = nat
  datatype Name = Target(key: nat) | Temporary(id: nat)

  /** A record; its version is an injective digest of all of it, so the record stands for both. */
  datatype Doc = Doc(incarnation: nat, revision: nat, payload: string)
  datatype Data = Partial | Complete(doc: Doc)
  type Directory = map<Name, Inode>

  /** `past` holds the directory states that a crash may restore. */
  datatype Disk = Disk(present: bool, anchored: bool, dir: Directory, past: set<Directory>,
                       data: map<Inode, Data>, synced: set<Inode>)

  datatype Call =
    | MakeDirectory
    | SyncDirectory
    | SyncParent
    | OpenNew(name: Name, inode: Inode)
    | OpenTruncated(name: Name, inode: Inode)
    | WriteAll(inode: Inode, doc: Doc)
    | SyncFile(inode: Inode)
    | Rename(from: Name, to: Name)
    | Link(from: Name, to: Name)
    | Unlink(name: Name)

  function Relist(d: Disk, dir: Directory): Disk {
    d.(dir := dir, past := d.past + {dir})
  }

  predicate Allowed(d: Disk, c: Call) {
    match c
    case MakeDirectory => !d.present
    case SyncDirectory => d.present
    case SyncParent => d.present
    case OpenNew(name, inode) => d.present && name !in d.dir && inode !in d.data
    case OpenTruncated(name, inode) => d.present && (name !in d.dir ==> inode !in d.data)
    case WriteAll(inode, _) => inode in d.data
    case SyncFile(inode) => inode in d.data
    case Rename(from, _) => from in d.dir
    case Link(from, to) => from in d.dir && to !in d.dir
    case Unlink(name) => name in d.dir
  }

  function Apply(d: Disk, c: Call): Disk
    requires Allowed(d, c)
  {
    match c
    case MakeDirectory => d.(present := true, anchored := false)
    case SyncDirectory => d.(past := {d.dir})
    case SyncParent => d.(anchored := true)
    case OpenNew(name, inode) => Relist(d, d.dir[name := inode]).(data := d.data[inode := Partial])
    case OpenTruncated(name, inode) =>
      if name in d.dir then d.(data := d.data[d.dir[name] := Partial], synced := d.synced - {d.dir[name]})
      else Relist(d, d.dir[name := inode]).(data := d.data[inode := Partial])
    case WriteAll(inode, doc) => d.(data := d.data[inode := Complete(doc)], synced := d.synced - {inode})
    case SyncFile(inode) => d.(synced := d.synced + {inode})
    case Rename(from, to) => Relist(d, (d.dir - {from})[to := d.dir[from]])
    case Link(from, to) => Relist(d, d.dir[to := d.dir[from]])
    case Unlink(name) => Relist(d, d.dir - {name})
  }

  // ------------------------------------------------- what can be read

  function At(d: Disk, dir: Directory, k: nat): Option<Doc> {
    if Target(k) in dir && dir[Target(k)] in d.data && d.data[dir[Target(k)]].Complete?
    then Some(d.data[dir[Target(k)]].doc) else None
  }

  /** The record a reader finds now, if any. */
  function Loaded(d: Disk, k: nat): Option<Doc> {
    At(d, d.dir, k)
  }

  /** Every result a reader may find after a crash in this state. */
  ghost function Survivors(d: Disk, k: nat): set<Option<Doc>> {
    (set s | s in d.past :: At(d, s, k)) + if d.anchored then {} else {None}
  }

  /** Every directory a crash can restore names only complete, synced records. */
  ghost predicate Sound(d: Disk) {
    && d.dir in d.past
    && (!d.present ==> d.dir == map[] && d.past == {map[]})
    && d.synced <= d.data.Keys
    && (forall s, n :: s in d.past && n in s ==> s[n] in d.data)
    && (forall s, k :: s in d.past && Target(k) in s ==> Published(d, s[Target(k)]))
  }

  ghost predicate Published(d: Disk, i: Inode) {
    i in d.synced && i in d.data && d.data[i].Complete?
  }

  /** `c` is what a crash in `d` may leave behind. */
  predicate CrashOf(d: Disk, c: Disk) {
    && (if c.present then d.present && c.anchored && c.dir in d.past
        else c.dir == map[] && (!d.anchored || !d.present))
    && c.past == {c.dir}
    && c.data.Keys == d.data.Keys
    && (forall i :: i in d.synced && i in d.data ==> c.data[i] == d.data[i])
    && c.synced == c.data.Keys
  }

  /** After a crash the disk is sound, its record is one of the survivors, and it stays. */
  lemma CrashLeavesASurvivor(d: Disk, c: Disk, k: nat)
    requires Sound(d) && CrashOf(d, c)
    ensures Sound(c) && Loaded(c, k) in Survivors(d, k)
    ensures Survivors(c, k) == {Loaded(c, k)}
  {
    if c.present {
      assert Loaded(c, k) == At(d, c.dir, k);
    } else if !d.present {
      assert At(d, map[], k) in Survivors(d, k);
    }
    assert Survivors(c, k) == {Loaded(c, k)};
  }

  /** Without a directory sync a crash may undo the new name of a record, and without a file sync it may
      lose what was written: the syncs of a write are needed. */
  lemma SyncsAreNeeded(d: Disk, t: nat, k: nat, i: Inode, doc: Doc)
    requires Sound(d) && d.present
    ensures Temporary(t) in d.dir ==>
              exists c :: CrashOf(Apply(d, Rename(Temporary(t), Target(k))), c) && Loaded(c, k) == Loaded(d, k)
    ensures i in d.data ==> exists c :: CrashOf(Apply(d, WriteAll(i, doc)), c) && c.data[i] == Partial
  {
    if Temporary(t) in d.dir {
      var c := Disk(true, true, d.dir, {d.dir}, d.data, d.data.Keys);
      assert CrashOf(Apply(d, Rename(Temporary(t), Target(k))), c) && Loaded(c, k) == Loaded(d, k);
    }
    if i in d.data {
      var e := Apply(d, WriteAll(i, doc));
      var c := Disk(true, true, e.dir, {e.dir}, e.data[i := Partial], e.data.Keys);
      assert CrashOf(e, c) && c.data[i] == Partial;
    }
  }

  // ------------------------------------------------- what a call changes

  /** No directory that a crash can restore publishes this file. */
  ghost predicate Private(d: Disk, i: Inode) {
    i in d.data && forall s, k :: s in d.past && Target(k) in s ==> s[Target(k)] != i
  }

  lemma SurvivorsRelist(d: Disk, e: Disk, dir: Directory, k: nat)
    requires e.past == d.past + {dir} && e.anchored == d.anchored
    requires forall s :: s in d.past ==> At(e, s, k) == At(d, s, k)
    ensures Survivors(e, k) == Survivors(d, k) + {At(e, dir, k)}
  {
  }

  lemma SurvivorsHoldLoaded(d: Disk, k: nat)
    requires Sound(d)
    ensures Loaded(d, k) in Survivors(d, k)
  {
  }

  /** A call that touches only temporary names and private files. */
  ghost predicate Preparatory(d: Disk, c: Call) {
    match c
    case OpenNew(name, _) => name.Temporary?
    case OpenTruncated(name, _) => name.Temporary? && (name in d.dir ==> Private(d, d.dir[name]))
    case WriteAll(i, _) => Private(d, i)
    case SyncFile(_) => true
    case Unlink(name) => name.Temporary?
    case _ => false
  }

  /** Preparing leaves every record and everything a crash may leave behind as it was. */
  lemma PreparingKeeps(d: Disk, c: Call, k: nat)
    requires Sound(d) && Allowed(d, c) && Preparatory(d, c)
    ensures Sound(Apply(d, c)) && Survivors(Apply(d, c), k) == Survivors(d, k)
    ensures Loaded(Apply(d, c), k) == Loaded(d, k)
  {
    var e := Apply(d, c);
    assert forall s :: s in d.past ==> At(e, s, k) == At(d, s, k);
    assert At(e, e.dir, k) == At(d, d.dir, k);
    SurvivorsRelist(d, e, e.dir, k);
    SurvivorsHoldLoaded(d, k);
  }

  /** Giving a published file a target name adds exactly its record. */
  lemma PublishingAdds(d: Disk, c: Call, k: nat, j: nat)
    requires Sound(d) && Allowed(d, c) && (c.Rename? || c.Link?) && c.from.Temporary? && c.to == Target(k)
    requires Published(d, d.dir[c.from])
    ensures var e, doc := Apply(d, c), d.data[d.dir[c.from]].doc;
            && Sound(e) && Loaded(e, k) == Some(doc)
            && Survivors(e, j) == Survivors(d, j) + (if j == k then {Some(doc)} else {})
            && (j != k ==> Loaded(e, j) == Loaded(d, j))
  {
    var e := Apply(d, c);
    SurvivorsRelist(d, e, e.dir, j);
    SurvivorsHoldLoaded(d, j);
  }

  /** Syncing the directory leaves only what is visible, or nothing at all while it is unanchored. */
  lemma SyncingSettles(d: Disk, k: nat)
    requires Sound(d) && d.present
    ensures var e := Apply(d, SyncDirectory);
            && Sound(e) && Loaded(e, k) == Loaded(d, k)
            && Survivors(e, k) == {Loaded(d, k)} + (if d.anchored then {} else {None})
            && Survivors(e, k) <= Survivors(d, k)
  {
    SurvivorsHoldLoaded(d, k);
  }

  lemma AnchoringKeeps(d: Disk, k: nat)
    requires Sound(d) && d.present
    ensures var e := Apply(d, SyncParent);
            && Sound(e) && Loaded(e, k) == Loaded(d, k)
            && Survivors(e, k) <= Survivors(d, k) && (d.past == {d.dir} ==> Survivors(e, k) == {Loaded(d, k)})
  {
  }

  lemma UnlinkingTarget(d: Disk, k: nat, j: nat)
    requires Sound(d) && Target(k) in d.dir
    ensures var e := Apply(d, Unlink(Target(k)));
            && Sound(e) && Loaded(e, k) == None
            && Survivors(e, j) == Survivors(d, j) + (if j == k then {None} else {})
            && (j != k ==> Loaded(e, j) == Loaded(d, j))
  {
    var e := Apply(d, Unlink(Target(k)));
    SurvivorsRelist(d, e, e.dir, j);
    SurvivorsHoldLoaded(d, j);
  }
}
