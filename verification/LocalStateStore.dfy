/** Local control slots: versioned records replaced by temporary file, sync, link or rename and
    directory sync, and removed by unlink and directory sync. Any system call may fail and the
    machine may crash between any two of them. */
module LocalStateStore {
  import opened Wrappers
  import opened Shared
  import opened LocalDisk
  import opened CasRegister

  /** While `doc` is being written over `was`, a crash leaves what a crash in `was` could have left
      or the complete new record, and never touches another slot. */
  ghost predicate Atomic(was: Disk, d: Disk, k: nat, doc: Option<Doc>) {
    && Sound(d)
    && (forall j :: Survivors(d, j) <= Survivors(was, j) + if j == k then {doc} else {})
    && (forall j :: Loaded(d, j) == Loaded(was, j) || (j == k && Loaded(d, k) == doc))
  }

  /** The slot holds exactly `doc` now and after every crash. */
  ghost predicate Durable(d: Disk, k: nat, doc: Option<Doc>) {
    Loaded(d, k) == doc && Survivors(d, k) == {doc}
  }

  /** Every crash, and every crash after that, leaves a durable slot as it is. */
  lemma DurableSurvivesCrashes(d: Disk, c: Disk, k: nat, doc: Option<Doc>)
    requires Sound(d) && Durable(d, k, doc) && CrashOf(d, c)
    ensures Sound(c) && Durable(c, k, doc)
  {
    CrashLeavesASurvivor(d, c, k);
  }

  lemma PreparingIsAtomic(was: Disk, d: Disk, c: Call, k: nat, doc: Option<Doc>)
    requires Atomic(was, d, k, doc) && Allowed(d, c) && Preparatory(d, c)
    ensures Atomic(was, Apply(d, c), k, doc)
  {
    forall j ensures Sound(Apply(d, c)) && Survivors(Apply(d, c), j) == Survivors(d, j)
                     && Loaded(Apply(d, c), j) == Loaded(d, j) {
      PreparingKeeps(d, c, j);
    }
  }

  lemma PublishingIsAtomic(was: Disk, d: Disk, c: Call, k: nat, doc: Doc)
    requires Atomic(was, d, k, Some(doc)) && Allowed(d, c)
    requires (c.Rename? || c.Link?) && c.from.Temporary? && c.to == Target(k)
    requires Published(d, d.dir[c.from]) && d.data[d.dir[c.from]] == Complete(doc)
    ensures Atomic(was, Apply(d, c), k, Some(doc)) && Loaded(Apply(d, c), k) == Some(doc)
  {
    var e := Apply(d, c);
    forall j ensures Sound(e) && Survivors(e, j) == Survivors(d, j) + (if j == k then {Some(doc)} else {})
                     && (j != k ==> Loaded(e, j) == Loaded(d, j)) && Loaded(e, k) == Some(doc) {
      PublishingAdds(d, c, k, j);
    }
  }

  lemma SyncingIsAtomic(was: Disk, d: Disk, c: Call, k: nat, doc: Option<Doc>)
    requires Atomic(was, d, k, doc) && Allowed(d, c) && (c.SyncDirectory? || c.SyncParent?)
    ensures Atomic(was, Apply(d, c), k, doc)
    ensures forall j :: Loaded(Apply(d, c), j) == Loaded(d, j)
    ensures c.SyncDirectory? && d.anchored ==> forall j :: Durable(Apply(d, c), j, Loaded(d, j))
    ensures c.SyncParent? && d.past == {d.dir} ==> forall j :: Durable(Apply(d, c), j, Loaded(d, j))
  {
    var e := Apply(d, c);
    forall j ensures Sound(e) && Survivors(e, j) <= Survivors(d, j) && Loaded(e, j) == Loaded(d, j) {
      if c.SyncDirectory? { SyncingSettles(d, j); } else { AnchoringKeeps(d, j); }
    }
    if c.SyncDirectory? && d.anchored {
      forall j ensures Durable(e, j, Loaded(d, j)) { SyncingSettles(d, j); }
    }
    if c.SyncParent? && d.past == {d.dir} {
      forall j ensures Durable(e, j, Loaded(d, j)) { AnchoringKeeps(d, j); }
    }
  }

  lemma MakingIsAtomic(was: Disk, k: nat, doc: Option<Doc>)
    requires Sound(was) && !was.present
    ensures Atomic(was, Apply(was, MakeDirectory), k, doc)
  {
    var e := Apply(was, MakeDirectory);
    forall j ensures Survivors(e, j) <= Survivors(was, j) {
      assert At(was, map[], j) in Survivors(was, j);
    }
  }

  // ------------------------------------------------- the slot as a register

  /** Per slot, the versions that authorized a replace or remove which returned Ok. */
  type Ledger = map<nat, set<Doc>>

  ghost function Retired(l: Ledger, k: nat): set<Doc> {
    if k in l then l[k] else {}
  }

  ghost function AsRegister(d: Disk, l: Ledger, k: nat): Register<Doc> {
    Register(Loaded(d, k), Retired(l, k))
  }

  ghost predicate Newer(v: Option<Doc>, retired: set<Doc>) {
    v.Some? ==> forall x :: x in retired && x.incarnation == v.value.incarnation ==> x.revision < v.value.revision
  }

  /** Whatever may still be read is newer than every retired version of its incarnation. */
  ghost predicate Fenced(d: Disk, l: Ledger) {
    forall k, v :: v in Survivors(d, k) ==> Newer(v, Retired(l, k))
  }

  /** An atomic change to something not older than the retired versions uses up no version. */
  lemma ShiftStep(was: Disk, d: Disk, l: Ledger, k: nat, doc: Option<Doc>)
    requires Fenced(was, l) && Atomic(was, d, k, doc) && Newer(doc, Retired(l, k))
    ensures Fenced(d, l) && forall j :: Shifts(AsRegister(was, l, j), AsRegister(d, l, j))
  {
    forall j, v | v in Survivors(d, j) ensures Newer(v, Retired(l, j)) {
      assert v in Survivors(was, j) || (j == k && v == doc);
    }
    forall j ensures Shifts(AsRegister(was, l, j), AsRegister(d, l, j)) {
      SurvivorsHoldLoaded(d, j);
      assert Newer(Loaded(d, j), Retired(l, j));
    }
  }

  ghost function Retire(l: Ledger, k: nat, expected: Doc): Ledger {
    l[k := Retired(l, k) + {expected}]
  }

  /** A durable successor of the visible version uses that version up. */
  lemma RetireStep(was: Disk, d: Disk, l: Ledger, k: nat, expected: Doc, doc: Option<Doc>)
    requires Sound(was) && Fenced(was, l) && Atomic(was, d, k, doc) && Newer(doc, Retired(l, k) + {expected})
    requires Loaded(was, k) == Some(expected) && Durable(d, k, doc)
    ensures Fenced(d, Retire(l, k, expected))
    ensures Retires(AsRegister(was, l, k), AsRegister(d, Retire(l, k, expected), k), expected)
    ensures forall j :: j != k ==> Shifts(AsRegister(was, l, j), AsRegister(d, Retire(l, k, expected), j))
  {
    ShiftStep(was, d, l, k, doc);
    var m := Retire(l, k, expected);
    forall j, v | v in Survivors(d, j) ensures Newer(v, Retired(m, j)) {
      if j != k { assert Retired(m, j) == Retired(l, j); }
    }
    forall j | j != k ensures Shifts(AsRegister(was, l, j), AsRegister(d, m, j)) {
      assert AsRegister(d, m, j) == AsRegister(d, l, j);
    }
  }

  lemma SuccessorIsNewer(d: Disk, l: Ledger, k: nat, expected: Doc, payload: string)
    requires Sound(d) && Fenced(d, l) && Loaded(d, k) == Some(expected)
    ensures Newer(Some(Successor(expected, payload)), Retired(l, k) + {expected})
  {
    SurvivorsHoldLoaded(d, k);
    assert Newer(Some(expected), Retired(l, k));
  }

  function Successor(expected: Doc, payload: string): Doc {
    expected.(revision := expected.revision + 1, payload := payload)
  }

  lemma CrashStep(d: Disk, c: Disk, l: Ledger)
    requires Sound(d) && Fenced(d, l) && CrashOf(d, c)
    ensures Sound(c) && Fenced(c, l)
    ensures forall j :: Shifts(AsRegister(d, l, j), AsRegister(c, l, j))
    ensures forall j :: Loaded(c, j) in Survivors(d, j) && Durable(c, j, Loaded(c, j))
  {
    CrashLeavesASurvivor(d, c, 0);
    forall j ensures Loaded(c, j) in Survivors(d, j) && Survivors(c, j) == {Loaded(c, j)} {
      CrashLeavesASurvivor(d, c, j);
    }
    forall j ensures Shifts(AsRegister(d, l, j), AsRegister(c, l, j)) {
      assert Newer(Loaded(c, j), Retired(l, j));
    }
  }

  lemma UnlinkIsAtomic(was: Disk, k: nat)
    requires Sound(was) && Target(k) in was.dir
    ensures Atomic(was, Apply(was, Unlink(Target(k))), k, None) && Loaded(Apply(was, Unlink(Target(k))), k) == None
  {
    var e := Apply(was, Unlink(Target(k)));
    forall j ensures Sound(e) && Survivors(e, j) == Survivors(was, j) + (if j == k then {None} else {})
                     && (j != k ==> Loaded(e, j) == Loaded(was, j)) && Loaded(e, k) == None {
      UnlinkingTarget(was, k, j);
    }
  }

  /** The system calls of one write: the directory and its parent, the temporary file, its name. */
  function WriteCalls(present: bool, replace: bool): nat {
    (if present then 2 else 3) + 3 + (if replace then 1 else 2) + 1
  }

  /** The system calls that settle a slot: its file, if any, and the directory and its parent. */
  function SettleCalls(d: Disk, k: nat): nat {
    (if Target(k) in d.dir then 1 else 0) + (if d.present then 2 else 0)
  }

  class Store {
    var disk: Disk
    /** Every disk state passed through, oldest first. */
    ghost var trace: seq<Disk>
    ghost var ledger: Ledger

    ghost predicate Valid()
      reads this
    {
      Sound(disk) && Fenced(disk, ledger)
    }

    constructor ()
      ensures Valid() && trace == [] && !disk.present && ledger == map[]
      ensures forall k :: Durable(disk, k, None)
    {
      disk := Disk(false, true, map[], {map[]}, map[], {});
      trace := [];
      ledger := map[];
    }

    /** One system call. It fails without effect when `budget` is used up or the call is refused. */
    method Try(c: Call, budget: nat) returns (ok: bool, rest: nat)
      modifies this`disk, this`trace
      ensures ok <==> budget > 0 && Allowed(old(disk), c)
      ensures rest == if budget > 0 then budget - 1 else 0
      ensures ok ==> disk == Apply(old(disk), c) && trace == old(trace) + [disk]
      ensures !ok ==> disk == old(disk) && trace == old(trace)
    {
      ok := budget > 0 && Allowed(disk, c);
      rest := if budget > 0 then budget - 1 else 0;
      if ok {
        disk := Apply(disk, c);
        trace := trace + [disk];
      }
    }

    /** All states passed since `n` are atomic steps from `was`. */
    ghost predicate AtomicSince(n: nat, was: Disk, k: nat, doc: Option<Doc>)
      reads this
    {
      && n <= |trace| && Atomic(was, disk, k, doc)
      && forall i :: n <= i < |trace| ==> Atomic(was, trace[i], k, doc)
    }

    /** Create the control directory when it is missing, then sync it and its parent. */
    method PrepareDirectory(budget: nat, ghost k: nat, ghost doc: Option<Doc>) returns (ok: bool, rest: nat)
      requires Valid()
      modifies this`disk, this`trace
      ensures AtomicSince(|old(trace)|, old(disk), k, doc) && old(trace) <= trace
      ensures ok ==> disk.present && disk.anchored && forall j :: Durable(disk, j, Loaded(old(disk), j))
      ensures ok <==> budget >= if old(disk).present then 2 else 3
      ensures ok ==> rest == budget - if old(disk).present then 2 else 3
      ensures disk.dir == old(disk).dir && disk.data == old(disk).data
    {
      ghost var was := disk;
      ok, rest := true, budget;
      if !disk.present {
        ok, rest := Try(MakeDirectory, rest);
        if !ok { return; }
        MakingIsAtomic(was, k, doc);
      }
      label made:
      ok, rest := Try(SyncDirectory, rest);
      if !ok { return; }
      SyncingIsAtomic(was, old@made(disk), SyncDirectory, k, doc);
      label settled:
      ok, rest := Try(SyncParent, rest);
      if ok { SyncingIsAtomic(was, old@settled(disk), SyncParent, k, doc); }
    }

    /** Fill the temporary file and sync it. */
    method Fill(k: nat, doc: Doc, temp: nat, inode: Inode, budget: nat, ghost was: Disk, ghost n: nat)
      returns (ok: bool, rest: nat)
      requires AtomicSince(n, was, k, Some(doc)) && Private(disk, inode)
      modifies this`disk, this`trace
      ensures AtomicSince(n, was, k, Some(doc)) && old(trace) <= trace
      ensures disk.present == old(disk).present && disk.anchored == old(disk).anchored && disk.dir == old(disk).dir
      ensures disk.past == old(disk).past && disk.data.Keys == old(disk).data.Keys
      ensures ok ==> Published(disk, inode) && disk.data[inode] == Complete(doc)
      ensures ok <==> budget >= 2
      ensures ok ==> rest == budget - 2
    {
      ok, rest := Try(WriteAll(inode, doc), budget);
      if !ok { return; }
      PreparingIsAtomic(was, old(disk), WriteAll(inode, doc), k, Some(doc));
      label written:
      ok, rest := Try(SyncFile(inode), rest);
      if ok { PreparingIsAtomic(was, old@written(disk), SyncFile(inode), k, Some(doc)); }
    }

    /** Give the filled file the slot's name, by rename or by link and unlink. */
    method GiveName(k: nat, doc: Doc, replace: bool, temp: nat, budget: nat, ghost was: Disk, ghost n: nat)
      returns (ok: bool, rest: nat)
      requires AtomicSince(n, was, k, Some(doc)) && Temporary(temp) in disk.dir
      requires Published(disk, disk.dir[Temporary(temp)]) && disk.data[disk.dir[Temporary(temp)]] == Complete(doc)
      modifies this`disk, this`trace
      ensures AtomicSince(n, was, k, Some(doc)) && old(trace) <= trace
      ensures disk.present == old(disk).present && disk.anchored == old(disk).anchored
      ensures ok ==> Temporary(temp) !in disk.dir && Loaded(disk, k) == Some(doc)
      ensures replace ==> disk == if ok then Apply(old(disk), Rename(Temporary(temp), Target(k))) else old(disk)
      ensures ok <==> if replace then budget >= 1 else budget >= 2 && Target(k) !in old(disk).dir
      ensures ok ==> rest == budget - if replace then 1 else 2
    {
      var publish := if replace then Rename(Temporary(temp), Target(k)) else Link(Temporary(temp), Target(k));
      ok, rest := Try(publish, budget);
      if !ok { return; }
      PublishingIsAtomic(was, old(disk), publish, k, doc);
      label published:
      if !replace {
        ok, rest := Try(Unlink(Temporary(temp)), rest);
        if !ok { return; }
        PreparingIsAtomic(was, old@published(disk), Unlink(Temporary(temp)), k, Some(doc));
        PreparingKeeps(old@published(disk), Unlink(Temporary(temp)), k);
      }
    }

    method Publish(k: nat, doc: Doc, replace: bool, temp: nat, inode: Inode, budget: nat, ghost was: Disk, ghost n: nat)
      returns (ok: bool)
      requires AtomicSince(n, was, k, Some(doc)) && disk.present && disk.anchored
      requires Temporary(temp) in disk.dir && disk.dir[Temporary(temp)] == inode && Private(disk, inode)
      modifies this`disk, this`trace
      ensures AtomicSince(n, was, k, Some(doc)) && old(trace) <= trace
      ensures ok ==> Temporary(temp) !in disk.dir && Durable(disk, k, Some(doc))
      ensures ok <==> budget >= (if replace then 4 else 5) && (replace || Target(k) !in old(disk).dir)
    {
      var left;
      ok, left := Fill(k, doc, temp, inode, budget, was, n);
      if !ok { return; }
      ok, left := GiveName(k, doc, replace, temp, left, was, n);
      if !ok { return; }
      label named:
      ok, left := Try(SyncDirectory, left);
      if ok { SyncingIsAtomic(was, old@named(disk), SyncDirectory, k, Some(doc)); }
    }

    /** Write one record. The temporary name and its file are new. */
    method Write(k: nat, doc: Doc, replace: bool, temp: nat, inode: Inode, budget: nat, cleanup: bool)
      returns (ok: bool)
      requires Valid() && Temporary(temp) !in disk.dir && inode !in disk.data
      modifies this`disk, this`trace
      ensures AtomicSince(|old(trace)|, old(disk), k, Some(doc)) && old(trace) <= trace
      ensures ok ==> Durable(disk, k, Some(doc))
      // It fails only when a system call does, or when there is something it must not replace.
      ensures ok <==> budget >= WriteCalls(old(disk).present, replace) && (replace || Target(k) !in old(disk).dir)
    {
      ghost var was, n := disk, |trace|;
      var left;
      ok, left := PrepareDirectory(budget, k, Some(doc));
      if !ok { return; }
      label ready:
      ok, left := Try(OpenNew(Temporary(temp), inode), left);
      if !ok { return; }
      PreparingIsAtomic(was, old@ready(disk), OpenNew(Temporary(temp), inode), k, Some(doc));
      ok := Publish(k, doc, replace, temp, inode, left, was, n);
      if Temporary(temp) in disk.dir {
        label leftover:
        var cleaned, _ := Try(Unlink(Temporary(temp)), if cleanup then 1 else 0);
        if cleaned { PreparingIsAtomic(was, old@leftover(disk), Unlink(Temporary(temp)), k, Some(doc)); }
      }
    }

    // --------------------------------------------- the slot interface

    method Load(k: nat) returns (found: Option<Doc>)
      ensures found == Loaded(disk, k)
    {
      found := Loaded(disk, k);
    }

    /** Create a record in a slot without one. Its incarnation is a fresh UUID. */
    method Create(k: nat, payload: string, incarnation: nat, temp: nat, inode: Inode, budget: nat, cleanup: bool)
      returns (version: Option<Doc>)
      requires Valid() && Temporary(temp) !in disk.dir && inode !in disk.data
      requires forall x :: x in Retired(ledger, k) ==> x.incarnation != incarnation
      modifies this`disk, this`trace
      ensures Valid() && old(trace) <= trace
      ensures AtomicSince(|old(trace)|, old(disk), k, Some(Doc(incarnation, 0, payload)))
      ensures version.Some? ==> version.value == Doc(incarnation, 0, payload) && Durable(disk, k, version)
      ensures version.Some? <==> Loaded(old(disk), k).None? && budget >= WriteCalls(old(disk).present, false)
      ensures forall j :: Shifts(old(AsRegister(disk, ledger, j)), AsRegister(disk, ledger, j))
    {
      var doc := Doc(incarnation, 0, payload);
      var ok := Write(k, doc, false, temp, inode, budget, cleanup);
      ShiftStep(old(disk), disk, ledger, k, Some(doc));
      version := if ok then Some(doc) else None;
    }

    /** Replace exactly the version `expected`. */
    method Replace(k: nat, expected: Doc, payload: string, temp: nat, inode: Inode, budget: nat, cleanup: bool)
      returns (version: Option<Doc>)
      requires Valid() && Temporary(temp) !in disk.dir && inode !in disk.data
      modifies this
      ensures Valid() && old(trace) <= trace
      ensures AtomicSince(|old(trace)|, old(disk), k, Some(Successor(expected, payload)))
      ensures version.Some? <==> && Loaded(old(disk), k) == Some(expected) && expected.revision < MAX_U64
                                 && budget >= WriteCalls(old(disk).present, true)
      ensures version.Some? ==> && version.value == Doc(expected.incarnation, expected.revision + 1, payload)
                                && Durable(disk, k, version)
                                && Retires(old(AsRegister(disk, ledger, k)), AsRegister(disk, ledger, k), expected)
      ensures Loaded(old(disk), k) != Some(expected) || expected.revision >= MAX_U64 ==>
                version.None? && disk == old(disk)
      ensures version.None? ==> Shifts(old(AsRegister(disk, ledger, k)), AsRegister(disk, ledger, k))
      ensures forall j :: j != k ==> Shifts(old(AsRegister(disk, ledger, j)), AsRegister(disk, ledger, j))
    {
      version := None;
      var current := Load(k);
      if current != Some(expected) || expected.revision >= MAX_U64 { return; }
      var doc := Successor(expected, payload);
      SuccessorIsNewer(disk, ledger, k, expected, payload);
      var ok := Write(k, doc, true, temp, inode, budget, cleanup);
      if ok {
        RetireStep(old(disk), disk, ledger, k, expected, Some(doc));
        ledger := Retire(ledger, k, expected);
        version := Some(doc);
      } else {
        ShiftStep(old(disk), disk, ledger, k, Some(doc));
      }
    }

    /** Remove exactly the version `expected`. */
    method Remove(k: nat, expected: Doc, budget: nat) returns (ok: bool)
      requires Valid()
      modifies this
      ensures Valid() && old(trace) <= trace
      ensures AtomicSince(|old(trace)|, old(disk), k, None)
      ensures ok <==> Loaded(old(disk), k) == Some(expected) && budget >= 2
      ensures ok ==> && Durable(disk, k, None)
                     && Retires(old(AsRegister(disk, ledger, k)), AsRegister(disk, ledger, k), expected)
      ensures Loaded(old(disk), k) != Some(expected) ==> !ok && disk == old(disk)
      ensures !ok ==> Shifts(old(AsRegister(disk, ledger, k)), AsRegister(disk, ledger, k))
      ensures forall j :: j != k ==> Shifts(old(AsRegister(disk, ledger, j)), AsRegister(disk, ledger, j))
    {
      var current := Load(k);
      if current != Some(expected) { return false; }
      ok := Unpublish(k, budget);
      if ok {
        RetireStep(old(disk), disk, ledger, k, expected, None);
        ledger := Retire(ledger, k, expected);
      } else {
        ShiftStep(old(disk), disk, ledger, k, None);
      }
    }

    method Unpublish(k: nat, budget: nat) returns (ok: bool)
      requires Valid() && Target(k) in disk.dir
      modifies this`disk, this`trace
      ensures AtomicSince(|old(trace)|, old(disk), k, None) && old(trace) <= trace
      ensures ok ==> Durable(disk, k, None)
      ensures ok <==> budget >= 2
    {
      ghost var was := disk;
      var left;
      ok, left := Try(Unlink(Target(k)), budget);
      if !ok { return; }
      UnlinkIsAtomic(was, k);
      label unlinked:
      ok, left := Try(SyncDirectory, left);
      if ok {
        SyncingIsAtomic(was, old@unlinked(disk), SyncDirectory, k, None);
        SyncingSettles(old@unlinked(disk), k);
      }
    }

    /** Make an observed record, or its absence, survive every later crash. */
    method Stabilize(k: nat, expected: Option<Doc>, budget: nat) returns (ok: bool)
      requires Valid()
      modifies this`disk, this`trace
      ensures Valid() && old(trace) <= trace
      ensures forall j :: Loaded(disk, j) == Loaded(old(disk), j)
      ensures AtomicSince(|old(trace)|, old(disk), k, Loaded(old(disk), k))
      ensures ok ==> Durable(disk, k, expected)
      ensures ok <==> Loaded(old(disk), k) == expected && budget >= SettleCalls(old(disk), k)
      ensures Loaded(old(disk), k) != expected ==> !ok && disk == old(disk)
    {
      var observed := Load(k);
      if observed != expected { return false; }
      ok := Settle(k, budget);
      SurvivorsHoldLoaded(old(disk), k);
      ShiftStep(old(disk), disk, ledger, k, observed);
    }

    /** Sync the observed file, the directory and its ancestors. */
    method Settle(k: nat, budget: nat) returns (ok: bool)
      requires Valid()
      modifies this`disk, this`trace
      ensures AtomicSince(|old(trace)|, old(disk), k, Loaded(old(disk), k)) && old(trace) <= trace
      ensures ok ==> Durable(disk, k, Loaded(old(disk), k))
      ensures ok <==> budget >= SettleCalls(old(disk), k)
    {
      ghost var was, observed := disk, Loaded(disk, k);
      var left := budget;
      if Target(k) in disk.dir {
        ok, left := Try(SyncFile(disk.dir[Target(k)]), left);
        if !ok { return; }
        PreparingIsAtomic(was, was, SyncFile(was.dir[Target(k)]), k, observed);
      }
      if !disk.present {
        assert Survivors(disk, k) <= {None};
        SurvivorsHoldLoaded(disk, k);
        return true;
      }
      label observing:
      ok, left := Try(SyncDirectory, left);
      if !ok { return; }
      SyncingIsAtomic(was, old@observing(disk), SyncDirectory, k, observed);
      label settled:
      ok, left := Try(SyncParent, left);
      if ok { SyncingIsAtomic(was, old@settled(disk), SyncParent, k, observed); }
    }

    /** The machine crashes and restarts. */
    method Crash(after: Disk)
      requires Valid() && CrashOf(disk, after)
      modifies this`disk
      ensures Valid() && disk == after
      ensures forall j :: Loaded(disk, j) in Survivors(old(disk), j) && Durable(disk, j, Loaded(disk, j))
      ensures forall j :: Shifts(old(AsRegister(disk, ledger, j)), AsRegister(disk, ledger, j))
    {
      CrashStep(disk, after, ledger);
      disk := after;
    }
  }
}
