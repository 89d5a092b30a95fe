/** The legacy cursor file: the same crash-atomic write, with one fixed temporary name. */
module CursorFile {
  import opened Wrappers
  import opened LocalDisk
  import opened LocalStateStore

  /** The temporary name never shares a file with a published one, now or after a crash. */
  ghost predicate Apart(d: Disk, t: nat) {
    && (Temporary(t) in d.dir ==> Private(d, d.dir[Temporary(t)]))
    && (forall s, j :: s in d.past && Temporary(t) in s && Target(j) in s ==> s[Temporary(t)] != s[Target(j)])
  }

  lemma CrashKeepsApart(d: Disk, c: Disk, t: nat)
    requires Sound(d) && Apart(d, t) && CrashOf(d, c)
    ensures Sound(c) && Apart(c, t)
  {
    CrashLeavesASurvivor(d, c, 0);
  }

  method Reserve(v: Store, k: nat, doc: Doc, t: nat, inode: Inode, budget: nat) returns (ok: bool, rest: nat)
    requires Sound(v.disk) && Apart(v.disk, t) && inode !in v.disk.data
    modifies v`disk, v`trace
    ensures v.AtomicSince(|old(v.trace)|, old(v.disk), k, Some(doc)) && old(v.trace) <= v.trace
    ensures Apart(v.disk, t)
    ensures ok ==> v.disk.anchored == (old(v.disk).present && old(v.disk).anchored)
    ensures ok ==> v.disk.present && Temporary(t) in v.disk.dir && Private(v.disk, v.disk.dir[Temporary(t)])
    ensures ok <==> budget >= if old(v.disk).present then 1 else 2
    ensures ok ==> rest == budget - if old(v.disk).present then 1 else 2
  {
    ghost var was := v.disk;
    ok, rest := true, budget;
    if !v.disk.present {
      ok, rest := v.Try(MakeDirectory, rest);
      if !ok { return; }
      MakingIsAtomic(was, k, Some(doc));
    }
    label made:
    ok, rest := v.Try(OpenTruncated(Temporary(t), inode), rest);
    if ok { PreparingIsAtomic(was, old@made(v.disk), OpenTruncated(Temporary(t), inode), k, Some(doc)); }
  }

  /** Fill the reserved file and rename it over the target; on failure try to remove it. */
  method FillAndRename(v: Store, k: nat, doc: Doc, t: nat, budget: nat, cleanup: bool, ghost was: Disk, ghost n: nat)
    returns (ok: bool, rest: nat)
    requires v.AtomicSince(n, was, k, Some(doc)) && Apart(v.disk, t) && v.disk.present
    requires Temporary(t) in v.disk.dir && Private(v.disk, v.disk.dir[Temporary(t)])
    modifies v`disk, v`trace
    ensures v.AtomicSince(n, was, k, Some(doc)) && old(v.trace) <= v.trace && Apart(v.disk, t)
    ensures ok ==> v.disk.present && v.disk.anchored == old(v.disk).anchored && Loaded(v.disk, k) == Some(doc)
    ensures ok <==> budget >= 3
    ensures ok ==> rest == budget - 3
  {
    ok, rest := v.Fill(k, doc, t, v.disk.dir[Temporary(t)], budget, was, n);
    if ok { ok, rest := v.GiveName(k, doc, true, t, rest, was, n); }
    if !ok && Temporary(t) in v.disk.dir {
      label leftover:
      var cleaned, _ := v.Try(Unlink(Temporary(t)), if cleanup then 1 else 0);
      if cleaned { PreparingIsAtomic(was, old@leftover(v.disk), Unlink(Temporary(t)), k, Some(doc)); }
    }
  }

  /** Save the cursor `doc` as target `k`. A save that returns Ok survives every later crash exactly
      when the cursor directory was there, and durably so, before the save: the save syncs the
      directory it may have created, but never the parent that names it. */
  method Save(v: Store, k: nat, doc: Doc, t: nat, inode: Inode, budget: nat, cleanup: bool) returns (ok: bool)
    requires Sound(v.disk) && Apart(v.disk, t) && inode !in v.disk.data
    modifies v`disk, v`trace
    ensures Sound(v.disk) && Apart(v.disk, t)
    ensures v.AtomicSince(|old(v.trace)|, old(v.disk), k, Some(doc)) && old(v.trace) <= v.trace
    ensures ok <==> budget >= if old(v.disk).present then 5 else 6
    ensures ok ==> Loaded(v.disk, k) == Some(doc)
    ensures ok ==> (Durable(v.disk, k, Some(doc)) <==> old(v.disk).present && old(v.disk).anchored)
  {
    ghost var was, n := v.disk, |v.trace|;
    var left;
    ok, left := Reserve(v, k, doc, t, inode, budget);
    if !ok { return; }
    ok, left := FillAndRename(v, k, doc, t, left, cleanup, was, n);
    if !ok { return; }
    label named:
    ok, left := v.Try(SyncDirectory, left);
    if ok {
      SyncingIsAtomic(was, old@named(v.disk), SyncDirectory, k, Some(doc));
      SyncingSettles(old@named(v.disk), k);
    }
  }

  /** The calls of a first save into a missing directory, all of them successful. */
  ghost function FirstSave(doc: Doc): Disk {
    var d1 := Apply(Disk(false, true, map[], {map[]}, map[], {}), MakeDirectory);
    var d2 := Apply(d1, OpenTruncated(Temporary(0), 1));
    var d3 := Apply(Apply(d2, WriteAll(1, doc)), SyncFile(1));
    Apply(Apply(d3, Rename(Temporary(0), Target(0))), SyncDirectory)
  }

  /** After it the cursor is visible, and yet a crash can lose it with its whole directory. */
  lemma FirstSaveCanVanish(doc: Doc)
    ensures Loaded(FirstSave(doc), 0) == Some(doc)
    ensures exists c :: CrashOf(FirstSave(doc), c) && Loaded(c, 0) == None
  {
    var d := FirstSave(doc);
    var c := Disk(false, true, map[], {map[]}, d.data, d.data.Keys);
    assert CrashOf(d, c) && Loaded(c, 0) == None;
  }
}
