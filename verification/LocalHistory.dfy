/** Any client of the local control slots: any sequence of calls, each of which may fail at any
    system call, with crashes in between. */
module LocalHistory {
  import opened Wrappers
  import opened Shared
  import opened LocalDisk
  import opened LocalStateStore
  import opened CasRegister

  /** The temporary name, its new file, the number of system calls that succeed, and the cleanup. */
  datatype Io = Io(temp: nat, inode: Inode, budget: nat, cleanup: bool)

  datatype Op =
    | Create(key: nat, payload: string, incarnation: nat, io: Io)
    | Replace(key: nat, expected: Doc, payload: string, io: Io)
    | Remove(key: nat, expected: Doc, budget: nat)
    | Stabilize(key: nat, observed: Option<Doc>, budget: nat)
    | Crash(after: Disk)

  /** Every incarnation that is stored, retired or may come back was given out before. */
  ghost predicate Born(d: Disk, l: Ledger, used: set<nat>) {
    && (forall k, v :: v in Survivors(d, k) && v.Some? ==> v.value.incarnation in used)
    && (forall k, x :: x in Retired(l, k) ==> x.incarnation in used)
  }

  /** What one operation did to every slot: `ok` names the slot and the version it used up, if any. */
  ghost predicate Advances(d: Disk, l: Ledger, e: Disk, m: Ledger, ok: Option<(nat, Doc)>) {
    forall j :: if ok.Some? && j == ok.value.0 then Retires(AsRegister(d, l, j), AsRegister(e, m, j), ok.value.1)
                else Shifts(AsRegister(d, l, j), AsRegister(e, m, j))
  }

  lemma BornRetires(d: Disk, l: Ledger, e: Disk, m: Ledger, ok: Option<(nat, Doc)>, used: set<nat>)
    requires Born(d, l, used) && Sound(d) && Advances(d, l, e, m, ok)
    ensures forall j, x :: x in Retired(m, j) ==> x.incarnation in used
  {
    forall j, x | x in Retired(m, j) ensures x.incarnation in used {
      assert x in AsRegister(e, m, j).retired;
      if x !in AsRegister(d, l, j).retired { SurvivorsHoldLoaded(d, j); }
    }
  }

  lemma BornGrows(was: Disk, used: set<nat>, d: Disk, k: nat, doc: Option<Doc>)
    requires Atomic(was, d, k, doc) && (doc.Some? ==> doc.value.incarnation in used)
    requires forall j, v :: v in Survivors(was, j) && v.Some? ==> v.value.incarnation in used
    ensures forall j, v :: v in Survivors(d, j) && v.Some? ==> v.value.incarnation in used
  {
    forall j, v | v in Survivors(d, j) && v.Some? ensures v.value.incarnation in used {
      assert v in Survivors(was, j) || (j == k && v == doc);
    }
  }

  /** The system calls of one operation can use their names. */
  predicate Ready(d: Disk, io: Io) {
    Temporary(io.temp) !in d.dir && io.inode !in d.data
  }

  /** Which operations go through: the slot must allow it and every system call must succeed. */
  predicate Succeeds(d: Disk, op: Op) {
    match op
    case Create(k, _, _, io) => Ready(d, io) && Loaded(d, k).None? && io.budget >= WriteCalls(d.present, false)
    case Replace(k, was, _, io) =>
      Ready(d, io) && Loaded(d, k) == Some(was) && was.revision < MAX_U64 && io.budget >= WriteCalls(d.present, true)
    case Remove(k, was, budget) => Loaded(d, k) == Some(was) && budget >= 2
    case Stabilize(k, observed, budget) => Loaded(d, k) == observed && budget >= SettleCalls(d, k)
    case Crash(after) => CrashOf(d, after)
  }

  method PerformReplace(s: Store, op: Op, ghost used: set<nat>) returns (ok: Option<(nat, Doc)>)
    requires s.Valid() && Born(s.disk, s.ledger, used) && op.Replace? && Ready(s.disk, op.io)
    modifies s
    ensures ok == if Succeeds(old(s.disk), op) then Some((op.key, op.expected)) else None
    ensures ok.Some? ==> Loaded(s.disk, op.key) == Some(Doc(op.expected.incarnation, op.expected.revision + 1, op.payload))
    ensures s.Valid() && Born(s.disk, s.ledger, used)
    ensures Advances(old(s.disk), old(s.ledger), s.disk, s.ledger, ok)
  {
    ghost var was, l := s.disk, s.ledger;
    SurvivorsHoldLoaded(was, op.key);
    var version := s.Replace(op.key, op.expected, op.payload, op.io.temp, op.io.inode, op.io.budget, op.io.cleanup);
    ok := if version.Some? then Some((op.key, op.expected)) else None;
    BornRetires(was, l, s.disk, s.ledger, ok, used);
    if Loaded(was, op.key) == Some(op.expected) {
      BornGrows(was, used, s.disk, op.key, Some(Successor(op.expected, op.payload)));
    }
  }

  method PerformRemove(s: Store, op: Op, ghost used: set<nat>) returns (ok: Option<(nat, Doc)>)
    requires s.Valid() && Born(s.disk, s.ledger, used) && op.Remove?
    modifies s
    ensures ok == if Succeeds(old(s.disk), op) then Some((op.key, op.expected)) else None
    ensures ok.Some? ==> Loaded(s.disk, op.key) == None
    ensures s.Valid() && Born(s.disk, s.ledger, used)
    ensures Advances(old(s.disk), old(s.ledger), s.disk, s.ledger, ok)
  {
    ghost var was, l := s.disk, s.ledger;
    var removed := s.Remove(op.key, op.expected, op.budget);
    ok := if removed then Some((op.key, op.expected)) else None;
    BornRetires(was, l, s.disk, s.ledger, ok, used);
    BornGrows(was, used, s.disk, op.key, None);
  }

  /** One operation. A create is skipped unless its incarnation is new, as a version-4 UUID is. */
  method Perform(s: Store, op: Op, used: set<nat>) returns (ok: Option<(nat, Doc)>, used': set<nat>)
    requires s.Valid() && Born(s.disk, s.ledger, used)
    modifies s
    ensures s.Valid() && Born(s.disk, s.ledger, used')
    ensures Advances(old(s.disk), old(s.ledger), s.disk, s.ledger, ok)
    ensures ok.Some? <==> (op.Replace? || op.Remove?) && Succeeds(old(s.disk), op)
    ensures op.Create? && op.incarnation !in used && Succeeds(old(s.disk), op) ==>
              Durable(s.disk, op.key, Some(Doc(op.incarnation, 0, op.payload)))
    ensures op.Stabilize? && Succeeds(old(s.disk), op) ==> Durable(s.disk, op.key, op.observed)
    ensures op.Crash? ==> s.disk == if Succeeds(old(s.disk), op) then op.after else old(s.disk)
  {
    ok, used' := None, used;
    ghost var was := s.disk;
    match op
    case Create(k, payload, incarnation, io) =>
      if incarnation in used || !Ready(s.disk, io) { return; }
      used' := used + {incarnation};
      var _ := s.Create(k, payload, incarnation, io.temp, io.inode, io.budget, io.cleanup);
      BornGrows(was, used', s.disk, k, Some(Doc(incarnation, 0, payload)));
    case Replace(_, _, _, io) =>
      if Ready(s.disk, io) { ok := PerformReplace(s, op, used); }
    case Remove(_, _, _) =>
      ok := PerformRemove(s, op, used);
    case Stabilize(k, observed, budget) =>
      SurvivorsHoldLoaded(was, k);
      var _ := s.Stabilize(k, observed, budget);
      BornGrows(was, used, s.disk, k, Loaded(was, k));
    case Crash(after) =>
      if CrashOf(s.disk, after) {
        s.Crash(after);
        assert forall k :: Survivors(s.disk, k) == {Loaded(s.disk, k)};
      }
  }

  /** From an empty directory, perform any operations: slot `k` moves as one register, and no
      version of any slot is used up twice by a replace or remove that returned Ok. */
  method Play(ops: seq<Op>, ghost k: nat) returns (used: seq<(nat, Doc)>, ghost registers: seq<Register<Doc>>)
    ensures |registers| == |ops| + 1 && History(registers)
    ensures forall i, j :: 0 <= i < j < |used| ==> used[i] != used[j]
    ensures forall x :: x in registers[|ops|].retired <==> (k, x) in used
  {
    var s := new Store();
    var incarnations: set<nat> := {};
    used, registers := [], [AsRegister(s.disk, s.ledger, k)];
    assert Born(s.disk, s.ledger, {}) by { assert forall j :: Survivors(s.disk, j) == {None}; }
    for n := 0 to |ops|
      invariant s.Valid() && fresh(s) && Born(s.disk, s.ledger, incarnations)
      invariant |registers| == n + 1 && History(registers) && registers[n] == AsRegister(s.disk, s.ledger, k)
      invariant forall j: nat, x :: x in Retired(s.ledger, j) <==> (j, x) in used
      invariant forall i, j :: 0 <= i < j < |used| ==> used[i] != used[j]
    {
      ghost var was, l := s.disk, s.ledger;
      var ok;
      ok, incarnations := Perform(s, ops[n], incarnations);
      ghost var now := AsRegister(s.disk, s.ledger, k);
      StillRetired(was, l, s.disk, s.ledger, ok);
      assert Next(registers[n], now);
      registers := registers + [now];
      if ok.Some? { used := used + [ok.value]; }
    }
  }

  /** Nothing retired is forgotten, and what is retired now was not retired before. */
  lemma StillRetired(d: Disk, l: Ledger, e: Disk, m: Ledger, ok: Option<(nat, Doc)>)
    requires Sound(d) && Fenced(d, l) && Advances(d, l, e, m, ok)
    ensures forall j :: Retired(l, j) <= Retired(m, j) && Next(AsRegister(d, l, j), AsRegister(e, m, j))
    ensures ok.Some? ==> ok.value.1 !in Retired(l, ok.value.0)
    ensures forall j: nat, x :: x in Retired(m, j) <==> x in Retired(l, j) || ok == Some((j, x))
  {
    forall j ensures Retired(l, j) <= Retired(m, j) && Next(AsRegister(d, l, j), AsRegister(e, m, j)) {
      assert AsRegister(d, l, j).retired <= AsRegister(e, m, j).retired;
    }
    if ok.Some? {
      SurvivorsHoldLoaded(d, ok.value.0);
      assert Newer(Loaded(d, ok.value.0), Retired(l, ok.value.0));
    }
    forall j: nat, x ensures x in Retired(m, j) <==> x in Retired(l, j) || ok == Some((j, x)) {
      assert x in AsRegister(e, m, j).retired <==> x in AsRegister(d, l, j).retired || ok == Some((j, x));
    }
  }
}
