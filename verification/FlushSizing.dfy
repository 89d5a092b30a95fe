/** Transient compressed-size prediction. Ratios are reals: rounding is not modelled. */
module FlushSizing {
  import opened Wrappers
  import opened Shared

  // ------------------------------------------------- table sizes

  datatype Estimate = Estimate(largest: nat, total: nat)

  function Sum(s: seq<nat>): nat {
    if s == [] then 0 else Sum(s[..|s| - 1]) + s[|s| - 1]
  }

  function Min(a: nat, b: nat): nat {
    if a < b then a else b
  }

  ghost predicate IsMaximum(s: seq<nat>, m: nat) {
    && (forall i :: 0 <= i < |s| ==> s[i] <= m)
    && (s == [] ==> m == 0)
    && (s != [] ==> m in s)
  }

  /** The saturating fold over table sizes: the true maximum, and the exact sum up to the limit. */
  method FromTableSizes(sizes: seq<nat>) returns (e: Estimate)
    ensures e.total == Min(Sum(sizes), MAX_U64)
    ensures exists m :: IsMaximum(sizes, m) && e.largest == Min(m, MAX_U64)
  {
    e := Estimate(0, 0);
    ghost var m := 0;
    for i := 0 to |sizes|
      invariant e.total == Min(Sum(sizes[..i]), MAX_U64)
      invariant IsMaximum(sizes[..i], m) && e.largest == Min(m, MAX_U64)
    {
      assert sizes[..i + 1][..i] == sizes[..i];
      var size := Min(sizes[i], MAX_U64);
      m := if m < sizes[i] then sizes[i] else m;
      e := Estimate(if e.largest < size then size else e.largest, Min(e.total + size, MAX_U64));
    }
    assert sizes[..|sizes|] == sizes;
  }

  lemma {:induction false} SumWithout(s: seq<nat>, i: nat)
    requires i < |s|
    ensures Sum(s) == Sum(s[..i] + s[i + 1..]) + s[i]
  {
    if i == |s| - 1 {
      assert s[..i] + s[i + 1..] == s[..|s| - 1];
    } else {
      var t := s[..|s| - 1];
      SumWithout(t, i);
      var w := s[..i] + s[i + 1..];
      assert w[..|w| - 1] == t[..i] + t[i + 1..];
    }
  }

  lemma RemoveOne(s: seq<nat>, i: nat)
    requires i < |s|
    ensures multiset(s[..i] + s[i + 1..]) == multiset(s) - multiset{s[i]}
  {
    assert s == s[..i] + [s[i]] + s[i + 1..];
  }

  /** The estimate does not depend on the order of the tables. */
  lemma {:induction false} SumIgnoresOrder(a: seq<nat>, b: seq<nat>)
    requires multiset(a) == multiset(b)
    ensures Sum(a) == Sum(b)
    decreases |a|
  {
    if a == [] {
      assert |b| == |multiset(b)| == |multiset(a)|;
    } else {
      var n := |a| - 1;
      assert a[n] in multiset(b);
      var i :| 0 <= i < |b| && b[i] == a[n];
      RemoveOne(a, n);
      RemoveOne(b, i);
      assert a[..n] + a[n + 1..] == a[..n];
      SumIgnoresOrder(a[..n], b[..i] + b[i + 1..]);
      SumWithout(b, i);
    }
  }

  lemma MaximumIgnoresOrder(a: seq<nat>, b: seq<nat>, m: nat)
    requires multiset(a) == multiset(b) && IsMaximum(a, m)
    ensures IsMaximum(b, m)
  {
    assert |a| == |multiset(a)| == |multiset(b)| == |b|;
    forall i | 0 <= i < |b| ensures b[i] <= m { assert b[i] in multiset(a); }
    if a != [] { assert m in multiset(b); }
  }

  // ------------------------------------------------- the learned ratio

  const LOW: real := 1.0 / 1024.0
  const HIGH: real := 1024.0

  function Clamp(x: real): real {
    if x < LOW then LOW else if x > HIGH then HIGH else x
  }

  datatype Commit = Commit(mapperBytes: nat, fileBytes: nat)
  datatype Learned = Learned(ratio: real, observed: bool)

  function MinimumSample(target: nat): nat {
    var m := Min(target / 4, 1024 * 1024);
    if m < 1 then 1 else m
  }

  predicate Accepted(target: nat, c: Commit) {
    target > 0 && c.mapperBytes >= MinimumSample(target) && c.fileBytes > 0
  }

  function Sample(c: Commit): real
    requires c.mapperBytes > 0
  {
    Clamp(c.fileBytes as real / c.mapperBytes as real)
  }

  /** The sample is file bytes per mapper byte, where that lies within the limits, and else the limit. */
  lemma SampleIsTheRatio(c: Commit)
    requires c.mapperBytes > 0
    ensures c.mapperBytes <= 1024 * c.fileBytes && c.fileBytes <= 1024 * c.mapperBytes ==>
              Sample(c) * c.mapperBytes as real == c.fileBytes as real
    ensures c.mapperBytes > 1024 * c.fileBytes ==> Sample(c) * 1024.0 == 1.0
    ensures c.fileBytes > 1024 * c.mapperBytes ==> Sample(c) == 1024.0
  {
    var f, m := c.fileBytes as real, c.mapperBytes as real;
    var q := f / m;
    QuotientBounds(f, m, q);
  }

  lemma QuotientBounds(f: real, m: real, q: real)
    requires m > 0.0 && q == f / m
    ensures q * m == f
    ensures q < LOW <==> f * 1024.0 < m
    ensures q > HIGH <==> f > 1024.0 * m
  {
    assert q * m == f;
    assert q < LOW <==> q * m < LOW * m;
    assert q > HIGH <==> q * m > HIGH * m;
  }

  /** A commit teaches exactly when there is a target, it wrote a file, and its mapper bytes reach 1 MiB
      or a quarter of the target. */
  lemma AcceptedIff(target: nat, c: Commit)
    ensures Accepted(target, c) <==> && target > 0 && c.fileBytes > 0 && c.mapperBytes > 0
                                     && (c.mapperBytes >= 1_048_576 || 4 * c.mapperBytes + 3 >= target)
  {
  }

  function Learn(target: nat, l: Learned, c: Commit): Learned {
    if !Accepted(target, c) then l
    else Learned(if l.observed then l.ratio * 0.5 + Sample(c) * 0.5 else Sample(c), true)
  }

  function LearnAll(target: nat, commits: seq<Commit>): Learned {
    if commits == [] then Learned(1.0, false)
    else Learn(target, LearnAll(target, commits[..|commits| - 1]), commits[|commits| - 1])
  }

  /** The ratio stays within its limits and, once trained, within any range that holds every
      accepted sample; it is untrained exactly while nothing was accepted. */
  lemma {:induction false} RatioStaysInRange(target: nat, commits: seq<Commit>, low: real, high: real)
    requires forall i :: 0 <= i < |commits| && Accepted(target, commits[i]) ==> low <= Sample(commits[i]) <= high
    ensures var l := LearnAll(target, commits);
            && LOW <= l.ratio <= HIGH
            && (l.observed ==> low <= l.ratio <= high)
            && (l.observed <==> exists i :: 0 <= i < |commits| && Accepted(target, commits[i]))
            && (!l.observed ==> l.ratio == 1.0)
  {
    if commits != [] {
      var n := |commits| - 1;
      RatioStaysInRange(target, commits[..n], low, high);
      assert forall i :: 0 <= i < n ==> commits[..n][i] == commits[i];
      if Accepted(target, commits[n]) { assert low <= Sample(commits[n]) <= high; }
    }
  }

  function Pow2(n: nat): real {
    if n == 0 then 1.0 else 2.0 * Pow2(n - 1)
  }

  lemma OneMoreCommit(target: nat, commits: seq<Commit>, c: Commit)
    ensures LearnAll(target, commits + [c]) == Learn(target, LearnAll(target, commits), c)
  {
    assert (commits + [c])[..|commits|] == commits;
  }

  ghost predicate GivesSample(target: nat, c: Commit, s: real) {
    Accepted(target, c) && Sample(c) == s
  }

  lemma SampleHalves(target: nat, commits: seq<Commit>, c: Commit, s: real)
    requires LearnAll(target, commits).observed && GivesSample(target, c, s)
    ensures LearnAll(target, commits + [c]).observed
    ensures LearnAll(target, commits + [c]).ratio - s == (LearnAll(target, commits).ratio - s) * 0.5
  {
    OneMoreCommit(target, commits, c);
  }

  /** `d` halved `n` times. */
  ghost function Halved(d: real, n: nat): real {
    if n == 0 then d else Halved(d, n - 1) * 0.5
  }

  lemma {:induction false} HalvedIsByPower(d: real, n: nat)
    ensures Halved(d, n) * Pow2(n) == d
  {
    if n > 0 {
      HalvedIsByPower(d, n - 1);
      assert Halved(d, n) * (2.0 * Pow2(n - 1)) == Halved(d, n - 1) * Pow2(n - 1);
    }
  }

  /** `e` is `d` divided by 2^n. */
  ghost predicate Shrinks(d: real, e: real, n: nat) {
    e * Pow2(n) == d
  }

  lemma HalvedShrinks(d: real, e: real, n: nat)
    requires e == Halved(d, n)
    ensures Shrinks(d, e, n)
  {
    HalvedIsByPower(d, n);
  }

  ghost function Distance(target: nat, commits: seq<Commit>, s: real): real {
    LearnAll(target, commits).ratio - s
  }

  lemma {:induction false} StaysTrained(target: nat, before: seq<Commit>, after: seq<Commit>)
    requires LearnAll(target, before).observed
    ensures LearnAll(target, before + after).observed
  {
    if after == [] {
      assert before + after == before;
    } else {
      var n := |after| - 1;
      StaysTrained(target, before, after[..n]);
      assert before + after == before + after[..n] + [after[n]];
      OneMoreCommit(target, before + after[..n], after[n]);
    }
  }

  lemma {:induction false} EqualSamplesHalve(target: nat, before: seq<Commit>, after: seq<Commit>, s: real)
    requires LearnAll(target, before).observed
    requires forall i :: 0 <= i < |after| ==> GivesSample(target, after[i], s)
    ensures Distance(target, before + after, s) == Halved(Distance(target, before, s), |after|)
  {
    if after == [] {
      assert before + after == before;
    } else {
      var n := |after| - 1;
      EqualSamplesHalve(target, before, after[..n], s);
      StaysTrained(target, before, after[..n]);
      assert before + after == before + after[..n] + [after[n]];
      SampleHalves(target, before + after[..n], after[n], s);
    }
  }

  /** Once trained, each further commit with sample `s` halves the distance to it: after any n of them
      it is exactly 2^n times smaller, whatever was observed before. */
  lemma EqualSamplesConverge(target: nat, before: seq<Commit>, after: seq<Commit>, s: real)
    requires LearnAll(target, before).observed
    requires forall i :: 0 <= i < |after| ==> GivesSample(target, after[i], s)
    ensures Shrinks(Distance(target, before, s), Distance(target, before + after, s), |after|)
  {
    EqualSamplesHalve(target, before, after, s);
    HalvedShrinks(Distance(target, before, s), Distance(target, before + after, s), |after|);
  }

  datatype Trigger = Memory | Bytes

  function Ceiling(x: real): int {
    -((-x).Floor)
  }

  class Sizing {
    const target: nat
    const memory: nat
    var ratio: real
    var observed: bool
    /** Every completed transaction reported so far. */
    ghost var commits: seq<Commit>

    ghost predicate Valid()
      reads this
    {
      0 < memory <= MAX_U64 && target <= MAX_U64 && Learned(ratio, observed) == LearnAll(target, commits)
    }

    constructor (target: nat, memory: nat)
      requires 0 < memory <= MAX_U64 && target <= MAX_U64
      ensures Valid() && commits == [] && this.target == target && this.memory == memory
    {
      this.target := target;
      this.memory := memory;
      ratio := 1.0;
      observed := false;
      commits := [];
    }

    method ObserveCommitted(c: Commit)
      requires Valid()
      modifies this
      ensures Valid() && commits == old(commits) + [c]
    {
      ghost var seen := commits + [c];
      assert seen[..|seen| - 1] == commits;
      commits := seen;
      if target == 0 || c.mapperBytes < MinimumSample(target) || c.fileBytes == 0 { return; }
      var sample := Clamp(c.fileBytes as real / c.mapperBytes as real);
      ratio := if observed then ratio * 0.5 + sample * 0.5 else sample;
      observed := true;
    }

    /** The predicted size is the smallest integer not below bytes times ratio, up to the limit. */
    method PredictedFileBytes(bytes: nat) returns (predicted: nat)
      requires Valid()
      ensures predicted <= MAX_U64
      ensures predicted < MAX_U64 ==> bytes as real * ratio <= predicted as real < bytes as real * ratio + 1.0
      ensures predicted == MAX_U64 ==> bytes as real * ratio > MAX_U64 as real - 1.0
      ensures bytes > 0 ==> predicted > 0
    {
      RatioStaysInRange(target, commits, LOW, HIGH);
      predicted := Predict(bytes, ratio);
    }

    /** Memory first; then the size target, when there is one. */
    method TriggerFor(e: Estimate) returns (t: Option<Trigger>)
      requires Valid()
      ensures t == Some(Memory) <==> e.total >= memory
      ensures t == Some(Bytes) <==> && e.total < memory && target > 0
                                    && e.largest as real * ratio > target as real - 1.0
    {
      RatioStaysInRange(target, commits, LOW, HIGH);
      t := Choose(e, target, memory, ratio);
    }
  }

  method Predict(bytes: nat, ratio: real) returns (predicted: nat)
    requires LOW <= ratio <= HIGH
    ensures predicted <= MAX_U64
    ensures predicted < MAX_U64 ==> bytes as real * ratio <= predicted as real < bytes as real * ratio + 1.0
    ensures predicted == MAX_U64 ==> bytes as real * ratio > MAX_U64 as real - 1.0
    ensures bytes > 0 ==> predicted > 0
  {
    var exact := bytes as real * ratio;
    NonNegative(bytes as real, ratio);
    RoundsUp(exact);
    predicted := Min(Ceiling(exact), MAX_U64);
  }

  method Choose(e: Estimate, target: nat, memory: nat, ratio: real) returns (t: Option<Trigger>)
    requires LOW <= ratio <= HIGH && target <= MAX_U64
    ensures t == Some(Memory) <==> e.total >= memory
    ensures t == Some(Bytes) <==> && e.total < memory && target > 0
                                  && e.largest as real * ratio > target as real - 1.0
  {
    if e.total >= memory { return Some(Memory); }
    var predicted := Predict(e.largest, ratio);
    ReachesTarget(e.largest as real * ratio, predicted, target);
    t := if target > 0 && predicted >= target then Some(Bytes) else None;
  }

  lemma RoundsUp(x: real)
    requires x >= 0.0
    ensures Ceiling(x) >= 0 && x <= Ceiling(x) as real < x + 1.0 && (x > 0.0 ==> Ceiling(x) > 0)
  {
  }

  /** A saturating round-up reaches a target exactly when less than one is missing. */
  lemma ReachesTarget(x: real, predicted: nat, target: nat)
    requires predicted <= MAX_U64 && target <= MAX_U64
    requires predicted < MAX_U64 ==> x <= predicted as real < x + 1.0
    requires predicted == MAX_U64 ==> x > MAX_U64 as real - 1.0
    ensures predicted >= target <==> x > target as real - 1.0
  {
  }

  /** A zero memory threshold is refused. */
  method NewSizing(target: nat, memory: nat) returns (s: Option<Sizing>)
    requires target <= MAX_U64 && memory <= MAX_U64
    ensures s.Some? <==> memory > 0
    ensures s.Some? ==> s.value.Valid() && s.value.commits == [] && s.value.target == target && s.value.memory == memory
  {
    if memory == 0 { return None; }
    var sizing := new Sizing(target, memory);
    s := Some(sizing);
  }

  lemma NonNegative(a: real, b: real)
    requires a >= 0.0 && b > 0.0
    ensures a * b >= 0.0 && (a > 0.0 ==> a * b > 0.0)
  {
  }
}
