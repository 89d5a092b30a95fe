/** Row-group pruning by statistics and Bloom filters, against a full scan of the column. */
module LookupPruning {
  import opened Wrappers
  import opened Shared

  /** A byte string. */
  type Key = string
  const BATCH_ROWS: nat := 16_384

  datatype Stats = Stats(nulls: Option<nat>, min: Option<Key>, minExact: bool, max: Option<Key>, maxExact: bool)
  datatype RowGroup = RowGroup(rows: seq<Option<Key>>, stats: Option<Stats>, bloom: Option<Key -> bool>)

  /** A row matches a key probe by value, and a NULL probe by being null. */
  predicate Matches(row: Option<Key>, probe: Option<Key>) {
    row == probe
  }

  function Count(rows: seq<Option<Key>>, probe: Option<Key>): nat {
    if rows == [] then 0
    else Count(rows[..|rows| - 1], probe) + if Matches(rows[|rows| - 1], probe) then 1 else 0
  }

  function AllRows(groups: seq<RowGroup>): seq<Option<Key>> {
    if groups == [] then [] else AllRows(groups[..|groups| - 1]) + groups[|groups| - 1].rows
  }

  /** The file tells the truth: exact bounds bound, null counts count, and a Bloom filter knows
      every key it was given. Inexact bounds may be anything. */
  ghost predicate Truthful(g: RowGroup) {
    && (g.stats.Some? ==>
          var s := g.stats.value;
          && (s.nulls.Some? ==> s.nulls.value == Count(g.rows, None))
          && (s.minExact && s.min.Some? ==> forall i :: 0 <= i < |g.rows| && g.rows[i].Some? ==> !Less(g.rows[i].value, s.min.value))
          && (s.maxExact && s.max.Some? ==> forall i :: 0 <= i < |g.rows| && g.rows[i].Some? ==> !Less(s.max.value, g.rows[i].value)))
    && (g.bloom.Some? ==> forall i :: 0 <= i < |g.rows| && g.rows[i].Some? ==> g.bloom.value(g.rows[i].value))
  }

  predicate StatsExclude(g: RowGroup, probe: Option<Key>) {
    g.stats.Some?
    && var s := g.stats.value;
       match probe
       case None => s.nulls == Some(0)
       case Some(key) =>
         || s.nulls == Some(|g.rows|)
         || (s.minExact && s.min.Some? && Less(key, s.min.value))
         || (s.maxExact && s.max.Some? && Less(s.max.value, key))
  }

  /** A NULL probe is never excluded by a Bloom filter. */
  predicate BloomExcludes(g: RowGroup, probe: Option<Key>) {
    probe.Some? && g.bloom.Some? && !g.bloom.value(probe.value)
  }

  // ------------------------------------------------- counting

  lemma {:induction false} CountSplits(a: seq<Option<Key>>, b: seq<Option<Key>>, probe: Option<Key>)
    ensures Count(a + b, probe) == Count(a, probe) + Count(b, probe)
  {
    if b == [] {
      assert a + b == a;
    } else {
      assert (a + b)[..|a + b| - 1] == a + b[..|b| - 1];
      CountSplits(a, b[..|b| - 1], probe);
    }
  }

  lemma {:induction false} NoMatch(rows: seq<Option<Key>>, probe: Option<Key>)
    requires forall i :: 0 <= i < |rows| ==> !Matches(rows[i], probe)
    ensures Count(rows, probe) == 0
  {
    if rows != [] { NoMatch(rows[..|rows| - 1], probe); }
  }

  /** A full null count leaves no room for a value. */
  lemma {:induction false} AllNull(rows: seq<Option<Key>>, i: nat)
    requires Count(rows, None) == |rows| && i < |rows|
    ensures rows[i] == None
  {
    CountBounded(rows[..|rows| - 1], None);
    if i < |rows| - 1 { AllNull(rows[..|rows| - 1], i); }
  }

  lemma {:induction false} CountBounded(rows: seq<Option<Key>>, probe: Option<Key>)
    ensures Count(rows, probe) <= |rows|
  {
    if rows != [] { CountBounded(rows[..|rows| - 1], probe); }
  }

  /** An excluded group of a truthful file holds no match. */
  lemma ExclusionIsSound(g: RowGroup, probe: Option<Key>)
    requires Truthful(g) && (StatsExclude(g, probe) || BloomExcludes(g, probe))
    ensures Count(g.rows, probe) == 0
  {
    if probe.Some? {
      forall i | 0 <= i < |g.rows| ensures !Matches(g.rows[i], probe) {
        if g.stats.Some? && g.stats.value.nulls == Some(|g.rows|) { AllNull(g.rows, i); }
      }
      NoMatch(g.rows, probe);
    }
  }

  ghost predicate Excluded(g: RowGroup, probe: Option<Key>) {
    StatsExclude(g, probe) || BloomExcludes(g, probe)
  }

  /** Rows that a file with the metadata of `g` could just as well hold. */
  ghost predicate Possible(g: RowGroup, rows: seq<Option<Key>>) {
    |rows| == |g.rows| && Truthful(g.(rows := rows))
  }

  /** `n` nulls, then the key. */
  function NullsThenKey(n: nat, m: nat, key: Key): seq<Option<Key>> {
    seq(n + m, i => if i < n then None else Some(key))
  }

  lemma {:induction false} CountNulls(n: nat, m: nat, key: Key)
    ensures Count(NullsThenKey(n, m, key), None) == n
    decreases n + m
  {
    var rows := NullsThenKey(n, m, key);
    if m > 0 {
      CountNulls(n, m - 1, key);
      assert rows[..|rows| - 1] == NullsThenKey(n, m - 1, key);
    } else if n > 0 {
      CountNulls(n - 1, 0, key);
      assert rows[..|rows| - 1] == NullsThenKey(n - 1, 0, key);
    }
  }

  /** Pruning drops exactly the groups that cannot hold a match: a group of a truthful file is excluded
      if and only if no rows that its statistics and its filter allow contain one. */
  lemma PruningIsExact(g: RowGroup, probe: Option<Key>)
    requires Truthful(g) && g.rows != []
    ensures Excluded(g, probe) <==> forall rows :: Possible(g, rows) ==> Count(rows, probe) == 0
  {
    if Excluded(g, probe) {
      forall rows | Possible(g, rows) ensures Count(rows, probe) == 0 { ExclusionIsSound(g.(rows := rows), probe); }
    } else {
      var rows := MatchingRows(g, probe);
      assert Possible(g, rows) && Count(rows, probe) > 0;
    }
  }

  lemma MatchingRows(g: RowGroup, probe: Option<Key>) returns (rows: seq<Option<Key>>)
    requires Truthful(g) && g.rows != [] && !Excluded(g, probe)
    ensures Possible(g, rows) && Count(rows, probe) > 0
  {
    CountBounded(g.rows, None);
    var nulls := if g.stats.Some? && g.stats.value.nulls.Some? then g.stats.value.nulls.value else 0;
    if probe.Some? {
      rows := NullsThenKey(nulls, |g.rows| - nulls, probe.value);
      CountNulls(nulls, |g.rows| - nulls, probe.value);
      CountedIsPresent(rows, probe, |rows| - 1);
    } else if g.stats.Some? && g.stats.value.nulls.Some? {
      rows := g.rows;
    } else {
      rows := NullsThenKey(|g.rows|, 0, []);
      CountNulls(|g.rows|, 0, []);
    }
  }

  lemma {:induction false} CountedIsPresent(rows: seq<Option<Key>>, probe: Option<Key>, i: nat)
    requires i < |rows| && Matches(rows[i], probe)
    ensures Count(rows, probe) > 0
  {
    if i < |rows| - 1 { CountedIsPresent(rows[..|rows| - 1], probe, i); }
  }

  // ------------------------------------------------- the query

  datatype Report = Report(selected: seq<nat>, matches: nat, statsPruned: nat, bloomPruned: nat, bloomChecked: nat, rows: nat)

  /** The rows of the selected groups, in order. */
  function Picked(groups: seq<RowGroup>, selected: seq<nat>): seq<Option<Key>> {
    if selected == [] then []
    else
      var last := selected[|selected| - 1];
      Picked(groups, selected[..|selected| - 1]) + if last < |groups| then groups[last].rows else []
  }

  datatype Verdict = Verdict(keep: bool, bloomChecked: bool)

  /** Statistics first, then the Bloom filter of a key probe. A dropped group holds no match. */
  method Judge(g: RowGroup, probe: Option<Key>) returns (v: Verdict)
    requires Truthful(g)
    ensures !v.keep ==> Count(g.rows, probe) == 0
    ensures v.keep <==> !Excluded(g, probe)
    ensures v.bloomChecked <==> ChecksBloom(g, probe)
  {
    if StatsExclude(g, probe) {
      ExclusionIsSound(g, probe);
      return Verdict(false, false);
    }
    if probe.Some? && g.bloom.Some? {
      if !g.bloom.value(probe.value) {
        ExclusionIsSound(g, probe);
        return Verdict(false, true);
      }
      return Verdict(true, true);
    }
    v := Verdict(true, false);
  }

  predicate ChecksBloom(g: RowGroup, probe: Option<Key>) {
    !StatsExclude(g, probe) && probe.Some? && g.bloom.Some?
  }

  /** How many of the first `n` groups the statistics exclude. */
  ghost function StatsTally(groups: seq<RowGroup>, n: nat, probe: Option<Key>): nat
    requires n <= |groups|
  {
    if n == 0 then 0 else StatsTally(groups, n - 1, probe) + if StatsExclude(groups[n - 1], probe) then 1 else 0
  }

  /** How many of the first `n` groups have their filter consulted. */
  ghost function BloomTally(groups: seq<RowGroup>, n: nat, probe: Option<Key>): nat
    requires n <= |groups|
  {
    if n == 0 then 0 else BloomTally(groups, n - 1, probe) + if ChecksBloom(groups[n - 1], probe) then 1 else 0
  }

  /** `selected` lists, in order, the groups among the first `n` that are not excluded. */
  ghost predicate Selects(groups: seq<RowGroup>, n: nat, selected: seq<nat>, probe: Option<Key>)
    requires n <= |groups|
  {
    && (forall i, j :: 0 <= i < j < |selected| ==> selected[i] < selected[j])
    && (forall i :: i in selected <==> 0 <= i < n && !Excluded(groups[i], probe))
  }

  lemma NextSelects(groups: seq<RowGroup>, n: nat, selected: seq<nat>, probe: Option<Key>)
    requires n < |groups| && Selects(groups, n, selected, probe)
    ensures Excluded(groups[n], probe) ==> Selects(groups, n + 1, selected, probe)
    ensures !Excluded(groups[n], probe) ==> Selects(groups, n + 1, selected + [n], probe)
  {
    forall i | 0 <= i < |selected| ensures selected[i] < n { assert selected[i] in selected; }
  }

  datatype Choice = Choice(selected: seq<nat>, statsPruned: nat, bloomPruned: nat, bloomChecked: nat)

  /** The choice and the counters are right for the first `n` groups. */
  ghost predicate Right(groups: seq<RowGroup>, n: nat, probe: Option<Key>, c: Choice)
    requires n <= |groups|
  {
    && Chosen(groups, n, c.selected, probe)
    && |c.selected| + c.statsPruned + c.bloomPruned == n
    && c.statsPruned == StatsTally(groups, n, probe) && c.bloomChecked == BloomTally(groups, n, probe)
  }

  /** Judge one more group. */
  method Visit(groups: seq<RowGroup>, n: nat, probe: Option<Key>, c: Choice) returns (d: Choice)
    requires n < |groups| && Truthful(groups[n]) && Right(groups, n, probe, c)
    ensures Right(groups, n + 1, probe, d)
  {
    var v := Judge(groups[n], probe);
    NextChosen(groups, n, c.selected, probe);
    NextTallies(groups, n, probe, v);
    var checked := c.bloomChecked + if v.bloomChecked then 1 else 0;
    d := if v.keep then Choice(c.selected + [n], c.statsPruned, c.bloomPruned, checked)
         else if v.bloomChecked then Choice(c.selected, c.statsPruned, c.bloomPruned + 1, checked)
         else Choice(c.selected, c.statsPruned + 1, c.bloomPruned, checked);
  }

  /** Choose the groups that may hold a match, in order. */
  method Select(groups: seq<RowGroup>, probe: Option<Key>) returns (c: Choice)
    requires forall i :: 0 <= i < |groups| ==> Truthful(groups[i])
    ensures Selects(groups, |groups|, c.selected, probe)
    ensures Count(Picked(groups, c.selected), probe) == Count(AllRows(groups), probe)
    ensures |c.selected| + c.statsPruned + c.bloomPruned == |groups|
    ensures c.statsPruned == StatsTally(groups, |groups|, probe) && c.bloomChecked == BloomTally(groups, |groups|, probe)
  {
    c := Choice([], 0, 0, 0);
    NoneChosen(groups, probe);
    for n := 0 to |groups|
      invariant Right(groups, n, probe, c)
    {
      c := Visit(groups, n, probe, c);
    }
    AllChosen(groups, c.selected, probe);
  }

  /** The choice among the first `n` groups is exact and loses nothing. */
  ghost predicate Chosen(groups: seq<RowGroup>, n: nat, selected: seq<nat>, probe: Option<Key>)
    requires n <= |groups|
  {
    Selects(groups, n, selected, probe) && NothingLost(groups, n, selected, probe)
  }

  lemma NoneChosen(groups: seq<RowGroup>, probe: Option<Key>)
    ensures Chosen(groups, 0, [], probe)
  {
    assert groups[..0] == [];
  }

  lemma AllChosen(groups: seq<RowGroup>, selected: seq<nat>, probe: Option<Key>)
    requires Chosen(groups, |groups|, selected, probe)
    ensures Selects(groups, |groups|, selected, probe)
    ensures Count(Picked(groups, selected), probe) == Count(AllRows(groups), probe)
  {
    assert groups[..|groups|] == groups;
  }

  lemma NextChosen(groups: seq<RowGroup>, n: nat, selected: seq<nat>, probe: Option<Key>)
    requires n < |groups| && Chosen(groups, n, selected, probe) && Truthful(groups[n])
    ensures Excluded(groups[n], probe) ==> Chosen(groups, n + 1, selected, probe)
    ensures !Excluded(groups[n], probe) ==> Chosen(groups, n + 1, selected + [n], probe)
  {
    NextSelects(groups, n, selected, probe);
    if Excluded(groups[n], probe) {
      ExclusionIsSound(groups[n], probe);
      DropGroup(groups, n, selected, probe);
    } else {
      KeepGroup(groups, n, selected, probe);
    }
  }

  lemma NextTallies(groups: seq<RowGroup>, n: nat, probe: Option<Key>, v: Verdict)
    requires n < |groups| && (v.keep <==> !Excluded(groups[n], probe)) && (v.bloomChecked <==> ChecksBloom(groups[n], probe))
    ensures BloomTally(groups, n + 1, probe) == BloomTally(groups, n, probe) + if v.bloomChecked then 1 else 0
    ensures StatsTally(groups, n + 1, probe) == StatsTally(groups, n, probe) + if !v.keep && !v.bloomChecked then 1 else 0
  {
  }

  /** The selected groups hold every match of the first `g` groups. */
  ghost predicate NothingLost(groups: seq<RowGroup>, g: nat, selected: seq<nat>, probe: Option<Key>)
    requires g <= |groups|
  {
    Count(Picked(groups, selected), probe) == Count(AllRows(groups[..g]), probe)
  }

  lemma OneMoreGroup(groups: seq<RowGroup>, g: nat, probe: Option<Key>)
    requires g < |groups|
    ensures Count(AllRows(groups[..g + 1]), probe) == Count(AllRows(groups[..g]), probe) + Count(groups[g].rows, probe)
  {
    assert groups[..g + 1][..g] == groups[..g];
    CountSplits(AllRows(groups[..g]), groups[g].rows, probe);
  }

  lemma DropGroup(groups: seq<RowGroup>, g: nat, selected: seq<nat>, probe: Option<Key>)
    requires g < |groups| && NothingLost(groups, g, selected, probe) && Count(groups[g].rows, probe) == 0
    ensures NothingLost(groups, g + 1, selected, probe)
  {
    OneMoreGroup(groups, g, probe);
  }

  lemma KeepGroup(groups: seq<RowGroup>, g: nat, selected: seq<nat>, probe: Option<Key>)
    requires g < |groups| && NothingLost(groups, g, selected, probe)
    ensures NothingLost(groups, g + 1, selected + [g], probe)
  {
    OneMoreGroup(groups, g, probe);
    var more := selected + [g];
    assert more[..|more| - 1] == selected;
    CountSplits(Picked(groups, selected), groups[g].rows, probe);
  }

  /** Decode the chosen rows in batches and count the matches. */
  method Scan(rows: seq<Option<Key>>, probe: Option<Key>) returns (matches: nat, decoded: nat)
    ensures matches == Count(rows, probe) && decoded == |rows|
  {
    matches, decoded := 0, 0;
    while decoded < |rows|
      invariant 0 <= decoded <= |rows| && matches == Count(rows[..decoded], probe)
    {
      var end := if decoded + BATCH_ROWS < |rows| then decoded + BATCH_ROWS else |rows|;
      assert rows[..decoded] + rows[decoded..end] == rows[..end];
      CountSplits(rows[..decoded], rows[decoded..end], probe);
      matches := matches + Count(rows[decoded..end], probe);
      decoded := end;
    }
    assert rows[..|rows|] == rows;
  }

  /** The pruned lookup finds exactly the matches of a full scan, for a key and for NULL. */
  method Query(groups: seq<RowGroup>, probe: Option<Key>) returns (r: Report)
    requires forall i :: 0 <= i < |groups| ==> Truthful(groups[i])
    ensures r.matches == Count(AllRows(groups), probe)
    ensures Selects(groups, |groups|, r.selected, probe)
    ensures r.statsPruned == StatsTally(groups, |groups|, probe) && r.bloomChecked == BloomTally(groups, |groups|, probe)
    ensures r.rows == |Picked(groups, r.selected)|
    ensures |r.selected| + r.statsPruned + r.bloomPruned == |groups|
  {
    var c := Select(groups, probe);
    var matches, rows := Scan(Picked(groups, c.selected), probe);
    r := Report(c.selected, matches, c.statsPruned, c.bloomPruned, c.bloomChecked, rows);
  }
}
