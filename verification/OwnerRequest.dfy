/** The public metadata of an owner record: normalization of an acquisition request, validation
    of a stored record and the size of its JSON text. */
module OwnerRequest {
  import opened Wrappers
  import opened Shared

  const MAX_RECORD_BYTES: nat := 32 * 1024
  const MAX_SCOPES: nat := 32
  const MAX_SCOPE_BYTES: nat := 1024

  // ------------------------------------------------- one scope

  predicate Alphanumeric(c: char) {
    'a' <= c <= 'z' || 'A' <= c <= 'Z' || '0' <= c <= '9'
  }

  predicate OperationOk(op: string) {
    && 0 < |op| <= 64
    && forall i :: 0 <= i < |op| ==> Alphanumeric(op[i]) || op[i] == '_' || op[i] == '-'
  }

  predicate ScopeCharsOk(s: string) {
    forall i :: 0 <= i < |s| ==>
      Alphanumeric(s[i]) || s[i] == '_' || s[i] == '-' || s[i] == '.' || s[i] == '/' || s[i] == '='
  }

  function TrimSlashes(s: string): (t: string)
    ensures |t| <= |s| && t == s[..|t|] && (t != [] ==> t[|t| - 1] != '/')
  {
    if s != [] && s[|s| - 1] == '/' then TrimSlashes(s[..|s| - 1]) else s
  }

  /** The components between slashes. */
  function Parts(s: string): seq<string> {
    if s == [] then [""]
    else
      var rest := Parts(s[1..]);
      if s[0] == '/' then [""] + rest
      else if rest == [] then [[s[0]]] else [[s[0]] + rest[0]] + rest[1..]
  }

  predicate PartsOk(s: string) {
    forall i :: 0 <= i < |Parts(s)| ==> Parts(s)[i] != "" && Parts(s)[i] != "." && Parts(s)[i] != ".."
  }

  predicate EndsWithTwoSlashes(s: string) {
    |s| >= 2 && s[|s| - 2] == '/' && s[|s| - 1] == '/'
  }

  function NormalizeScope(s: string): Option<string> {
    if |s| > MAX_SCOPE_BYTES || (s != [] && s[0] == '/') || EndsWithTwoSlashes(s) || !ScopeCharsOk(s) then None
    else
      var t := TrimSlashes(s);
      if t != [] && !PartsOk(t) then None else Some(t)
  }

  /** A normalized scope is left alone. */
  lemma ScopeIsStable(s: string)
    requires NormalizeScope(s).Some?
    ensures var t := NormalizeScope(s).value; NormalizeScope(t) == Some(t) && |t| <= |s|
  {
    var t := TrimSlashes(s);
    assert TrimSlashes(t) == t;
    assert t == s[..|t|];
  }

  /** Operation names: 1 to 64 ASCII letters, digits, `_` and `-`; scopes may also hold `.`, `/` and `=`. */
  lemma AllowedCharacters(s: string)
    ensures OperationOk(s) <==> s != [] && |s| < 65 && forall i :: 0 <= i < |s| ==> Word(s[i] as int) || s[i] in {'_', '-'}
    ensures ScopeCharsOk(s) <==> forall i :: 0 <= i < |s| ==> Word(s[i] as int) || s[i] in {'_', '-', '.', '/', '='}
  {
  }

  /** The ASCII code of a letter or digit. */
  ghost predicate Word(code: int) {
    0x30 <= code < 0x3A || 0x41 <= code < 0x5B || 0x61 <= code < 0x7B
  }

  // ------------------------------------------------- which scopes are accepted

  predicate NoSlash(x: string) {
    forall i :: 0 <= i < |x| ==> x[i] != '/'
  }

  /** `x` stands at `i..j` of `s`, between slashes or at an end. */
  ghost predicate ComponentAt(s: string, i: int, j: int, x: string) {
    && 0 <= i <= j <= |s| && s[i..j] == x && NoSlash(x)
    && (i == 0 || s[i - 1] == '/') && (j == |s| || s[j] == '/')
  }

  ghost predicate HasComponent(s: string, x: string) {
    exists i, j :: ComponentAt(s, i, j, x)
  }

  ghost predicate LaterComponent(s: string, x: string) {
    exists i, j :: i > 0 && ComponentAt(s, i, j, x)
  }

  ghost predicate FirstComponent(s: string, x: string) {
    exists j :: ComponentAt(s, 0, j, x)
  }

  lemma FirstIsUnique(s: string, x: string, y: string)
    requires FirstComponent(s, x) && FirstComponent(s, y)
    ensures x == y
  {
    var j :| ComponentAt(s, 0, j, x);
    var k :| ComponentAt(s, 0, k, y);
    assert forall i :: 0 <= i < j ==> s[i] == x[i];
    assert forall i :: 0 <= i < k ==> s[i] == y[i];
  }

  /** Components of a string that starts with a slash, and of one that does not. */
  lemma ComponentsOfTail(s: string, x: string)
    requires s != []
    ensures s[0] == '/' ==> FirstComponent(s, "") && (LaterComponent(s, x) <==> HasComponent(s[1..], x))
    ensures s[0] != '/' ==> (LaterComponent(s, x) <==> LaterComponent(s[1..], x))
    ensures s[0] != '/' && FirstComponent(s[1..], x) ==> FirstComponent(s, [s[0]] + x)
  {
    var t := s[1..];
    if s[0] == '/' { assert ComponentAt(s, 0, 0, ""); }
    if LaterComponent(s, x) {
      var i, j :| i > 0 && ComponentAt(s, i, j, x);
      assert t[i - 1..j - 1] == s[i..j];
      assert s[0] != '/' ==> i > 1;
      assert ComponentAt(t, i - 1, j - 1, x);
    }
    if i, j :| ComponentAt(t, i, j, x) && (i > 0 || s[0] == '/') {
      assert s[i + 1..j + 1] == t[i..j];
      assert ComponentAt(s, i + 1, j + 1, x);
    }
    if s[0] != '/' && FirstComponent(t, x) {
      var j :| ComponentAt(t, 0, j, x);
      assert s[0..j + 1] == [s[0]] + t[0..j];
      assert ComponentAt(s, 0, j + 1, [s[0]] + x);
    }
  }

  lemma {:induction false} PartsAreComponents(s: string, x: string)
    ensures Parts(s) != [] && FirstComponent(s, Parts(s)[0])
    ensures x in Parts(s)[1..] <==> LaterComponent(s, x)
  {
    if s == [] {
      assert ComponentAt(s, 0, 0, "");
    } else {
      var rest := Parts(s[1..]);
      PartsAreComponents(s[1..], x);
      ComponentsOfTail(s, x);
      ComponentsOfTail(s, rest[0]);
      if s[0] == '/' {
        assert Parts(s)[1..] == rest;
        PartsIffLater(s[1..], x);
      } else {
        assert Parts(s)[1..] == rest[1..];
      }
    }
  }

  lemma PartsIffLater(s: string, x: string)
    requires Parts(s) != [] && FirstComponent(s, Parts(s)[0]) && (x in Parts(s)[1..] <==> LaterComponent(s, x))
    ensures x in Parts(s) <==> HasComponent(s, x)
  {
    assert Parts(s) == [Parts(s)[0]] + Parts(s)[1..];
    if HasComponent(s, x) && !LaterComponent(s, x) {
      var i, j :| ComponentAt(s, i, j, x);
      assert i == 0;
      FirstIsUnique(s, x, Parts(s)[0]);
    }
  }

  /** The parts of a scope are exactly its components. */
  lemma PartsIff(s: string, x: string)
    ensures x in Parts(s) <==> HasComponent(s, x)
  {
    PartsAreComponents(s, x);
    PartsIffLater(s, x);
  }

  /** The empty scope, or one without an empty component, "." or "..". */
  ghost predicate Clean(t: string) {
    t == [] || (!HasComponent(t, "") && !HasComponent(t, ".") && !HasComponent(t, ".."))
  }

  lemma PartsOkIff(t: string)
    requires t != []
    ensures PartsOk(t) <==> Clean(t)
  {
    PartsIff(t, "");
    PartsIff(t, ".");
    PartsIff(t, "..");
    if PartsOk(t) {
      forall x | x in Parts(t) ensures x != "" && x != "." && x != ".." { var i :| 0 <= i < |Parts(t)| && Parts(t)[i] == x; }
    } else {
      var i :| 0 <= i < |Parts(t)| && (Parts(t)[i] == "" || Parts(t)[i] == "." || Parts(t)[i] == "..");
      assert Parts(t)[i] in Parts(t);
    }
  }

  lemma CleanHasNoOuterSlash(t: string)
    requires t != [] && Clean(t)
    ensures t[0] != '/' && t[|t| - 1] != '/'
  {
    assert t[0] == '/' ==> ComponentAt(t, 0, 0, "");
    assert t[|t| - 1] == '/' ==> ComponentAt(t, |t|, |t|, "");
  }

  lemma TrimStops(t: string)
    requires t != [] && t[|t| - 1] != '/'
    ensures TrimSlashes(t) == t && TrimSlashes(t + "/") == t
  {
    assert (t + "/")[..|t|] == t;
  }

  lemma TrimOneSlash(s: string)
    requires !EndsWithTwoSlashes(s) && s != "/"
    ensures s == TrimSlashes(s) || (TrimSlashes(s) != [] && s == TrimSlashes(s) + "/")
  {
    if s != [] && s[|s| - 1] == '/' {
      var t := s[..|s| - 1];
      assert s == t + "/";
      TrimStops(t);
    }
  }

  /** What a scope may be accepted as: itself, or without its one trailing slash, if that is clean. */
  ghost predicate AcceptedAs(s: string, t: string) {
    |s| <= MAX_SCOPE_BYTES && ScopeCharsOk(s) && Clean(t) && (s == t || (t != [] && s == t + "/"))
  }

  lemma NormalizedIsAccepted(s: string)
    requires NormalizeScope(s).Some?
    ensures AcceptedAs(s, NormalizeScope(s).value)
  {
    TrimOneSlash(s);
    if TrimSlashes(s) != [] { PartsOkIff(TrimSlashes(s)); }
  }

  lemma AcceptedIsNormalized(s: string, t: string)
    requires AcceptedAs(s, t)
    ensures NormalizeScope(s) == Some(t)
  {
    if t != [] {
      CleanHasNoOuterSlash(t);
      PartsOkIff(t);
      TrimStops(t);
    }
  }

  /** A scope is accepted as `t` exactly when it is `t`, or `t` and one slash, where `t` is clean: short
      enough, of the allowed characters, without an empty component, "." or "..". */
  lemma ScopeIff(s: string, t: string)
    ensures NormalizeScope(s) == Some(t) <==> AcceptedAs(s, t)
  {
    if NormalizeScope(s).Some? { NormalizedIsAccepted(s); }
    if AcceptedAs(s, t) { AcceptedIsNormalized(s, t); }
  }

  // ------------------------------------------------- order

  ghost predicate Sorted(s: seq<string>) {
    forall i, j :: 0 <= i < j < |s| ==> !Less(s[j], s[i])
  }

  ghost predicate Ascending(s: seq<string>) {
    forall i, j :: 0 <= i < j < |s| ==> Less(s[i], s[j])
  }

  function Insert(x: string, s: seq<string>): seq<string> {
    if s == [] || !Less(s[0], x) then [x] + s else [s[0]] + Insert(x, s[1..])
  }

  function Sort(s: seq<string>): seq<string> {
    if s == [] then [] else Insert(s[0], Sort(s[1..]))
  }

  function Dedup(s: seq<string>): seq<string> {
    if |s| <= 1 then s else if s[0] == s[1] then Dedup(s[1..]) else [s[0]] + Dedup(s[1..])
  }

  function Bytes(s: seq<string>): nat {
    if s == [] then 0 else |s[0]| + Bytes(s[1..])
  }

  lemma {:induction false} InsertKeeps(x: string, s: seq<string>)
    ensures multiset(Insert(x, s)) == multiset{x} + multiset(s) && Bytes(Insert(x, s)) == |x| + Bytes(s)
    ensures |Insert(x, s)| == |s| + 1
  {
    if s != [] && Less(s[0], x) {
      InsertKeeps(x, s[1..]);
      assert s == [s[0]] + s[1..];
      assert ([s[0]] + Insert(x, s[1..]))[1..] == Insert(x, s[1..]);
    } else {
      assert ([x] + s)[1..] == s;
    }
  }

  lemma {:induction false} InsertSorts(x: string, s: seq<string>)
    requires Sorted(s)
    ensures Sorted(Insert(x, s))
  {
    var r := Insert(x, s);
    if s == [] {
    } else if !Less(s[0], x) {
      forall i, j | 0 <= i < j < |r| ensures !Less(r[j], r[i]) {
        if i == 0 && j > 1 { LessTransitive(x, s[0], s[j - 1]); }
      }
    } else {
      InsertSorts(x, s[1..]);
      InsertKeeps(x, s[1..]);
      LessTotal(s[0], x);
      var t := Insert(x, s[1..]);
      forall j | 0 <= j < |t| ensures !Less(t[j], s[0]) {
        assert t[j] in multiset(t);
        assert t[j] == x || t[j] in multiset(s[1..]);
      }
    }
  }

  lemma {:induction false} SortSorts(s: seq<string>)
    ensures Sorted(Sort(s)) && multiset(Sort(s)) == multiset(s) && Bytes(Sort(s)) == Bytes(s) && |Sort(s)| == |s|
  {
    if s != [] {
      SortSorts(s[1..]);
      InsertSorts(s[0], Sort(s[1..]));
      InsertKeeps(s[0], Sort(s[1..]));
      assert s == [s[0]] + s[1..];
    }
  }

  lemma {:induction false} DedupAscends(s: seq<string>)
    requires Sorted(s)
    ensures Ascending(Dedup(s)) && |Dedup(s)| <= |s| && Bytes(Dedup(s)) <= Bytes(s)
    ensures forall x :: x in Dedup(s) <==> x in s
    ensures s != [] ==> Dedup(s) != [] && Dedup(s)[0] == s[0]
  {
    if |s| > 1 {
      var t := s[1..];
      DedupAscends(t);
      assert s == [s[0]] + t && t[0] == s[1];
      if s[0] != s[1] {
        var d := Dedup(t);
        assert ([s[0]] + d)[1..] == d;
        forall j | 0 <= j < |d| ensures Less(s[0], d[j]) {
          LessTotal(s[0], s[1]);
          if j > 0 { LessTransitive(s[0], s[1], d[j]); }
        }
      }
    }
  }

  /** An ascending list is already sorted and has nothing to drop. */
  lemma {:induction false} AscendingIsFixed(s: seq<string>)
    requires Ascending(s)
    ensures Sort(s) == s && Dedup(s) == s
  {
    if s != [] {
      AscendingIsFixed(s[1..]);
      assert s == [s[0]] + s[1..];
      if |s| > 1 {
        LessTotal(s[0], s[1]);
        assert Less(s[0], s[1]);
      }
    }
  }

  // ------------------------------------------------- the request

  function NormalizeAll(scopes: seq<string>): Option<seq<string>> {
    if scopes == [] then Some([])
    else
      match (NormalizeAll(scopes[..|scopes| - 1]), NormalizeScope(scopes[|scopes| - 1]))
      case (Some(a), Some(t)) => Some(a + [t])
      case _ => None
  }

  function Normalize(op: string, scopes: seq<string>): Option<seq<string>> {
    if !OperationOk(op) || scopes == [] || |scopes| > MAX_SCOPES then None
    else
      match NormalizeAll(scopes)
      case None => None
      case Some(trimmed) => if Bytes(trimmed) > MAX_RECORD_BYTES / 2 then None else Some(Dedup(Sort(trimmed)))
  }

  /** Trim each scope in place, then sort and drop repeats. */
  method NormalizeRequest(op: string, scopes: seq<string>) returns (r: Option<seq<string>>)
    ensures r == Normalize(op, scopes)
  {
    if !OperationOk(op) || scopes == [] || |scopes| > MAX_SCOPES { return None; }
    var trimmed := scopes;
    for i := 0 to |scopes|
      invariant |trimmed| == |scopes| && forall j :: i <= j < |scopes| ==> trimmed[j] == scopes[j]
      invariant NormalizeAll(scopes[..i]) == Some(trimmed[..i])
    {
      assert scopes[..i + 1][..i] == scopes[..i];
      var t := NormalizeScope(trimmed[i]);
      if t.None? {
        OneBadScope(scopes, i);
        return None;
      }
      var next := trimmed[i := t.value];
      assert next[..i + 1] == trimmed[..i] + [t.value];
      trimmed := next;
    }
    assert scopes[..|scopes|] == scopes && trimmed[..|scopes|] == trimmed;
    if Bytes(trimmed) > MAX_RECORD_BYTES / 2 { return None; }
    r := Some(Dedup(Sort(trimmed)));
  }

  lemma {:induction false} OneBadScope(scopes: seq<string>, i: nat)
    requires i < |scopes| && NormalizeScope(scopes[i]).None?
    ensures NormalizeAll(scopes).None?
  {
    if i < |scopes| - 1 { OneBadScope(scopes[..|scopes| - 1], i); }
  }

  lemma {:induction false} NormalizeAllStable(scopes: seq<string>)
    requires NormalizeAll(scopes).Some?
    ensures var t := NormalizeAll(scopes).value;
            |t| == |scopes| && forall i :: 0 <= i < |t| ==> NormalizeScope(t[i]) == Some(t[i])
  {
    if scopes != [] {
      NormalizeAllStable(scopes[..|scopes| - 1]);
      ScopeIsStable(scopes[|scopes| - 1]);
    }
  }

  lemma {:induction false} AllStable(t: seq<string>)
    requires forall i :: 0 <= i < |t| ==> NormalizeScope(t[i]) == Some(t[i])
    ensures NormalizeAll(t) == Some(t)
  {
    if t != [] {
      AllStable(t[..|t| - 1]);
      assert t[..|t| - 1] + [t[|t| - 1]] == t;
    }
  }

  /** Sorting and dropping repeats leaves the same scopes, each once, in ascending order. */
  lemma SortDedup(t: seq<string>)
    ensures var n := Dedup(Sort(t));
            && Ascending(n) && |n| <= |t| && Bytes(n) <= Bytes(t) && (t != [] ==> n != [])
            && (forall x :: x in n <==> x in t)
  {
    SortSorts(t);
    DedupAscends(Sort(t));
    forall x ensures x in Sort(t) <==> x in t {
      assert x in Sort(t) <==> x in multiset(Sort(t));
    }
  }

  lemma StableSubset(n: seq<string>, t: seq<string>)
    requires forall i :: 0 <= i < |t| ==> NormalizeScope(t[i]) == Some(t[i])
    requires forall x :: x in n ==> x in t
    ensures NormalizeAll(n) == Some(n)
  {
    forall i | 0 <= i < |n| ensures NormalizeScope(n[i]) == Some(n[i]) { assert n[i] in t; }
    AllStable(n);
  }

  /** What a normalized request looks like, and that normalizing it again changes nothing. */
  lemma NormalizeIsIdempotent(op: string, scopes: seq<string>)
    requires Normalize(op, scopes).Some?
    ensures var n := Normalize(op, scopes).value;
            && Normalize(op, n) == Some(n) && Ascending(n)
            && 0 < |n| <= |scopes| <= MAX_SCOPES && Bytes(n) <= MAX_RECORD_BYTES / 2
            && (forall x :: x in n <==> x in NormalizeAll(scopes).value)
  {
    var t := NormalizeAll(scopes).value;
    var n := Normalize(op, scopes).value;
    NormalizeAllStable(scopes);
    SortDedup(t);
    StableSubset(n, t);
    AscendingIsFixed(n);
  }

  // ------------------------------------------------- exactly which requests are accepted, and as what

  /** Each scope is accepted as the entry at its place. */
  ghost predicate Trims(scopes: seq<string>, trimmed: seq<string>) {
    |trimmed| == |scopes| && forall i :: 0 <= i < |scopes| ==> AcceptedAs(scopes[i], trimmed[i])
  }

  lemma {:induction false} NormalizeAllIff(scopes: seq<string>, trimmed: seq<string>)
    ensures NormalizeAll(scopes) == Some(trimmed) <==> Trims(scopes, trimmed)
  {
    if scopes != [] {
      var n := |scopes| - 1;
      if trimmed == [] {
      } else {
        NormalizeAllIff(scopes[..n], trimmed[..|trimmed| - 1]);
        ScopeIff(scopes[n], trimmed[|trimmed| - 1]);
        assert trimmed == trimmed[..|trimmed| - 1] + [trimmed[|trimmed| - 1]];
        LastTrims(scopes, trimmed);
      }
    }
  }

  lemma LastTrims(scopes: seq<string>, trimmed: seq<string>)
    requires scopes != [] && trimmed != []
    ensures Trims(scopes, trimmed) <==> && Trims(scopes[..|scopes| - 1], trimmed[..|trimmed| - 1])
                                        && AcceptedAs(scopes[|scopes| - 1], trimmed[|trimmed| - 1])
  {
    var n := |scopes| - 1;
    if Trims(scopes[..n], trimmed[..|trimmed| - 1]) && AcceptedAs(scopes[n], trimmed[|trimmed| - 1]) {
      forall i | 0 <= i < |scopes| ensures AcceptedAs(scopes[i], trimmed[i]) {
        if i < n { assert scopes[..n][i] == scopes[i] && trimmed[..n][i] == trimmed[i]; }
      }
    }
  }

  ghost predicate SameElements(a: seq<string>, b: seq<string>) {
    forall x :: x in a <==> x in b
  }

  lemma FirstIsLeast(a: seq<string>, x: string)
    requires Ascending(a) && x in a
    ensures x == a[0] || Less(a[0], x)
  {
    var i :| 0 <= i < |a| && a[i] == x;
  }

  /** There is one ascending list of given elements. */
  lemma {:induction false} AscendingIsUnique(a: seq<string>, b: seq<string>)
    requires Ascending(a) && Ascending(b) && SameElements(a, b)
    ensures a == b
  {
    assert |b| > 0 ==> b[0] in a;
    if a != [] {
      assert a[0] in b && b != [] && b[0] in a;
      FirstIsLeast(a, b[0]);
      FirstIsLeast(b, a[0]);
      LessTotal(a[0], b[0]);
      assert a[0] == b[0];
      TailElements(a, b);
      AscendingIsUnique(a[1..], b[1..]);
      assert a == [a[0]] + a[1..] && b == [b[0]] + b[1..];
    }
  }

  lemma TailElements(a: seq<string>, b: seq<string>)
    requires Ascending(a) && Ascending(b) && SameElements(a, b) && a != [] && b != [] && a[0] == b[0]
    ensures SameElements(a[1..], b[1..])
  {
    forall x ensures (x in a[1..] <==> x in a && x != a[0]) && (x in b[1..] <==> x in b && x != b[0]) {
      TailMember(a, x);
      TailMember(b, x);
    }
  }

  lemma TailMember(a: seq<string>, x: string)
    requires Ascending(a) && a != []
    ensures x in a[1..] <==> x in a && x != a[0]
  {
    assert a == [a[0]] + a[1..];
    LessIrreflexive(a[0]);
    forall i | 1 <= i < |a| ensures a[i] != a[0] { assert Less(a[0], a[i]); }
  }

  /** A request is accepted as `n` exactly when the operation name is valid, there are 1 to 32 scopes,
      each of them is accepted, together they are short enough, and `n` lists them in ascending order,
      each once. */
  lemma NormalizeIff(op: string, scopes: seq<string>, n: seq<string>)
    ensures Normalize(op, scopes) == Some(n) <==>
              && OperationOk(op) && 0 < |scopes| <= MAX_SCOPES
              && exists t :: Trims(scopes, t) && Bytes(t) <= MAX_RECORD_BYTES / 2 && Ascending(n) && SameElements(n, t)
  {
    if Normalize(op, scopes) == Some(n) {
      var t := NormalizeAll(scopes).value;
      NormalizeAllIff(scopes, t);
      SortDedup(t);
    }
    if OperationOk(op) && 0 < |scopes| <= MAX_SCOPES
       && exists t :: Trims(scopes, t) && Bytes(t) <= MAX_RECORD_BYTES / 2 && Ascending(n) && SameElements(n, t) {
      var t :| Trims(scopes, t) && Bytes(t) <= MAX_RECORD_BYTES / 2 && Ascending(n) && SameElements(n, t);
      NormalizeAllIff(scopes, t);
      SortDedup(t);
      AscendingIsUnique(Dedup(Sort(t)), n);
    }
  }

  // ------------------------------------------------- stored records

  datatype Record = Record(formatVersion: nat, generation: nat, ownerId: string, owned: bool, operation: string,
                           scopes: seq<string>, recovery: Option<Receipt>)

  predicate LowerHex(c: char) {
    '0' <= c <= '9' || 'a' <= c <= 'f'
  }

  predicate DigestOk(s: string) {
    |s| == 64 && forall i :: 0 <= i < 64 ==> LowerHex(s[i])
  }

  /** The canonical text of a version-4 UUID. */
  predicate IdOk(s: string) {
    && |s| == 36 && s[14] == '4'
    && forall i :: 0 <= i < 36 ==> if i == 8 || i == 13 || i == 18 || i == 23 then s[i] == '-' else LowerHex(s[i])
  }

  predicate Hex(s: string) {
    forall i :: 0 <= i < |s| ==> LowerHex(s[i])
  }

  /** Five groups of lower-case hexadecimal digits, 8-4-4-4-12, the third one starting with 4. */
  lemma IdIff(s: string)
    ensures IdOk(s) <==> exists a, b, c, d, e :: IdParts(s, a, b, c, d, e)
  {
    if IdOk(s) {
      var a, b, c, d, e := s[..8], s[9..13], s[14..18], s[19..23], s[24..];
      assert IdParts(s, a, b, c, d, e);
    }
    if a, b, c, d, e :| IdParts(s, a, b, c, d, e) {
      forall i | 0 <= i < 36 ensures if i == 8 || i == 13 || i == 18 || i == 23 then s[i] == '-' else LowerHex(s[i]) {
        assert s[i] == if i < 8 then a[i] else if i == 8 then '-' else if i < 13 then b[i - 9] else if i == 13 then '-'
                       else if i < 18 then c[i - 14] else if i == 18 then '-' else if i < 23 then d[i - 19]
                       else if i == 23 then '-' else e[i - 24];
      }
    }
  }

  ghost predicate IdParts(s: string, a: string, b: string, c: string, d: string, e: string) {
    && s == a + "-" + b + "-" + c + "-" + d + "-" + e
    && |a| == 8 && |b| == 4 && |c| == 4 && |d| == 4 && |e| == 12
    && Hex(a) && Hex(b) && Hex(c) && Hex(d) && Hex(e) && c[0] == '4'
  }

  predicate Validates(r: Record) {
    && r.formatVersion == 1 && r.generation > 0 && IdOk(r.ownerId)
    && Normalize(r.operation, r.scopes) == Some(r.scopes)
    && (r.owned ==> r.recovery.None?)
    && (r.recovery.Some? ==> DigestOk(r.recovery.value.stoppedWriter) && DigestOk(r.recovery.value.providerQuiescence))
  }

  /** Visible characters that JSON writes as they are. */
  predicate Plain(s: string) {
    forall i :: 0 <= i < |s| ==> '!' <= s[i] <= '~' && s[i] != '"' && s[i] != '\\'
  }

  /** A record that validates has normalized scopes of plain text, no receipt while it is owned, and
      nothing in it needs escaping. */
  lemma ValidatedIsPlain(r: Record)
    requires Validates(r)
    ensures r.formatVersion == 1 && r.generation != 0 && Ascending(r.scopes) && 0 < |r.scopes| <= MAX_SCOPES
    ensures Plain(r.ownerId) && Plain(r.operation) && forall i :: 0 <= i < |r.scopes| ==> Clean(r.scopes[i]) && Plain(r.scopes[i])
    ensures r.recovery.Some? ==> !r.owned && Plain(r.recovery.value.stoppedWriter) && Plain(r.recovery.value.providerQuiescence)
  {
    NormalizeIsIdempotent(r.operation, r.scopes);
    forall i | 0 <= i < |r.scopes| ensures Clean(r.scopes[i]) && Plain(r.scopes[i]) {
      NormalScopeIsClean(r.operation, r.scopes, i);
    }
  }

  lemma NormalScopeIsClean(op: string, n: seq<string>, i: nat)
    requires Normalize(op, n) == Some(n) && i < |n|
    ensures Clean(n[i]) && Plain(n[i])
  {
    NormalizeIsIdempotent(op, n);
    var t := NormalizeAll(n).value;
    NormalizeAllIff(n, t);
    assert n[i] in t;
    var j :| 0 <= j < |t| && t[j] == n[i];
    assert AcceptedAs(n[i], t[i]) && AcceptedAs(n[j], t[j]);
  }
}
