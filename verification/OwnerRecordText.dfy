/** The JSON text of an owner record: it always fits, and it determines the record. */
module OwnerRecordText {
  import opened Wrappers
  import opened Shared
  import opened OwnerRequest

  function Digits(n: nat): string {
    if n < 10 then [n as char + '0'] else Digits(n / 10) + [(n % 10) as char + '0']
  }

  function Quoted(s: string): string {
    "\"" + s + "\""
  }

  function ScopeList(s: seq<string>): string {
    if s == [] then "" else if |s| == 1 then Quoted(s[0]) else Quoted(s[0]) + "," + ScopeList(s[1..])
  }

  function RecoveryJson(r: Option<Receipt>): string {
    match r
    case None => "null"
    case Some(x) =>
      "{\"stopped_writer_evidence_sha256\":\"" + (x.stoppedWriter + "\"" + AfterWriter(x))
  }

  // The text after each field, innermost first. No character of a valid record needs escaping.

  function AfterWriter(x: Receipt): string {
    ",\"provider_quiescence_evidence_sha256\":\"" + (x.providerQuiescence + "\"" + "}")
  }

  function AfterScopes(r: Record): string {
    ",\"recovery\":" + (RecoveryJson(r.recovery) + "}")
  }

  function AfterOperation(r: Record): string {
    ",\"scopes\":[" + (ScopeList(r.scopes) + "]" + AfterScopes(r))
  }

  function AfterState(r: Record): string {
    ",\"operation\":\"" + (r.operation + "\"" + AfterOperation(r))
  }

  function StateText(owned: bool): string {
    if owned then "owned" else "released"
  }

  function AfterOwner(r: Record): string {
    ",\"state\":\"" + (StateText(r.owned) + "\"" + AfterState(r))
  }

  function AfterGeneration(r: Record): string {
    "\"owner_id\":\"" + (r.ownerId + "\"" + AfterOwner(r))
  }

  /** The stored text of a record. */
  function Json(r: Record): string {
    "{\"format_version\":1,\"generation\":" + (Digits(r.generation) + "," + AfterGeneration(r))
  }

  function Pow10(k: nat): nat {
    if k == 0 then 1 else 10 * Pow10(k - 1)
  }

  lemma {:induction false} DigitsBounded(n: nat, k: nat)
    requires k > 0 && n < Pow10(k)
    ensures |Digits(n)| <= k
  {
    if n >= 10 { DigitsBounded(n / 10, k - 1); }
  }

  lemma U64Digits(n: nat)
    requires n <= MAX_U64
    ensures |Digits(n)| <= 20
  {
    assert Pow10(5) == 100_000;
    assert Pow10(10) == 10_000_000_000 by { assert Pow10(8) == 100_000_000; }
    assert Pow10(15) == 1_000_000_000_000_000 by { assert Pow10(12) == 1_000_000_000_000; }
    assert Pow10(20) == 100_000_000_000_000_000_000 by { assert Pow10(18) == 1_000_000_000_000_000_000; }
    DigitsBounded(n, 20);
  }

  lemma {:induction false} ScopeListBounded(s: seq<string>)
    ensures |ScopeList(s)| <= Bytes(s) + 3 * |s|
  {
    if |s| > 1 {
      ScopeListBounded(s[1..]);
    } else if |s| == 1 {
      assert Bytes(s[1..]) == 0;
    }
  }

  /** Every record that acquire, release or an operator release builds from a normalized request
      validates, and its text is within the record limit: size can never block a release. */
  lemma BuiltRecordsFit(op: string, scopes: seq<string>, r: Record)
    requires Normalize(op, scopes).Some? && r.operation == op && r.scopes == Normalize(op, scopes).value
    requires r.formatVersion == 1 && 0 < r.generation <= MAX_U64 && IdOk(r.ownerId)
    requires r.recovery.Some? ==> !r.owned && DigestOk(r.recovery.value.stoppedWriter) && DigestOk(r.recovery.value.providerQuiescence)
    ensures Validates(r) && |Json(r)| <= MAX_RECORD_BYTES
  {
    NormalizeIsIdempotent(op, scopes);
    U64Digits(r.generation);
    ScopeListBounded(r.scopes);
    assert |RecoveryJson(r.recovery)| <= 300;
    assert |AfterScopes(r)| <= 320;
    assert |AfterOperation(r)| <= |ScopeList(r.scopes)| + 340;
    assert |AfterOwner(r)| <= |ScopeList(r.scopes)| + 500;
  }

  // ------------------------------------------------- the text determines the record

  predicate Free(s: string, c: char) {
    forall i :: 0 <= i < |s| ==> s[i] != c
  }

  /** What stands before the first separator is determined. */
  lemma {:induction false} SplitAt(a: string, b: string, c: char, x: string, y: string)
    requires Free(a, c) && Free(b, c) && a + [c] + x == b + [c] + y
    ensures a == b && x == y
  {
    var s := a + [c] + x;
    var t := b + [c] + y;
    assert s[|a|] == c && t[|b|] == c;
    assert forall i :: 0 <= i < |a| ==> s[i] == a[i];
    assert forall i :: 0 <= i < |b| ==> t[i] == b[i];
    assert |a| == |b|;
    assert a == s[..|a|] && b == t[..|b|];
    assert x == s[|a| + 1..] && y == t[|b| + 1..];
  }

  lemma SplitAfter(p: string, x: string, y: string)
    requires p + x == p + y
    ensures x == y
  {
    assert x == (p + x)[|p|..] && y == (p + y)[|p|..];
  }

  lemma {:induction false} DigitsAreDigits(n: nat)
    ensures Digits(n) != [] && forall i :: 0 <= i < |Digits(n)| ==> '0' <= Digits(n)[i] <= '9'
  {
    if n >= 10 { DigitsAreDigits(n / 10); }
  }

  lemma {:induction false} DigitsDetermine(n: nat, m: nat)
    requires Digits(n) == Digits(m)
    ensures n == m
  {
    DigitsAreDigits(n / 10);
    DigitsAreDigits(m / 10);
    var d := Digits(n);
    assert d[|d| - 1] == (n % 10) as char + '0' && d[|d| - 1] == (m % 10) as char + '0';
    if n >= 10 {
      assert Digits(n / 10) == d[..|d| - 1];
      assert m >= 10 && Digits(m / 10) == d[..|d| - 1];
      DigitsDetermine(n / 10, m / 10);
    }
  }

  ghost predicate PlainList(s: seq<string>) {
    forall i :: 0 <= i < |s| ==> Free(s[i], '"') && Free(s[i], ']')
  }

  lemma {:induction false} ScopeListFree(s: seq<string>)
    requires PlainList(s)
    ensures Free(ScopeList(s), ']')
  {
    if |s| > 1 { ScopeListFree(s[1..]); }
  }

  lemma {:induction false} ScopesDetermine(s: seq<string>, t: seq<string>)
    requires s != [] && t != [] && PlainList(s) && PlainList(t) && ScopeList(s) == ScopeList(t)
    ensures s == t
  {
    var x := if |s| == 1 then "" else "," + ScopeList(s[1..]);
    var y := if |t| == 1 then "" else "," + ScopeList(t[1..]);
    assert ScopeList(s) == "\"" + (s[0] + "\"" + x) && ScopeList(t) == "\"" + (t[0] + "\"" + y);
    SplitAfter("\"", s[0] + "\"" + x, t[0] + "\"" + y);
    SplitAt(s[0], t[0], '"', x, y);
    if |s| > 1 {
      SplitAfter(",", ScopeList(s[1..]), ScopeList(t[1..]));
      ScopesDetermine(s[1..], t[1..]);
    }
    assert s == [s[0]] + s[1..] && t == [t[0]] + t[1..];
  }

  lemma RecoveryDetermines(a: Option<Receipt>, b: Option<Receipt>)
    requires a.Some? ==> Free(a.value.stoppedWriter, '"') && Free(a.value.providerQuiescence, '"')
    requires b.Some? ==> Free(b.value.stoppedWriter, '"') && Free(b.value.providerQuiescence, '"')
    requires RecoveryJson(a) == RecoveryJson(b)
    ensures a == b
  {
    assert RecoveryJson(a)[0] == if a.None? then 'n' else '{';
    assert RecoveryJson(b)[0] == if b.None? then 'n' else '{';
    if a.Some? { ReceiptDetermines(a.value, b.value); }
  }

  lemma ReceiptDetermines(x: Receipt, y: Receipt)
    requires Free(x.stoppedWriter, '"') && Free(x.providerQuiescence, '"') && Free(y.stoppedWriter, '"') && Free(y.providerQuiescence, '"')
    requires RecoveryJson(Some(x)) == RecoveryJson(Some(y))
    ensures x == y
  {
    SplitAfter("{\"stopped_writer_evidence_sha256\":\"", x.stoppedWriter + "\"" + AfterWriter(x), y.stoppedWriter + "\"" + AfterWriter(y));
    SplitAt(x.stoppedWriter, y.stoppedWriter, '"', AfterWriter(x), AfterWriter(y));
    SplitAfter(",\"provider_quiescence_evidence_sha256\":\"", x.providerQuiescence + "\"" + "}", y.providerQuiescence + "\"" + "}");
    SplitAt(x.providerQuiescence, y.providerQuiescence, '"', "}", "}");
  }

  lemma AfterScopesDetermines(r: Record, s: Record)
    requires Validates(r) && Validates(s) && AfterScopes(r) == AfterScopes(s)
    ensures r.recovery == s.recovery
  {
    ValidatedIsPlain(r);
    ValidatedIsPlain(s);
    SplitAfter(",\"recovery\":", RecoveryJson(r.recovery) + "}", RecoveryJson(s.recovery) + "}");
    assert RecoveryJson(r.recovery) == (RecoveryJson(r.recovery) + "}")[..|RecoveryJson(r.recovery)|];
    assert RecoveryJson(s.recovery) == (RecoveryJson(s.recovery) + "}")[..|RecoveryJson(s.recovery)|];
    RecoveryDetermines(r.recovery, s.recovery);
  }

  lemma AfterOperationDetermines(r: Record, s: Record)
    requires Validates(r) && Validates(s) && AfterOperation(r) == AfterOperation(s)
    ensures r.scopes == s.scopes && r.recovery == s.recovery
  {
    ScopesArePlain(r);
    ScopesArePlain(s);
    SplitAfter(",\"scopes\":[", ScopeList(r.scopes) + "]" + AfterScopes(r), ScopeList(s.scopes) + "]" + AfterScopes(s));
    ScopeListFree(r.scopes);
    ScopeListFree(s.scopes);
    SplitAt(ScopeList(r.scopes), ScopeList(s.scopes), ']', AfterScopes(r), AfterScopes(s));
    ScopesDetermine(r.scopes, s.scopes);
    AfterScopesDetermines(r, s);
  }

  lemma ScopesArePlain(r: Record)
    requires Validates(r)
    ensures r.scopes != [] && PlainList(r.scopes)
  {
    ValidatedIsPlain(r);
    var t := NormalizeAll(r.scopes).value;
    NormalizeAllIff(r.scopes, t);
    forall i | 0 <= i < |r.scopes| ensures Free(r.scopes[i], ']') { assert AcceptedAs(r.scopes[i], t[i]); }
  }

  lemma AfterOwnerDetermines(r: Record, s: Record)
    requires Validates(r) && Validates(s) && AfterOwner(r) == AfterOwner(s)
    ensures r.owned == s.owned && r.operation == s.operation && r.scopes == s.scopes && r.recovery == s.recovery
  {
    assert Free(StateText(true), '"') && Free(StateText(false), '"');
    SplitAfter(",\"state\":\"", StateText(r.owned) + "\"" + AfterState(r), StateText(s.owned) + "\"" + AfterState(s));
    SplitAt(StateText(r.owned), StateText(s.owned), '"', AfterState(r), AfterState(s));
    assert StateText(true)[0] != StateText(false)[0];
    AfterStateDetermines(r, s);
  }

  lemma AfterStateDetermines(r: Record, s: Record)
    requires Validates(r) && Validates(s) && AfterState(r) == AfterState(s)
    ensures r.operation == s.operation && r.scopes == s.scopes && r.recovery == s.recovery
  {
    ValidatedIsPlain(r);
    ValidatedIsPlain(s);
    SplitAfter(",\"operation\":\"", r.operation + "\"" + AfterOperation(r), s.operation + "\"" + AfterOperation(s));
    SplitAt(r.operation, s.operation, '"', AfterOperation(r), AfterOperation(s));
    AfterOperationDetermines(r, s);
  }

  /** Different valid records have different texts, so a version that digests the text stands for the
      whole record. */
  lemma JsonDetermines(r: Record, s: Record)
    requires Validates(r) && Validates(s) && Json(r) == Json(s)
    ensures r == s
  {
    ValidatedIsPlain(r);
    ValidatedIsPlain(s);
    SplitAfter("{\"format_version\":1,\"generation\":", Digits(r.generation) + "," + AfterGeneration(r), Digits(s.generation) + "," + AfterGeneration(s));
    DigitsAreDigits(r.generation);
    DigitsAreDigits(s.generation);
    SplitAt(Digits(r.generation), Digits(s.generation), ',', AfterGeneration(r), AfterGeneration(s));
    DigitsDetermine(r.generation, s.generation);
    SplitAfter("\"owner_id\":\"", r.ownerId + "\"" + AfterOwner(r), s.ownerId + "\"" + AfterOwner(s));
    SplitAt(r.ownerId, s.ownerId, '"', AfterOwner(r), AfterOwner(s));
    AfterOwnerDetermines(r, s);
  }
}
