/** What several modules use: the width of the counters, the evidence of an operator release and
    the order of byte strings. */
module Shared {
  const MAX_U64: nat := 0xFFFF_FFFF_FFFF_FFFF

  /** Digests of what an operator attested. */
  datatype Receipt = Receipt(stoppedWriter: string, providerQuiescence: string)

  /** Byte strings in lexicographic order. */
  predicate Less(a: string, b: string) {
    b != [] && (a == [] || a[0] < b[0] || (a[0] == b[0] && Less(a[1..], b[1..])))
  }

  lemma {:induction false} LessTransitive(a: string, b: string, c: string)
    ensures Less(a, b) && Less(b, c) ==> Less(a, c)
    ensures !Less(b, a) && !Less(c, b) ==> !Less(c, a)
    decreases |a| + |b| + |c|
  {
    if a != [] && b != [] && c != [] { LessTransitive(a[1..], b[1..], c[1..]); }
  }

  lemma {:induction false} LessTotal(a: string, b: string)
    ensures Less(a, b) || a == b || Less(b, a)
    ensures !(Less(a, b) && Less(b, a)) && !Less(a, a)
    decreases |a| + |b|
  {
    if a != [] { LessIrreflexive(a); }
    if a != [] && b != [] && a[0] == b[0] {
      LessTotal(a[1..], b[1..]);
      assert a == [a[0]] + a[1..] && b == [b[0]] + b[1..];
    }
  }

  lemma {:induction false} LessIrreflexive(a: string)
    ensures !Less(a, a)
  {
    if a != [] { LessIrreflexive(a[1..]); }
  }

  /** `a` comes first when it is a proper prefix of `b`, or has the smaller byte where they first differ. */
  lemma {:induction false} LessIff(a: string, b: string)
    ensures Less(a, b) <==> (a <= b && a != b)
                            || exists i :: 0 <= i < |a| && i < |b| && a[..i] == b[..i] && a[i] < b[i]
  {
    if a != [] && b != [] {
      LessIff(a[1..], b[1..]);
      assert a == [a[0]] + a[1..] && b == [b[0]] + b[1..];
      forall i | 0 < i < |a| && i < |b| && a[..i] == b[..i] ensures a[0] == b[0] { assert a[..i][0] == b[..i][0]; }
      if a[0] < b[0] {
        assert a[..0] == b[..0] && a[0] < b[0];
      } else if a[0] == b[0] {
        SameHead(a, b);
      }
    }
  }

  lemma SameHead(a: string, b: string)
    requires a != [] && b != [] && a[0] == b[0]
    ensures a[1..] <= b[1..] <==> a <= b
    ensures (exists i :: 0 <= i < |a[1..]| && i < |b[1..]| && a[1..][..i] == b[1..][..i] && a[1..][i] < b[1..][i])
            <==> exists i :: 0 <= i < |a| && i < |b| && a[..i] == b[..i] && a[i] < b[i]
  {
    assert a == [a[0]] + a[1..] && b == [b[0]] + b[1..];
    if i :| 0 <= i < |a[1..]| && i < |b[1..]| && a[1..][..i] == b[1..][..i] && a[1..][i] < b[1..][i] {
      assert a[..i + 1] == [a[0]] + a[1..][..i] && b[..i + 1] == [b[0]] + b[1..][..i];
      assert a[i + 1] < b[i + 1];
    }
    if i :| 0 <= i < |a| && i < |b| && a[..i] == b[..i] && a[i] < b[i] {
      assert i > 0;
      assert a[1..][..i - 1] == a[..i][1..] && b[1..][..i - 1] == b[..i][1..];
      assert a[1..][i - 1] < b[1..][i - 1];
    }
  }
}
