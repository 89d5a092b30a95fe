/** The base64 decoder of the replay fixtures, against section 4 of RFC 4648. */
module Base64 {
  import opened Wrappers

  type Byte = b: nat | b < 256
  const PAD: Byte := 61

  // ------------------------------------------------- the alphabet

  function Value(c: Byte): (v: Option<nat>)
    ensures v.Some? ==> v.value < 64
  {
    if 65 <= c <= 90 then Some(c - 65)
    else if 97 <= c <= 122 then Some(c - 97 + 26)
    else if 48 <= c <= 57 then Some(c - 48 + 52)
    else if c == 43 then Some(62)
    else if c == 47 then Some(63)
    else None
  }

  function Symbol(v: nat): Byte
    requires v < 64
  {
    if v < 26 then v + 65 else if v < 52 then v - 26 + 97 else if v < 62 then v - 52 + 48 else if v == 62 then 43 else 47
  }

  lemma AlphabetInverts(v: nat, c: Byte)
    ensures v < 64 ==> Value(Symbol(v)) == Some(v) && Symbol(v) != PAD
    ensures Value(c).Some? ==> Value(c).value < 64 && Symbol(Value(c).value) == c && c != PAD
  {
  }

  // ------------------------------------------------- encoding

  function High(a: Byte): (v: nat)
    ensures v < 64
  {
    a / 4
  }

  function Cross(a: Byte, b: Byte): (v: nat)
    ensures v < 64
  {
    a % 4 * 16 + b / 16
  }

  function Span(b: Byte, c: Byte): (v: nat)
    ensures v < 64
  {
    b % 16 * 4 + c / 64
  }

  /** Four symbols for up to three bytes; the missing bytes are zero and their symbols padding. */
  function EncodeGroup(b: seq<Byte>): (g: seq<Byte>)
    requires 1 <= |b| <= 3
    ensures |g| == 4
  {
    var b1 := if |b| > 1 then b[1] else 0;
    var b2 := if |b| > 2 then b[2] else 0;
    [Symbol(High(b[0])), Symbol(Cross(b[0], b1)),
     if |b| > 1 then Symbol(Span(b1, b2)) else PAD,
     if |b| > 2 then Symbol(b2 % 64) else PAD]
  }

  function Encode(b: seq<Byte>): seq<Byte> {
    if b == [] then []
    else if |b| <= 3 then EncodeGroup(b)
    else EncodeGroup(b[..3]) + Encode(b[3..])
  }

  // ------------------------------------------------- decoding

  /** The low three bytes of a 32-bit word, most significant first. */
  function LowBytes(w: nat): seq<Byte> {
    [w / 65536 % 256, w / 256 % 256, w % 256]
  }

  /** Base-64 digits in order, or None when one is not in the alphabet. */
  function Word(g: seq<Byte>): Option<nat> {
    if g == [] then Some(0)
    else
      match (Word(g[..|g| - 1]), Value(g[|g| - 1]))
      case (Some(w), Some(v)) => Some(w * 64 + v)
      case _ => None
  }

  /** Trailing padding symbols of a group of four. */
  function Padding(g: seq<Byte>): nat
    requires |g| == 4
  {
    if g[3] != PAD then 0 else if g[2] != PAD then 1 else if g[1] != PAD then 2 else if g[0] != PAD then 3 else 4
  }

  function DecodeGroup(g: seq<Byte>, last: bool): Option<seq<Byte>>
    requires |g| == 4
  {
    var pad := Padding(g);
    if pad > 2 || (pad > 0 && !last) then None
    else
      match Word(g[..4 - pad])
      case None => None
      case Some(w) => Some(LowBytes(if pad == 0 then w else if pad == 1 then w * 64 else w * 4096)[..3 - pad])
  }

  function Join(a: Option<seq<Byte>>, b: Option<seq<Byte>>): Option<seq<Byte>> {
    if a.Some? && b.Some? then Some(a.value + b.value) else None
  }

  function DecodeGroups(s: seq<Byte>): Option<seq<Byte>>
    requires |s| % 4 == 0
  {
    if s == [] then Some([]) else Join(DecodeGroup(s[..4], |s| == 4), DecodeGroups(s[4..]))
  }

  function Decode(s: seq<Byte>): Option<seq<Byte>> {
    if |s| % 4 == 0 then DecodeGroups(s) else None
  }

  lemma JoinAssociates(a: Option<seq<Byte>>, b: Option<seq<Byte>>, c: Option<seq<Byte>>)
    ensures Join(Join(a, b), c) == Join(a, Join(b, c)) && Join(Some([]), a) == a && Join(a, Some([])) == a
  {
    if a.Some? {
      assert [] + a.value == a.value && a.value + [] == a.value;
      if b.Some? && c.Some? { assert a.value + b.value + c.value == a.value + (b.value + c.value); }
    }
  }

  lemma ChunkStep(input: seq<Byte>, at: nat, bytes: seq<Byte>)
    requires |input| % 4 == 0 && at % 4 == 0 && at < |input|
    ensures Join(Some(bytes), DecodeGroups(input[at..]))
            == Join(Join(Some(bytes), DecodeGroup(input[at..at + 4], at + 4 == |input|)), DecodeGroups(input[at + 4..]))
  {
    assert input[at..][..4] == input[at..at + 4] && input[at..][4..] == input[at + 4..];
    JoinAssociates(Some(bytes), DecodeGroup(input[at..at + 4], at + 4 == |input|), DecodeGroups(input[at + 4..]));
  }

  /** The chunks before `at` gave `bytes`. */
  ghost predicate DecodedSoFar(input: seq<Byte>, at: nat, bytes: seq<Byte>) {
    |input| % 4 == 0 && at % 4 == 0 && at <= |input| && DecodeGroups(input) == Join(Some(bytes), DecodeGroups(input[at..]))
  }

  lemma NothingYet(input: seq<Byte>)
    requires |input| % 4 == 0
    ensures DecodedSoFar(input, 0, [])
  {
    assert input[0..] == input;
    JoinAssociates(DecodeGroups(input), None, None);
  }

  lemma OneMoreChunk(input: seq<Byte>, at: nat, bytes: seq<Byte>)
    requires DecodedSoFar(input, at, bytes) && at < |input|
    ensures var chunk := DecodeGroup(input[at..at + 4], at + 4 == |input|);
            if chunk.None? then Decode(input) == None else DecodedSoFar(input, at + 4, bytes + chunk.value)
  {
    ChunkStep(input, at, bytes);
  }

  lemma AllDecoded(input: seq<Byte>, bytes: seq<Byte>)
    requires DecodedSoFar(input, |input|, bytes)
    ensures Decode(input) == Some(bytes)
  {
    assert input[|input|..] == [];
    JoinAssociates(Some(bytes), None, None);
  }

  /** The decoder, chunk by chunk. */
  method Base64Decode(input: seq<Byte>) returns (output: Option<seq<Byte>>)
    ensures output == Decode(input)
  {
    if |input| % 4 != 0 { return None; }
    var bytes: seq<Byte> := [];
    var at := 0;
    NothingYet(input);
    while at < |input|
      invariant at <= |input| && DecodedSoFar(input, at, bytes)
    {
      var decoded := DecodeChunk(input[at..at + 4], at + 4 == |input|);
      OneMoreChunk(input, at, bytes);
      if decoded.None? { return None; }
      bytes := bytes + decoded.value;
      at := at + 4;
    }
    AllDecoded(input, bytes);
    output := Some(bytes);
  }

  method CountPadding(chunk: seq<Byte>) returns (pad: nat)
    requires |chunk| == 4
    ensures pad == Padding(chunk)
  {
    pad := 0;
    while pad < 4 && chunk[3 - pad] == PAD
      invariant 0 <= pad <= 4
      invariant forall i :: 4 - pad <= i < 4 ==> chunk[i] == PAD
    {
      pad := pad + 1;
    }
  }

  method ReadWord(symbols: seq<Byte>) returns (word: Option<nat>)
    ensures word == Word(symbols)
  {
    var w := 0;
    for i := 0 to |symbols|
      invariant Word(symbols[..i]) == Some(w)
    {
      assert symbols[..i + 1][..i] == symbols[..i];
      var v := Value(symbols[i]);
      if v.None? {
        BadSymbol(symbols, i);
        return None;
      }
      w := w * 64 + v.value;
    }
    assert symbols[..|symbols|] == symbols;
    word := Some(w);
  }

  method DecodeChunk(chunk: seq<Byte>, last: bool) returns (r: Option<seq<Byte>>)
    requires |chunk| == 4
    ensures r == DecodeGroup(chunk, last)
  {
    var pad := CountPadding(chunk);
    if !(pad <= 2 && (pad == 0 || last)) { return None; }
    var word := ReadWord(chunk[..4 - pad]);
    if word.None? { return None; }
    var shifted := if pad == 0 then word.value else if pad == 1 then word.value * 64 else word.value * 4096;
    r := Some(LowBytes(shifted)[..3 - pad]);
  }

  lemma {:induction false} BadSymbol(g: seq<Byte>, i: nat)
    requires i < |g| && Value(g[i]).None?
    ensures Word(g).None?
  {
    if i < |g| - 1 { BadSymbol(g[..|g| - 1], i); }
  }

  // ------------------------------------------------- round trip

  lemma SplitBytes(a: Byte, b: Byte, c: Byte)
    ensures LowBytes(a * 65536 + b * 256 + c) == [a, b, c]
  {
    var w := a * 65536 + b * 256 + c;
    assert w / 256 == a * 256 + b && w % 256 == c;
    assert w / 65536 == a && (a * 256 + b) % 256 == b;
  }

  /** Six-bit digits of three bytes make up the same word. */
  lemma WordOfBytes(a: Byte, b: Byte, c: Byte)
    ensures ((High(a) * 64 + Cross(a, b)) * 64 + Span(b, c)) * 64 + c % 64 == a * 65536 + b * 256 + c
  {
    assert a == 4 * (a / 4) + a % 4 && b == 16 * (b / 16) + b % 16 && c == 64 * (c / 64) + c % 64;
  }

  /** The word of two, three or four digits. */
  lemma WordOfDigits(g: seq<Byte>, u: nat, v: nat)
    requires |g| == 4 && Value(g[0]) == Some(u) && Value(g[1]) == Some(v)
    ensures Word(g[..2]) == Some(u * 64 + v)
    ensures Value(g[2]).Some? ==> Word(g[..3]) == Some((u * 64 + v) * 64 + Value(g[2]).value)
    ensures Value(g[2]).Some? && Value(g[3]).Some?
            ==> Word(g[..4]) == Some(((u * 64 + v) * 64 + Value(g[2]).value) * 64 + Value(g[3]).value)
  {
    WordGrows(g, 1);
    WordGrows(g, 2);
    WordGrows(g, 3);
    WordGrows(g, 4);
  }

  lemma WordGrows(g: seq<Byte>, n: nat)
    requires 0 < n <= |g|
    ensures Word(g[..0]) == Some(0)
    ensures Word(g[..n - 1]).Some? && Value(g[n - 1]).Some?
            ==> Word(g[..n]) == Some(Word(g[..n - 1]).value * 64 + Value(g[n - 1]).value)
  {
    assert g[..n][..n - 1] == g[..n - 1];
  }

  /** What a group of encoded digits decodes to, as a word. */
  lemma GroupWord(g: seq<Byte>, n: nat, last: bool, word: nat)
    requires |g| == 4 && 1 <= n <= 3 && (last || n == 3) && Padding(g) == 3 - n && Word(g[..n + 1]) == Some(word)
    ensures DecodeGroup(g, last) == Some(LowBytes(if n == 3 then word else if n == 2 then word * 64 else word * 4096)[..n])
  {
  }

  lemma EncodedPadding(b: seq<Byte>)
    requires 1 <= |b| <= 3
    ensures Padding(EncodeGroup(b)) == 3 - |b|
  {
    var b1 := if |b| > 1 then b[1] else 0;
    var b2 := if |b| > 2 then b[2] else 0;
    AlphabetInverts(Cross(b[0], b1), 0);
    AlphabetInverts(Span(b1, b2), 0);
    AlphabetInverts(b2 % 64, 0);
  }

  lemma EncodedDigits(b: seq<Byte>, b1: Byte, b2: Byte)
    requires 1 <= |b| <= 3 && b1 == (if |b| > 1 then b[1] else 0) && b2 == (if |b| > 2 then b[2] else 0)
    ensures var g := EncodeGroup(b);
            && Value(g[0]) == Some(High(b[0])) && Value(g[1]) == Some(Cross(b[0], b1))
            && (|b| > 1 ==> Value(g[2]) == Some(Span(b1, b2))) && (|b| > 2 ==> Value(g[3]) == Some(b2 % 64))
  {
    AlphabetInverts(High(b[0]), 0);
    AlphabetInverts(Cross(b[0], b1), 0);
    AlphabetInverts(Span(b1, b2), 0);
    AlphabetInverts(b2 % 64, 0);
  }

  /** The word of the n + 1 digits that carry n bytes. */
  ghost function DigitWord(n: nat, u: nat, v: nat, x: nat, y: nat): nat {
    var two := u * 64 + v;
    if n == 1 then two else if n == 2 then two * 64 + x else (two * 64 + x) * 64 + y
  }

  /** Shifted past the missing bytes, the digits are the word of the bytes. */
  lemma ShiftedWord(n: nat, a: Byte, b: Byte, c: Byte)
    requires 1 <= n <= 3 && (n < 2 ==> b == 0) && (n < 3 ==> c == 0)
    ensures var w := DigitWord(n, High(a), Cross(a, b), Span(b, c), c % 64);
            (if n == 3 then w else if n == 2 then w * 64 else w * 4096) == a * 65536 + b * 256 + c
  {
    WordOfBytes(a, b, c);
  }

  lemma EncodedWord(g: seq<Byte>, n: nat, u: nat, v: nat, x: nat, y: nat)
    requires |g| == 4 && 1 <= n <= 3
    requires Value(g[0]) == Some(u) && Value(g[1]) == Some(v)
    requires (n > 1 ==> Value(g[2]) == Some(x)) && (n > 2 ==> Value(g[3]) == Some(y))
    ensures Word(g[..n + 1]) == Some(DigitWord(n, u, v, x, y))
  {
    WordOfDigits(g, u, v);
  }

  /** A group decodes to the bytes it encodes; a full group also in the middle. */
  lemma GroupRoundTrip(b: seq<Byte>, last: bool)
    requires 1 <= |b| <= 3 && (last || |b| == 3)
    ensures DecodeGroup(EncodeGroup(b), last) == Some(b)
  {
    var b1: Byte := if |b| > 1 then b[1] else 0;
    var b2: Byte := if |b| > 2 then b[2] else 0;
    EncodedPadding(b);
    EncodedDigits(b, b1, b2);
    EncodedWord(EncodeGroup(b), |b|, High(b[0]), Cross(b[0], b1), Span(b1, b2), b2 % 64);
    ShiftedWord(|b|, b[0], b1, b2);
    GroupWord(EncodeGroup(b), |b|, last, Word(EncodeGroup(b)[..|b| + 1]).value);
    SplitBytes(b[0], b1, b2);
    assert b == [b[0], b1, b2][..|b|];
  }

  /** A decoded group followed by a decoded rest. */
  lemma DecodeInParts(g: seq<Byte>, rest: seq<Byte>, head: seq<Byte>, tail: seq<Byte>)
    requires |g| == 4 && DecodeGroup(g, rest == []) == Some(head) && Decode(rest) == Some(tail)
    ensures Decode(g + rest) == Some(head + tail)
  {
    assert (g + rest)[..4] == g && (g + rest)[4..] == rest;
  }

  /** Decoding inverts encoding for every byte sequence. */
  lemma {:induction false} DecodeEncode(b: seq<Byte>)
    ensures Decode(Encode(b)) == Some(b)
  {
    if b != [] {
      var n := if |b| <= 3 then |b| else 3;
      var rest := Encode(b[n..]);
      DecodeEncode(b[n..]);
      assert rest == [] <==> b[n..] == [];
      GroupRoundTrip(b[..n], rest == []);
      DecodeInParts(EncodeGroup(b[..n]), rest, b[..n], b[n..]);
      assert b[..n] + b[n..] == b;
      assert |b| <= 3 ==> b[..n] == b && EncodeGroup(b) + rest == EncodeGroup(b);
    }
  }

  // ------------------------------------------------- what is accepted

  lemma AcceptedGroup(g: seq<Byte>, last: bool)
    requires |g| == 4 && DecodeGroup(g, last).Some?
    ensures Padding(g) <= 2 && (Padding(g) > 0 ==> last)
    ensures |DecodeGroup(g, last).value| == 3 - Padding(g)
    ensures forall i :: 0 <= i < 4 && g[i] == PAD ==> i >= 4 - Padding(g)
  {
    forall i | 0 <= i < 4 - Padding(g) ensures g[i] != PAD {
      if g[i] == PAD { BadSymbol(g[..4 - Padding(g)], i); }
    }
  }

  lemma OneGroup(s: seq<Byte>)
    requires |s| == 4
    ensures Decode(s) == DecodeGroup(s, true)
  {
    assert s[..4] == s && s[4..] == [];
    assert DecodeGroups(s[4..]) == Some([]);
    JoinAssociates(DecodeGroup(s, true), None, None);
  }

  /** Padding stands only at the very end of the input. */
  ghost predicate PadsAtEnd(s: seq<Byte>, pad: nat) {
    forall i :: 0 <= i < |s| && s[i] == PAD ==> i >= |s| - pad
  }

  lemma PadsAfterGroup(s: seq<Byte>, pad: nat)
    requires |s| > 4 && PadsAtEnd(s[4..], pad) && forall i :: 0 <= i < 4 ==> s[i] != PAD
    ensures PadsAtEnd(s, pad)
  {
    forall i | 0 <= i < |s| && s[i] == PAD ensures i >= |s| - pad {
      assert s[4..][i - 4] == PAD;
    }
  }

  /** A longer accepted input is an accepted inner group and an accepted rest. */
  lemma AcceptedSplits(s: seq<Byte>)
    requires Decode(s).Some? && |s| > 4
    ensures |s| % 4 == 0 && DecodeGroup(s[..4], false).Some? && Decode(s[4..]).Some?
    ensures |Decode(s).value| == |DecodeGroup(s[..4], false).value| + |Decode(s[4..]).value|
  {
  }

  /** An accepted input has a length divisible by four, padding only in its last group, at most two
      symbols of it, and yields three bytes for four symbols less the padding. */
  lemma {:induction false} AcceptedShape(s: seq<Byte>)
    requires Decode(s).Some? && s != []
    ensures |s| % 4 == 0 && Padding(s[|s| - 4..]) <= 2 && PadsAtEnd(s, Padding(s[|s| - 4..]))
    ensures |Decode(s).value| == 3 * (|s| / 4) - Padding(s[|s| - 4..])
  {
    if |s| == 4 {
      OneGroup(s);
      AcceptedGroup(s, true);
      assert s[|s| - 4..] == s;
    } else {
      AcceptedSplits(s);
      AcceptedGroup(s[..4], false);
      AcceptedShape(s[4..]);
      assert s[4..][|s| - 8..] == s[|s| - 4..];
      assert forall i :: 0 <= i < 4 ==> s[..4][i] == s[i];
      PadsAfterGroup(s, Padding(s[|s| - 4..]));
    }
  }

  // ------------------------------------------------- exactly what is accepted, and as what

  /** Table 1 of RFC 4648: A to Z, a to z, 0 to 9, + and /, padded with =. */
  lemma AlphabetIsTable1(v: nat)
    requires v < 64
    ensures Symbol(v) == if v < 26 then 'A' as int + v else if v < 52 then 'a' as int + (v - 26)
                         else if v < 62 then '0' as int + (v - 52) else if v == 62 then '+' as int else '/' as int
    ensures PAD == '=' as int
  {
  }

  lemma {:induction false} WordIff(g: seq<Byte>)
    ensures Word(g).Some? <==> forall i :: 0 <= i < |g| ==> Value(g[i]).Some?
  {
    if g != [] {
      WordIff(g[..|g| - 1]);
      assert forall i :: 0 <= i < |g| - 1 ==> g[..|g| - 1][i] == g[i];
    }
  }

  /** All symbols but the last `pad` are in the alphabet. */
  ghost predicate InAlphabet(s: seq<Byte>, pad: nat) {
    forall i :: 0 <= i < |s| - pad ==> Value(s[i]).Some?
  }

  lemma GroupIff(g: seq<Byte>, last: bool)
    requires |g| == 4
    ensures DecodeGroup(g, last).Some? <==> Padding(g) <= 2 && (last || Padding(g) == 0) && InAlphabet(g, Padding(g))
  {
    if Padding(g) <= 2 { WordIff(g[..4 - Padding(g)]); }
  }

  /** The padding of an input: that of its last group. */
  ghost function PaddingOf(s: seq<Byte>): nat {
    if |s| < 4 then 0 else Padding(s[|s| - 4..])
  }

  /** An input is accepted exactly when its length is a multiple of four, at most two padding symbols end
      it and every other symbol is in the alphabet. */
  lemma {:induction false} AcceptedIff(s: seq<Byte>)
    ensures Decode(s).Some? <==> |s| % 4 == 0 && PaddingOf(s) <= 2 && InAlphabet(s, PaddingOf(s))
  {
    if |s| % 4 == 0 && |s| == 4 {
      OneGroup(s);
      GroupIff(s, true);
      assert s[|s| - 4..] == s;
    } else if |s| % 4 == 0 && |s| > 4 {
      AcceptedIff(s[4..]);
      GroupIff(s[..4], false);
      assert s[4..][|s| - 8..] == s[|s| - 4..];
      FirstGroupHasNoPadding(s);
      AcceptedTail(s, PaddingOf(s));
    }
  }

  lemma FirstGroupHasNoPadding(s: seq<Byte>)
    requires |s| > 4
    ensures InAlphabet(s[..4], 0) ==> Padding(s[..4]) == 0
  {
    AlphabetInverts(0, s[..4][3]);
  }

  lemma AcceptedTail(s: seq<Byte>, pad: nat)
    requires |s| >= 8 && pad <= 4
    ensures InAlphabet(s, pad) <==> InAlphabet(s[..4], 0) && InAlphabet(s[4..], pad)
  {
    if InAlphabet(s[..4], 0) && InAlphabet(s[4..], pad) {
      forall i | 0 <= i < |s| - pad ensures Value(s[i]).Some? {
        if i < 4 { assert s[..4][i] == s[i]; } else { assert s[4..][i - 4] == s[i]; }
      }
    }
    if InAlphabet(s, pad) {
      forall i | 0 <= i < |s[4..]| - pad ensures Value(s[4..][i]).Some? { assert s[4..][i] == s[i + 4]; }
    }
  }

  // The bytes of four digits.

  lemma BytesOfDigits(u: nat, v: nat, x: nat, y: nat)
    requires u < 64 && v < 64 && x < 64 && y < 64
    ensures var a, b, c := u * 4 + v / 16, v % 16 * 16 + x / 4, x % 4 * 64 + y;
            && a < 256 && b < 256 && c < 256
            && ((u * 64 + v) * 64 + x) * 64 + y == a * 65536 + b * 256 + c
            && a / 4 == u && a % 4 * 16 + b / 16 == v && b % 16 * 4 + c / 64 == x && c % 64 == y
  {
    assert v == v / 16 * 16 + v % 16 && x == x / 4 * 4 + x % 4;
  }

  /** The digit before the padding, without the bits that no byte uses. */
  ghost function Cleared(v: nat, pad: nat): nat {
    if pad == 0 then v else if pad == 1 then v - v % 4 else v - v % 16
  }

  ghost function CanonicalGroup(g: seq<Byte>): seq<Byte> {
    if |g| == 4 && Padding(g) <= 2 && Value(g[3 - Padding(g)]).Some?
    then g[3 - Padding(g) := Symbol(Cleared(Value(g[3 - Padding(g)]).value, Padding(g)))]
    else g
  }

  /** The bytes of the first `n + 1` digits, the others being zero. */
  ghost function BytesOf(u: nat, v: nat, x: nat, y: nat): (b: seq<nat>)
    ensures |b| == 3
  {
    [u * 4 + v / 16, v % 16 * 16 + x / 4, x % 4 * 64 + y]
  }

  /** What a group of digits decodes to. */
  lemma DecodesTo(g: seq<Byte>, last: bool, n: nat, u: nat, v: nat, x: nat, y: nat)
    requires |g| == 4 && 1 <= n <= 3 && (last || n == 3) && Padding(g) == 3 - n && u < 64 && v < 64 && x < 64 && y < 64
    requires Value(g[0]) == Some(u) && Value(g[1]) == Some(v)
    requires if n > 1 then Value(g[2]) == Some(x) else x == 0
    requires if n > 2 then Value(g[3]) == Some(y) else y == 0
    ensures DecodeGroup(g, last) == Some(BytesOf(u, v, x, y)[..n])
  {
    EncodedWord(g, n, u, v, x, y);
    GroupWord(g, n, last, DigitWord(n, u, v, x, y));
    FullWord(n, u, v, x, y);
  }

  lemma FullWord(n: nat, u: nat, v: nat, x: nat, y: nat)
    requires 1 <= n <= 3 && u < 64 && v < 64 && x < 64 && y < 64 && (n < 2 ==> x == 0) && (n < 3 ==> y == 0)
    ensures var w := DigitWord(n, u, v, x, y);
            LowBytes(if n == 3 then w else if n == 2 then w * 64 else w * 4096) == BytesOf(u, v, x, y)
  {
    var w := DigitWord(n, u, v, x, y);
    var b := BytesOf(u, v, x, y);
    WordOfBytesOf(n, u, v, x, y);
    SplitWord(if n == 3 then w else if n == 2 then w * 64 else w * 4096, b[0], b[1], b[2]);
  }

  lemma SplitWord(w: nat, a: Byte, b: Byte, c: Byte)
    requires w == a * 65536 + b * 256 + c
    ensures LowBytes(w) == [a, b, c]
  {
    SplitBytes(a, b, c);
  }

  lemma WordOfBytesOf(n: nat, u: nat, v: nat, x: nat, y: nat)
    requires 1 <= n <= 3 && u < 64 && v < 64 && x < 64 && y < 64 && (n < 2 ==> x == 0) && (n < 3 ==> y == 0)
    ensures var w, b := DigitWord(n, u, v, x, y), BytesOf(u, v, x, y);
            && b[0] < 256 && b[1] < 256 && b[2] < 256
            && (if n == 3 then w else if n == 2 then w * 64 else w * 4096) == b[0] * 65536 + b[1] * 256 + b[2]
  {
    BytesOfDigits(u, v, x, y);
  }

  lemma DigitsOfBytes(a: Byte, b: Byte, c: Byte, u: nat, v: nat, x: nat, y: nat)
    requires a / 4 == u && a % 4 * 16 + b / 16 == v && b % 16 * 4 + c / 64 == x && c % 64 == y
    ensures u < 64 && v < 64 && x < 64 && y < 64 && EncodeGroup([a, b, c]) == [Symbol(u), Symbol(v), Symbol(x), Symbol(y)]
  {
    assert High(a) == u && Cross(a, b) == v && Span(b, c) == x;
  }

  lemma UnusedBits(v: nat, x: nat)
    requires v < 64 && x < 64
    ensures (v % 16 * 16 + x / 4) % 16 * 4 == Cleared(x, 1) && v / 16 * 16 == Cleared(v, 2)
  {
  }

  lemma GroupBack(g: seq<Byte>, last: bool)
    requires |g| == 4 && DecodeGroup(g, last).Some?
    ensures Padding(g) <= 2 && Value(g[3 - Padding(g)]).Some?
    ensures 1 <= |DecodeGroup(g, last).value| <= 3 && EncodeGroup(DecodeGroup(g, last).value) == CanonicalGroup(g)
  {
    GroupIff(g, last);
    var n := 3 - Padding(g);
    forall i | 0 <= i <= n ensures Value(g[i]).Some? && Value(g[i]).value < 64 && Symbol(Value(g[i]).value) == g[i] {
      AlphabetInverts(0, g[i]);
    }
    var u, v := Value(g[0]).value, Value(g[1]).value;
    var x := if n > 1 then Value(g[2]).value else 0;
    var y := if n > 2 then Value(g[3]).value else 0;
    DecodesTo(g, last, n, u, v, x, y);
    EncodesBack(g, n, u, v, x, y);
  }

  lemma EncodesBack(g: seq<Byte>, n: nat, u: nat, v: nat, x: nat, y: nat)
    requires |g| == 4 && 1 <= n <= 3 && Padding(g) == 3 - n && u < 64 && v < 64 && x < 64 && y < 64
    requires Symbol(u) == g[0] && Symbol(v) == g[1] && Value(g[n]).Some?
    requires if n > 1 then Symbol(x) == g[2] else x == 0
    requires if n > 2 then Symbol(y) == g[3] else y == 0
    requires Value(g[n]).value == if n == 1 then v else if n == 2 then x else y
    ensures EncodeGroup(BytesOf(u, v, x, y)[..n]) == CanonicalGroup(g)
  {
    BytesOfDigits(u, v, x, y);
    UnusedBits(v, x);
    var a, b, c := u * 4 + v / 16, v % 16 * 16 + x / 4, x % 4 * 64 + y;
    if n == 3 {
      DigitsOfBytes(a, b, c, u, v, x, y);
      assert BytesOf(u, v, x, y)[..3] == [a, b, c];
    } else if n == 2 {
      assert BytesOf(u, v, x, y)[..2] == [a, b];
      assert Span(b, 0) == Cleared(x, 1) && Cross(a, b) == v && High(a) == u;
    } else {
      assert BytesOf(u, v, x, y)[..1] == [a];
      assert Cross(a, 0) == Cleared(v, 2) && High(a) == u;
    }
  }

  /** The input with the unused bits of its last digit cleared. */
  ghost function Canonical(s: seq<Byte>): seq<Byte> {
    if |s| < 4 then s else s[..|s| - 4] + CanonicalGroup(s[|s| - 4..])
  }

  /** Encoding what was decoded gives the input back, up to bits that no byte uses: with `DecodeEncode`
      this fixes the result of every accepted input. */
  lemma {:induction false} EncodeDecode(s: seq<Byte>)
    requires Decode(s).Some?
    ensures Encode(Decode(s).value) == Canonical(s)
  {
    if s == [] {
    } else if |s| == 4 {
      OneGroup(s);
      GroupBack(s, true);
      assert s[|s| - 4..] == s && s[..|s| - 4] == [];
    } else {
      AcceptedSplits(s);
      EncodeDecode(s[4..]);
      FullFirstGroup(s);
      CanonicalTail(s);
    }
  }

  lemma FullFirstGroup(s: seq<Byte>)
    requires Decode(s).Some? && |s| > 4 && Decode(s[4..]).Some?
    ensures Encode(Decode(s).value) == s[..4] + Encode(Decode(s[4..]).value)
  {
    AcceptedSplits(s);
    var head, tail := DecodeGroup(s[..4], false).value, Decode(s[4..]).value;
    GroupBack(s[..4], false);
    GroupIff(s[..4], false);
    AlphabetInverts(0, s[..4][3]);
    AcceptedGroup(s[..4], false);
    AcceptedShape(s[4..]);
    assert Decode(s).value == head + tail;
    assert (head + tail)[..3] == head && (head + tail)[3..] == tail;
    assert CanonicalGroup(s[..4]) == s[..4];
  }

  lemma CanonicalTail(s: seq<Byte>)
    requires |s| >= 8
    ensures Canonical(s) == s[..4] + Canonical(s[4..])
  {
    assert s[4..][|s| - 8..] == s[|s| - 4..];
    assert s[..|s| - 4] == s[..4] + s[4..][..|s| - 8];
  }
}
