/** Base64: the block encoder, which reads one octet past a short last block, and the decoder, which skips
    everything outside the alphabet and looks at one octet past its input. */
module Base64 {
  import opened Wire

  const PAD: byte := 61

  type digit = d: int | 0 <= d < 64

  /** The alphabet: A-Z, a-z, 0-9, plus and slash. */
  function Char(d: digit): byte {
    if d < 26 then 65 + d
    else if d < 52 then 97 + (d - 26)
    else if d < 62 then 48 + (d - 52)
    else if d == 62 then 43
    else 47
  }

  /** The decoding table: one more than the value of a letter of the alphabet, 0 for anything else. */
  function Code(c: byte): (r: int)
    ensures 0 <= r <= 64
  {
    if 65 <= c <= 90 then c - 65 + 1
    else if 97 <= c <= 122 then c - 97 + 27
    else if 48 <= c <= 57 then c - 48 + 53
    else if c == 43 then 63
    else if c == 47 then 64
    else 0
  }

  /** The table inverts the alphabet, and nothing else has a code. */
  lemma CodeOfChar(c: byte, d: digit)
    ensures Code(c) == d + 1 <==> c == Char(d)
  {
  }

  // ---- Encoding ----

  /** Four letters for three octets. */
  function Quad(a: byte, b: byte, c: byte): (r: bytes)
    ensures |r| == 4
  {
    [Char(a / 4), Char(a % 4 * 16 + b / 16), Char(b % 16 * 4 + c / 64), Char(c % 64)]
  }

  /** A string followed in memory by some octet, encoded. */
  function Encode(x: bytes, past: byte): bytes {
    if |x| == 0 then []
    else if |x| == 1 then Quad(x[0], past, 0)[..2] + [PAD, PAD]
    else if |x| == 2 then Quad(x[0], x[1], past)[..3] + [PAD]
    else Quad(x[0], x[1], x[2]) + Encode(x[3..], past)
  }

  /** The encoding of section 4 of RFC 4648: each group of three octets is one number of 24 bits, given by
      its four digits in base 64; a short last group is filled up with zero bits to a whole digit. */
  function Canonical(x: bytes): bytes {
    if |x| == 0 then []
    else if |x| == 1 then
      var n := Word(x[0], 0, 0) / 0x1000;
      [Char(n / 64), Char(n % 64), PAD, PAD]
    else if |x| == 2 then
      var n := Word(x[0], x[1], 0) / 64;
      [Char(n / 64 / 64), Char(n / 64 % 64), Char(n % 64), PAD]
    else
      var n := Word(x[0], x[1], x[2]);
      [Char(n / 64 / 64 / 64), Char(n / 64 / 64 % 64), Char(n / 64 % 64), Char(n % 64)] + Canonical(x[3..])
  }

  function Word(a: int, b: int, c: int): (n: int)
    requires 0 <= a < 256 && 0 <= b < 256 && 0 <= c < 256
    ensures 0 <= n < 0x100_0000
  {
    a * 0x1_0000 + b * 0x100 + c
  }

  /** The digits of the number, from the octets it is made of. */
  lemma WordDigits(a: int, b: int, c: int)
    requires 0 <= a < 256 && 0 <= b < 256 && 0 <= c < 256
    ensures var n := Word(a, b, c);
            && n % 64 == c % 64 && n / 64 == a * 1024 + b * 4 + c / 64
            && n / 64 % 64 == b % 16 * 4 + c / 64 && n / 64 / 64 == a * 16 + b / 16
            && n / 64 / 64 % 64 == a % 4 * 16 + b / 16 && n / 64 / 64 / 64 == a / 4
  {
    WordParts(a / 4, a % 4, b / 16, b % 16, c / 64, c % 64);
  }

  lemma WordParts(aq: int, ar: int, bq: int, br: int, cq: int, cr: int)
    requires 0 <= aq < 64 && 0 <= ar < 4 && 0 <= bq < 16 && 0 <= br < 16 && 0 <= cq < 4 && 0 <= cr < 64
    ensures var a, b, c := 4 * aq + ar, 16 * bq + br, 64 * cq + cr;
            var n := Word(a, b, c);
            && n % 64 == cr && n / 64 == a * 1024 + b * 4 + cq
            && n / 64 % 64 == br * 4 + cq && n / 64 / 64 == a * 16 + bq
            && n / 64 / 64 % 64 == ar * 16 + bq && n / 64 / 64 / 64 == aq
  {
    var a, b, c := 4 * aq + ar, 16 * bq + br, 64 * cq + cr;
    DivRem(Word(a, b, c), a * 1024 + b * 4 + cq, cr);
    DivRem(a * 1024 + b * 4 + cq, a * 16 + bq, br * 4 + cq);
    DivRem(a * 16 + bq, aq, ar * 16 + bq);
  }

  lemma DivRem(n: int, q: int, r: int)
    requires n == 64 * q + r && 0 <= r < 64
    ensures n / 64 == q && n % 64 == r
  {
  }

  lemma {:induction false} EncodeLength(x: bytes, past: byte)
    ensures |Encode(x, past)| == (|x| + 2) / 3 * 4
  {
    hide Quad;
    if |x| >= 3 {
      EncodeLength(x[3..], past);
      Thirds(|x|);
    }
  }

  lemma Thirds(n: nat)
    requires n >= 3
    ensures (n + 2) / 3 == (n - 3 + 2) / 3 + 1
  {
  }

  lemma {:induction false} ZeroPast(x: bytes)
    ensures Encode(x, 0) == Canonical(x)
  {
    hide Char, Word;
    if |x| == 1 {
      WordDigits(x[0], 0, 0);
      Shorter(Word(x[0], 0, 0), 0x1000);
      assert Word(x[0], 0, 0) / 0x1000 == Word(x[0], 0, 0) / 64 / 64;
    } else if |x| == 2 {
      WordDigits(x[0], x[1], 0);
    } else if |x| > 2 {
      WordDigits(x[0], x[1], x[2]);
      ZeroPast(x[3..]);
    }
  }

  lemma Shorter(n: nat, m: nat)
    requires m == 0x1000
    ensures n / m == n / 64 / 64
  {
  }

  /** The encoding is the standard one exactly when the octet past the end has zeros in the bits read. */
  lemma CanonicalIff(x: bytes, past: byte)
    ensures Encode(x, past) == Canonical(x) <==>
              (|x| % 3 == 1 ==> past < 16) && (|x| % 3 == 2 ==> past < 64)
  {
    ZeroPast(x);
    PastIff(x, past);
  }

  /** One zero octet with all bits set in the octet past it. */
  lemma PastExample()
    ensures Encode([0], 255) != Canonical([0])
  {
    hide Encode, Canonical;
    CanonicalIff([0], 255);
  }

  lemma {:induction false} PastIff(x: bytes, past: byte)
    ensures Encode(x, past) == Encode(x, 0) <==>
              (|x| % 3 == 1 ==> past < 16) && (|x| % 3 == 2 ==> past < 64)
  {
    hide Quad;
    if |x| >= 3 {
      PastIff(x[3..], past);
      assert Encode(x, past)[4..] == Encode(x[3..], past) && Encode(x, 0)[4..] == Encode(x[3..], 0);
      SameThird(|x|);
    } else if |x| == 1 {
      PastOne(x, past);
    } else if |x| == 2 {
      PastTwo(x, past);
    }
  }

  lemma SameThird(n: nat)
    requires n >= 3
    ensures (n - 3) % 3 == n % 3
  {
  }

  lemma PastOne(x: bytes, past: byte)
    requires |x| == 1
    ensures Encode(x, past) == Encode(x, 0) <==> past < 16
  {
    hide Char;
    LastLetter(x[0] % 4 * 16, past / 16);
    assert Encode(x, past)[1] == Char(x[0] % 4 * 16 + past / 16) && Encode(x, 0)[1] == Char(x[0] % 4 * 16);
  }

  lemma PastTwo(x: bytes, past: byte)
    requires |x| == 2
    ensures Encode(x, past) == Encode(x, 0) <==> past < 64
  {
    hide Char;
    LastLetter(x[1] % 16 * 4, past / 64);
    assert Encode(x, past)[2] == Char(x[1] % 16 * 4 + past / 64) && Encode(x, 0)[2] == Char(x[1] % 16 * 4);
  }

  lemma LastLetter(d: digit, e: nat)
    requires d + e < 64
    ensures Char(d + e) == Char(d) <==> e == 0
  {
  }

  // ---- Decoding ----

  /** The letters of the alphabet in a string, as digits; everything else is dropped. */
  function Digits(s: bytes): seq<digit> {
    if s == [] then [] else Letter(s[0]) + Digits(s[1..])
  }

  function Letter(c: byte): seq<digit> {
    if Code(c) > 0 then [Code(c) - 1] else []
  }

  /** Three octets for four digits. */
  function Triple(a: digit, b: digit, c: digit, d: digit): (r: bytes)
    ensures |r| == 3
  {
    [a * 4 + b / 16, b % 16 * 16 + c / 4, c % 4 * 64 + d]
  }

  function At(ds: seq<digit>, i: nat): digit {
    if i < |ds| then ds[i] else 0
  }

  /** Groups of four digits give three octets; a last group of k gives k - 1. */
  function Octets(ds: seq<digit>): bytes {
    if ds == [] then []
    else if |ds| < 4 then Triple(At(ds, 0), At(ds, 1), At(ds, 2), At(ds, 3))[..|ds| - 1]
    else Triple(ds[0], ds[1], ds[2], ds[3]) + Octets(ds[4..])
  }

  function Decode(s: bytes): bytes {
    Octets(Digits(s))
  }

  lemma {:induction false} DigitsAppend(a: bytes, b: bytes)
    ensures Digits(a + b) == Digits(a) + Digits(b)
  {
    hide Letter;
    if a == [] {
      assert a + b == b;
    } else {
      DigitsAppend(a[1..], b);
      assert (a + b)[1..] == a[1..] + b;
      assert Letter(a[0]) + (Digits(a[1..]) + Digits(b)) == Letter(a[0]) + Digits(a[1..]) + Digits(b);
    }
  }

  /** A string of padding or any other noise. */
  predicate Noise(s: bytes) {
    forall i | 0 <= i < |s| :: Code(s[i]) == 0
  }

  lemma {:induction false} NoDigits(s: bytes)
    requires Noise(s)
    ensures Digits(s) == []
  {
    if s != [] {
      NoDigits(s[1..]);
    }
  }

  /** t is s with line breaks or any other noise put in anywhere, any number of times. */
  predicate Sprinkled(s: bytes, t: bytes) {
    if t == [] then s == []
    else (s != [] && t[0] == s[0] && Sprinkled(s[1..], t[1..])) || (Code(t[0]) == 0 && Sprinkled(s, t[1..]))
  }

  lemma {:induction false} SprinkledDigits(s: bytes, t: bytes)
    requires Sprinkled(s, t)
    ensures Digits(t) == Digits(s)
    decreases |t|
  {
    if t != [] {
      if s != [] && t[0] == s[0] && Sprinkled(s[1..], t[1..]) {
        SprinkledDigits(s[1..], t[1..]);
      } else {
        SprinkledDigits(s, t[1..]);
      }
    }
  }

  // ---- Round trip ----

  lemma QuadDigits(a: byte, b: byte, c: byte)
    ensures Digits(Quad(a, b, c)) == [a / 4, a % 4 * 16 + b / 16, b % 16 * 4 + c / 64, c % 64]
  {
    var q := Quad(a, b, c);
    FourDigits(a / 4, a % 4 * 16 + b / 16, b % 16 * 4 + c / 64, c % 64);
    assert q == [Char(a / 4), Char(a % 4 * 16 + b / 16), Char(b % 16 * 4 + c / 64), Char(c % 64)];
  }

  lemma OneDigit(d: digit, s: bytes)
    ensures Digits([Char(d)] + s) == [d] + Digits(s)
  {
    CodeOfChar(Char(d), d);
    assert ([Char(d)] + s)[1..] == s;
  }

  lemma FourDigits(a: digit, b: digit, c: digit, d: digit)
    ensures Digits([Char(a), Char(b), Char(c), Char(d)]) == [a, b, c, d]
  {
    hide Char;
    OneDigit(d, []);
    OneDigit(c, [Char(d)]);
    OneDigit(b, [Char(c), Char(d)]);
    OneDigit(a, [Char(b), Char(c), Char(d)]);
    assert [Char(d)] + [] == [Char(d)];
    assert [Char(c)] + [Char(d)] == [Char(c), Char(d)];
    assert [Char(b)] + [Char(c), Char(d)] == [Char(b), Char(c), Char(d)];
    assert [Char(a)] + [Char(b), Char(c), Char(d)] == [Char(a), Char(b), Char(c), Char(d)];
  }

  lemma TripleOfQuad(a: byte, b: byte, c: byte)
    ensures Triple(a / 4, a % 4 * 16 + b / 16, b % 16 * 4 + c / 64, c % 64) == [a, b, c]
  {
  }

  /** Decoding what was encoded gives the string back, whatever octet followed it in memory. */
  lemma {:induction false} RoundTrip(x: bytes, past: byte)
    ensures Decode(Encode(x, past)) == x
  {
    hide Quad, Triple;
    if |x| >= 3 {
      RoundTrip(x[3..], past);
      DigitsAppend(Quad(x[0], x[1], x[2]), Encode(x[3..], past));
      QuadDigits(x[0], x[1], x[2]);
      TripleOfQuad(x[0], x[1], x[2]);
      var four: seq<digit> := [x[0] / 4, x[0] % 4 * 16 + x[1] / 16, x[1] % 16 * 4 + x[2] / 64, x[2] % 64];
      assert (four + Digits(Encode(x[3..], past)))[4..] == Digits(Encode(x[3..], past));
      assert x == [x[0], x[1], x[2]] + x[3..];
    } else if |x| == 2 {
      TwoOctets(x[0], x[1], past);
      assert x == [x[0], x[1]];
    } else if |x| == 1 {
      OneOctet(x[0], past);
      assert x == [x[0]];
    }
  }

  /** ... and whatever noise has been put into it since. */
  lemma RoundTripSprinkled(x: bytes, past: byte, t: bytes)
    requires Sprinkled(Encode(x, past), t)
    ensures Decode(t) == x
  {
    SprinkledDigits(Encode(x, past), t);
    RoundTrip(x, past);
  }

  lemma OneOctet(a: byte, past: byte)
    ensures Decode(Encode([a], past)) == [a]
  {
    hide Char, Digits;
    NoDigits([PAD, PAD]);
    var b: digit := a % 4 * 16 + past / 16;
    TwoDigits(a / 4, b, [PAD, PAD]);
    assert Encode([a], past) == [Char(a / 4), Char(b)] + [PAD, PAD];
    assert Digits(Encode([a], past)) == [a / 4, b] + [] == [a / 4, b];
  }

  lemma TwoOctets(a: byte, b: byte, past: byte)
    ensures Decode(Encode([a, b], past)) == [a, b]
  {
    hide Char, Digits;
    NoDigits([PAD]);
    var c: digit, d: digit := a % 4 * 16 + b / 16, b % 16 * 4 + past / 64;
    OneDigit(d, [PAD]);
    TwoDigits(a / 4, c, [Char(d)] + [PAD]);
    assert Encode([a, b], past) == [Char(a / 4), Char(c)] + ([Char(d)] + [PAD]);
    assert Digits(Encode([a, b], past)) == [a / 4, c, d];
    ThreeDigits(a / 4, c, d);
  }

  lemma ThreeDigits(a: digit, b: digit, c: digit)
    ensures Octets([a, b, c]) == [a * 4 + b / 16, b % 16 * 16 + c / 4]
  {
  }

  lemma TwoDigits(a: digit, b: digit, s: bytes)
    ensures Digits([Char(a), Char(b)] + s) == [a, b] + Digits(s)
  {
    hide Char;
    OneDigit(b, s);
    OneDigit(a, [Char(b)] + s);
    assert [Char(a)] + ([Char(b)] + s) == [Char(a), Char(b)] + s;
    assert [a] + ([b] + Digits(s)) == [a, b] + Digits(s);
  }

  // ---- The encoder ----

  /** Write four characters; the second and third octets are read even when the block is shorter. */
  method EncodeBlock(x: bytes, at: nat, past: byte, out: array<byte>, to: nat, len: nat)
    requires 1 <= len <= 3 && at + len <= |x| && (len < 3 ==> at + len == |x|) && to + 4 <= out.Length
    modifies out
    ensures out[..to] == old(out[..to])
    ensures out[to..to + 4] == Encode(x[at..at + len], past)
  {
    hide Char;
    var mem := x + [past];
    var a, b := mem[at], mem[at + 1];
    out[to] := Char(a / 4);
    out[to + 1] := Char(a % 4 * 16 + b / 16);
    if len > 1 {
      var c := mem[at + 2];
      out[to + 2] := Char(b % 16 * 4 + c / 64);
    } else {
      out[to + 2] := PAD;
    }
    if len > 2 {
      var c := mem[at + 2];
      out[to + 3] := Char(c % 64);
      assert x[at..at + len][3..] == [];
      assert Encode(x[at..at + len], past) == Quad(x[at], x[at + 1], x[at + 2]) + [];
    } else {
      out[to + 3] := PAD;
    }
    assert out[to..to + 4] == [out[to], out[to + 1], out[to + 2], out[to + 3]];
  }

  /** Encoding block by block. */
  lemma {:induction false} EncodeMore(x: bytes, i: nat, j: nat, past: byte)
    requires 3 * i < j <= |x| && j <= 3 * i + 3
    ensures Encode(x[..j], past) == Encode(x[..3 * i], past) + Encode(x[3 * i..j], past)
  {
    hide Quad;
    if i == 0 {
      assert x[..j] == x[0..j];
      assert Encode(x[..0], past) + Encode(x[0..j], past) == Encode(x[0..j], past);
    } else {
      EncodeMore(x[3..], i - 1, j - 3, past);
      assert x[..j][3..] == x[3..][..j - 3];
      assert x[..3 * i][3..] == x[3..][..3 * (i - 1)];
      assert x[3..][3 * (i - 1)..j - 3] == x[3 * i..j];
    }
  }

  /** Encode into a buffer of the size the source allocates; an empty input gives none. */
  method EncodeInto(x: bytes, past: byte) returns (out: array?<byte>, n: nat)
    ensures x == [] ==> out == null && n == 0
    ensures x != [] ==> out != null && out.Length == |x| * 4 / 3 + 5
    ensures x != [] ==> n < out.Length && out[..n] == Encode(x, past) && out[n] == 0
  {
    hide Encode;
    if x == [] {
      return null, 0;
    }
    out := new byte[|x| * 4 / 3 + 5];
    ghost var i := 0;
    var at := 0;
    n := 0;
    EncodeNone(x, past);
    while at + 3 <= |x|
      invariant at == 3 * i <= |x| && n == 4 * i
      invariant out[..n] == Encode(x[..at], past)
    {
      ghost var done := out[..n];
      EncodeBlock(x, at, past, out, n, 3);
      EncodeMore(x, i, at + 3, past);
      assert out[..n + 4] == out[..n] + out[n..n + 4];
      at, n, i := at + 3, n + 4, i + 1;
    }
    var len := |x| - at;
    if len > 0 {
      EncodeBlock(x, at, past, out, n, len);
      EncodeMore(x, i, at + len, past);
      assert out[..n + 4] == out[..n] + out[n..n + 4];
      n := n + 4;
    }
    assert x[..|x|] == x;
    out[n] := 0;
  }

  lemma EncodeNone(x: bytes, past: byte)
    ensures Encode(x[..0], past) == []
  {
  }

  // ---- The decoder ----

  /** Skip to the next letter of the alphabet, looking as far as the octet past the input. */
  method NextLetter(s: bytes, past: byte, p: nat) returns (v: int, q: nat)
    requires p <= |s|
    ensures p < q <= |s| + 1
    ensures q <= |s| ==> v > 0 && Digits(s[p..]) == [v - 1] + Digits(s[q..])
    ensures q == |s| + 1 ==> Digits(s[p..]) == []
  {
    hide Code;
    v, q := 0, p;
    while q <= |s| && v == 0
      invariant p <= q <= |s| + 1 && (q == p ==> v == 0)
      invariant v == 0 && q <= |s| ==> Digits(s[p..]) == Digits(s[q..])
      invariant v > 0 && q <= |s| ==> v <= 64 && Digits(s[p..]) == [v - 1] + Digits(s[q..])
      invariant q == |s| + 1 ==> Digits(s[p..]) == []
      invariant v >= 0
      decreases |s| + 1 - q
    {
      if q < |s| {
        assert s[q..][1..] == s[q + 1..];
        v := Code(s[q]);
      } else {
        assert s[q..] == [];
        v := Code(past);
      }
      q := q + 1;
    }
  }

  /** The digits still to come when the decoder stands at p. */
  function Rest(s: bytes, p: nat): seq<digit> {
    if p <= |s| then Digits(s[p..]) else []
  }

  /** Collect up to four digits. */
  method ReadGroup(s: bytes, past: byte, p: nat, group: array<digit>) returns (len: nat, q: nat)
    requires p <= |s| && group.Length == 4
    modifies group
    ensures p < q <= |s| + 1 && len <= 4 && len <= |Rest(s, p)|
    ensures group[..len] == Rest(s, p)[..len] && Rest(s, q) == Rest(s, p)[len..]
    ensures len < 4 ==> Rest(s, q) == []
  {
    hide Digits;
    ghost var all := Rest(s, p);
    len, q := 0, p;
    var i := 0;
    while i < 4 && q <= |s|
      invariant len <= i <= 4 && p <= q <= |s| + 1 && (q == p ==> i == 0) && len <= |all|
      invariant q <= |s| ==> len == i
      invariant group[..len] == all[..len] && Rest(s, q) == all[len..]
      decreases 4 - i
    {
      var v;
      ghost var q0 := q;
      v, q := NextLetter(s, past, q);
      if q <= |s| {
        assert all[len..] == [v - 1] + Rest(s, q);
        assert all[len] == v - 1 && all[len + 1..] == all[len..][1..];
        assert all[..len + 1] == all[..len] + [v - 1];
        group[i] := v - 1;
        len := len + 1;
      } else {
        group[i] := 0;
      }
      i := i + 1;
    }
  }

  function Block(group: seq<digit>): (r: bytes)
    requires |group| == 4
    ensures |r| == 3
  {
    Triple(group[0], group[1], group[2], group[3])
  }

  lemma OctetsStep(ds: seq<digit>, group: seq<digit>, len: nat)
    requires |group| == 4 && 0 < len <= 4 && len <= |ds| && group[..len] == ds[..len] && (len < 4 ==> len == |ds|)
    ensures Octets(ds) == Block(group)[..len - 1] + Octets(ds[len..])
  {
    hide Triple, Octets, Block;
    if len == 4 {
      assert group == group[..4] == ds[..4];
      FullGroup(ds);
      assert Block(group)[..3] == Block(group);
    } else {
      assert ds[len..] == [] && ds == ds[..len];
      NoOctets();
      forall i | 0 <= i < |ds|
        ensures group[i] == ds[i]
      {
        assert group[..len][i] == ds[..len][i];
      }
      ShortGroup(group, ds);
    }
  }

  lemma FullGroup(ds: seq<digit>)
    requires |ds| >= 4
    ensures Octets(ds) == Block(ds[..4]) + Octets(ds[4..])
  {
  }

  /** Digits missing from a short group do not show in the octets it gives. */
  lemma ShortGroup(group: seq<digit>, ds: seq<digit>)
    requires |group| == 4 && 0 < |ds| < 4 && forall i | 0 <= i < |ds| :: group[i] == ds[i]
    ensures Block(group)[..|ds| - 1] == Octets(ds)
  {
  }

  lemma {:induction false} DigitsLength(s: bytes)
    ensures |Digits(s)| <= |s|
  {
    if s != [] {
      DigitsLength(s[1..]);
    }
  }

  /** Write three octets, of which the first len - 1 are meant. */
  method DecodeBlock(group: array<digit>, len: nat, out: array<byte>, n: nat)
    requires group.Length == 4 && 0 < len <= 4 && n + 3 <= out.Length
    modifies out
    ensures out[..n + (len - 1)] == old(out[..n]) + Block(group[..])[..len - 1]
  {
    hide Triple;
    var t := Triple(group[0], group[1], group[2], group[3]);
    out[n], out[n + 1], out[n + 2] := t[0], t[1], t[2];
    assert out[n..n + 3] == t;
    assert out[n..n + (len - 1)] == out[n..n + 3][..len - 1];
    assert out[..n + (len - 1)] == out[..n] + out[n..n + (len - 1)];
  }

  /** How far decoding has come: the digits taken, where the input is read, the octets written. */
  ghost predicate Decoding(s: bytes, p: nat, taken: nat, written: bytes) {
    var all := Digits(s);
    && p <= |s| + 1 && taken <= |all| && Rest(s, p) == all[taken..]
    && (p == |s| + 1 ==> taken == |all|)
    && 4 * |written| <= 3 * taken && Octets(all) == written + Octets(all[taken..])
  }

  lemma DecodingStep(s: bytes, p: nat, taken: nat, written: bytes, group: seq<digit>, len: nat, q: nat)
    requires Decoding(s, p, taken, written) && p < q <= |s| + 1 && |group| == 4 && len <= 4 && len <= |Rest(s, p)|
    requires group[..len] == Rest(s, p)[..len] && Rest(s, q) == Rest(s, p)[len..] && (len < 4 ==> Rest(s, q) == [])
    ensures Decoding(s, q, taken + len, if len > 0 then written + Block(group)[..len - 1] else written)
  {
    hide Digits, Octets, Block;
    var all := Digits(s);
    var ds := all[taken..];
    assert ds[len..] == all[taken + len..];
    if q == |s| + 1 {
      assert Rest(s, q) == [];
    }
    if len > 0 {
      OctetsStep(ds, group, len);
      assert written + (Block(group)[..len - 1] + Octets(ds[len..]))
          == written + Block(group)[..len - 1] + Octets(ds[len..]);
    }
  }

  /** One group read and written. */
  method DecodeGroup(s: bytes, past: byte, p: nat, group: array<digit>, out: array<byte>, n: nat, ghost taken: nat)
    returns (q: nat, m: nat, ghost taken': nat)
    requires p <= |s| && group.Length == 4 && n <= out.Length && 3 * |s| + 12 <= 4 * out.Length
    requires Decoding(s, p, taken, out[..n])
    modifies group, out
    ensures p < q && m <= out.Length && Decoding(s, q, taken', out[..m])
  {
    hide Digits, Octets, Block;
    DigitsLength(s);
    var len;
    len, q := ReadGroup(s, past, p, group);
    DecodingStep(s, p, taken, out[..n], group[..], len, q);
    taken', m := taken + len, n;
    if len > 0 {
      DecodeBlock(group, len, out, n);
      m := n + (len - 1);
    }
  }

  lemma DecodingStart(s: bytes)
    ensures Decoding(s, 0, 0, [])
  {
    assert s[0..] == s && Digits(s)[0..] == Digits(s) && [] + Octets(Digits(s)) == Octets(Digits(s));
  }

  lemma DecodingEnd(s: bytes, p: nat, taken: nat, written: bytes)
    requires Decoding(s, p, taken, written) && p == |s| + 1
    ensures written == Decode(s) && 4 * |written| <= 3 * |s|
  {
    DigitsLength(s);
    assert Digits(s)[taken..] == [] && written + [] == written;
  }

  /** Decode into a buffer of the size the source allocates; the octet past the input makes no difference. */
  method DecodeInto(s: bytes, past: byte) returns (out: array?<byte>, n: nat)
    ensures s == [] ==> out == null && n == 0
    ensures s != [] ==> out != null && out.Length == |s| * 3 / 4 + 4
    ensures s != [] ==> n < out.Length && out[..n] == Decode(s) && out[n] == 0
  {
    hide Decoding, Decode;
    if s == [] {
      return null, 0;
    }
    out := new byte[|s| * 3 / 4 + 4];
    var group := new digit[4];
    var p: nat := 0;
    n := 0;
    ghost var taken := 0;
    DecodingStart(s);
    assert out[..0] == [];
    while p <= |s|
      invariant p <= |s| + 1 && n <= out.Length && Decoding(s, p, taken, out[..n])
      decreases |s| + 1 - p
    {
      p, n, taken := DecodeGroup(s, past, p, group, out, n, taken);
      DecodingWhere(s, p, taken, out[..n]);
    }
    DecodingEnd(s, p, taken, out[..n]);
    out[n] := 0;
  }

  lemma DecodingWhere(s: bytes, p: nat, taken: nat, written: bytes)
    requires Decoding(s, p, taken, written)
    ensures p <= |s| + 1
  {
  }

  lemma NoOctets()
    ensures Octets([]) == []
  {
  }
}
