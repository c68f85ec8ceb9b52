/** Octets and the big-endian fields of PPP control packets. */
module Wire {

  type byte = b: int | 0 <= b < 256

  type bytes = seq<byte>

  /** Two octets, most significant first; a value too wide for the field loses its high bits. */
  function PutShort(v: int): (r: bytes)
    ensures |r| == 2
  {
    [v / 256 % 256, v % 256]
  }

  function GetShort(p: bytes): (v: nat)
    requires |p| >= 2
    ensures v < 0x1_0000
  {
    var hi: int, lo: int := p[0], p[1];
    hi * 256 + lo
  }

  function PutLong(v: int): (r: bytes)
    ensures |r| == 4
  {
    PutShort(v / 0x1_0000) + PutShort(v)
  }

  function GetLong(p: bytes): (v: nat)
    requires |p| >= 4
    ensures v < 0x1_0000_0000
  {
    GetShort(p[..2]) * 0x1_0000 + GetShort(p[2..4])
  }

  /** A field that fits its width is read back unchanged, and reading determines the octets. */
  lemma ShortRoundTrip(v: int, p: bytes)
    requires |p| == 2
    ensures 0 <= v < 0x1_0000 ==> (GetShort(p) == v <==> p == PutShort(v))
  {
  }

  lemma LowHalf(h: int, l: int)
    requires 0 <= l < 0x1_0000
    ensures PutShort(h * 0x1_0000 + l) == PutShort(l)
  {
    var v, q := h * 0x1_0000 + l, l / 256;
    assert v == 256 * (h * 256 + q) + l % 256;
    assert v / 256 == h * 256 + q;
  }

  lemma LongRoundTrip(v: int, p: bytes)
    requires |p| == 4
    ensures 0 <= v < 0x1_0000_0000 ==> (GetLong(p) == v <==> p == PutLong(v))
  {
    hide PutShort, GetShort;
    var h, l := v / 0x1_0000, v % 0x1_0000;
    ShortRoundTrip(h, p[..2]);
    ShortRoundTrip(l, p[2..4]);
    LowHalf(h, l);
    assert p == p[..2] + p[2..4];
  }

  /** Concatenation of a list of options. */
  function Flatten(l: seq<bytes>): (r: bytes)
  {
    if l == [] then [] else l[0] + Flatten(l[1..])
  }

  lemma {:induction false} FlattenAppend(a: seq<bytes>, b: seq<bytes>)
    ensures Flatten(a + b) == Flatten(a) + Flatten(b)
  {
    if a == [] {
      assert a + b == b;
    } else {
      FlattenAppend(a[1..], b);
      assert (a + b)[1..] == a[1..] + b;
      assert a[0] + (Flatten(a[1..]) + Flatten(b)) == a[0] + Flatten(a[1..]) + Flatten(b);
    }
  }

  lemma FlattenSnoc(a: seq<bytes>, x: bytes)
    ensures Flatten(a + [x]) == Flatten(a) + x
  {
    FlattenAppend(a, [x]);
    assert Flatten([x]) == x + Flatten([]);
  }
}
