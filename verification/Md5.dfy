/** Two drivers for one message digest. Both cut a message, however it arrives,
    into the same padded blocks; the compression of a block is left open. */
module Md5 {
  import opened Wire

  type u32 = x: int | 0 <= x < 0x1_0000_0000

  const WORD: int := 0x1_0000_0000

  /** The four chaining words. */
  datatype Regs = Regs(a: u32, b: u32, c: u32, d: u32)

  const START: Regs := Regs(0x67452301, 0xefcdab89, 0x98badcfe, 0x10325476)

  /** The compression of one block of sixteen words. */
  type Core = (Regs, seq<u32>) -> Regs

  // ---- Words and octets ----

  function Word(p: bytes): (w: u32)
    requires |p| == 4
  {
    var a: int, b: int, c: int, d: int := p[0], p[1], p[2], p[3];
    a + 0x100 * b + 0x1_0000 * c + 0x100_0000 * d
  }

  function Octets(w: u32): (p: bytes)
    ensures |p| == 4
  {
    [w % 0x100, w / 0x100 % 0x100, w / 0x1_0000 % 0x100, w / 0x100_0000]
  }

  lemma WordOfOctets(w: u32)
    ensures Word(Octets(w)) == w
  {
    var x, y, z := w / 0x100, w / 0x1_0000, w / 0x100_0000;
    assert y == x / 0x100 && z == y / 0x100;
  }

  /** The sixteen words of a block, least significant octet first. */
  function Words(block: bytes): (r: seq<u32>)
    decreases |block|
  {
    if |block| < 4 then [] else Words(block[..|block| - 4]) + [Word(block[|block| - 4..])]
  }

  function Encoded(r: Regs): bytes {
    Octets(r.a) + Octets(r.b) + Octets(r.c) + Octets(r.d)
  }

  // ---- What both must compute ----

  /** Compress all blocks in turn. */
  function Chain(core: Core, m: bytes): Regs
    decreases |m|
  {
    if |m| < 64 then START
    else core(Chain(core, m[..|m| - 64]), Words(m[|m| - 64..]))
  }

  function Zeros(n: nat): (r: bytes)
    ensures |r| == n
  {
    seq(n, i => 0)
  }

  /** How much padding brings a length to 56 modulo 64. */
  function PadLen(len: nat): (n: nat)
    ensures 1 <= n <= 64 && (len + n) % 64 == 56
  {
    if len % 64 < 56 then 56 - len % 64 else 120 - len % 64
  }

  function Padding(n: nat): (r: bytes)
    requires 1 <= n
    ensures |r| == n
  {
    [0x80] + Zeros(n - 1)
  }

  /** The length in bits, modulo 2^64, as two words. */
  function LowCount(len: nat): u32 { 8 * len % WORD }
  function HighCount(len: nat): u32 { 8 * len / WORD % WORD }

  function Padded(m: bytes): (r: bytes) {
    m + Padding(PadLen(|m|)) + (Octets(LowCount(|m|)) + Octets(HighCount(|m|)))
  }

  function Digest(core: Core, m: bytes): bytes {
    Encoded(Chain(core, Padded(m)))
  }

  // ---- Lemmas ----

  lemma ChainBlock(core: Core, m: bytes, block: bytes)
    requires |block| == 64
    ensures Chain(core, m + block) == core(Chain(core, m), Words(block))
  {
    var all := m + block;
    assert all[..|all| - 64] == m && all[|all| - 64..] == block;
  }

  lemma {:induction false} WordsAppend(a: bytes, b: bytes, k: nat)
    requires |b| == 4 * k
    ensures Words(a + b) == Words(a) + Words(b)
    decreases k
  {
    hide Word;
    if k == 0 {
      assert a + b == a;
    } else {
      var all := a + b;
      var n := |b| - 4;
      assert all[..|all| - 4] == a + b[..n] && all[|all| - 4..] == b[n..];
      WordsAppend(a, b[..n], k - 1);
    }
  }

  lemma OneWord(w: u32)
    ensures Words(Octets(w)) == [w]
  {
    hide Octets, Word;
    var p := Octets(w);
    assert p[..0] == [] && p[0..] == p;
    WordOfOctets(w);
  }

  /** The whole blocks of a message. */
  function Whole(len: nat): nat { len - len % 64 }

  /** The position in the buffer can be read off the low count. */
  lemma CountGivesIndex(len: nat)
    ensures LowCount(len) / 8 % 64 == len % 64
  {
    var q := 8 * len / WORD;
    assert 8 * len == q * WORD + LowCount(len);
    var r := LowCount(len) / 8;
    assert LowCount(len) == 8 * (len - q * 0x2000_0000);
    assert r == len - q * 0x2000_0000;
    assert len == r + 64 * (q * 0x80_0000);
    ModAdd(r, q * 0x80_0000);
  }

  lemma ModAdd(r: int, k: int)
    ensures (r + 64 * k) % 64 == r % 64
  {
  }

  /** Adding a chunk's bits to the two counts with carry. */
  lemma CountAdds(len: nat, n: nat)
    requires n < WORD
    ensures var add := 8 * n % WORD;
            && LowCount(len + n) == (LowCount(len) + add) % WORD
            && HighCount(len + n)
            == (HighCount(len) + n / 0x2000_0000 + (if LowCount(len) + add >= WORD then 1 else 0)) % WORD
  {
    var add, top := 8 * n % WORD, n / 0x2000_0000;
    assert 8 * n == top * WORD + add by {
      assert n == top * 0x2000_0000 + n % 0x2000_0000;
      assert 8 * n == top * WORD + 8 * (n % 0x2000_0000);
      SmallMod(top, 8 * (n % 0x2000_0000));
    }
    var lo, q := LowCount(len), 8 * len / WORD;
    assert 8 * len == q * WORD + lo;
    var carry := if lo + add >= WORD then 1 else 0;
    var rest := lo + add - carry * WORD;
    assert 8 * (len + n) == (q + top + carry) * WORD + rest;
    SmallMod(q + top + carry, rest);
    SmallMod(carry, rest);
    ModSum(q, top + carry);
  }

  lemma SmallMod(q: int, r: int)
    requires 0 <= r < WORD
    ensures (q * WORD + r) % WORD == r && (q * WORD + r) / WORD == q
  {
  }

  lemma ModSum(a: int, b: int)
    ensures (a % WORD + b) % WORD == (a + b) % WORD
  {
    var q := a / WORD;
    assert a == q * WORD + a % WORD;
    var s := a % WORD + b;
    var p := s / WORD;
    assert a + b == (q + p) * WORD + s % WORD;
    SmallMod(q + p, s % WORD);
  }

  /** The empty message. */
  lemma NothingYet(core: Core)
    ensures LowCount(0) == 0 && HighCount(0) == 0 && Chain(core, []) == START
  {
  }

  // ---- The driver that copies blocks ----

  /** A chunk of n octets, after a message of some length, whose blocks are gone through without the 32-bit loop
      test wrapping: together with the octets buffered it is shorter than 2^32. */
  predicate Ends(len: nat, n: nat) {
    n + len % 64 < WORD
  }

  lemma EndsSmall(len: nat, n: nat)
    requires Ends(len, n)
    ensures n < WORD
  {
  }

  lemma TestsRight(len: nat, n: nat, i: nat)
    requires Ends(len, n) && i <= n && (len + i) % 64 == 0
    ensures (i + 63) % WORD < n <==> i + 63 < n
  {
    var q := (len + i) / 64;
    assert i + len % 64 == 64 * (q - len / 64);
    assert i + len % 64 <= WORD - 64;
  }

  /** The position after k rounds of that loop, in 32 bits. */
  function RoundAt(len: nat, k: nat): u32 {
    (64 - len % 64 + 64 * k) % WORD
  }

  lemma RoundForm(len: nat, k: nat)
    ensures (RoundAt(len, k) + len % 64) % 64 == 0
  {
    var x := 64 - len % 64 + 64 * k;
    var q := x / WORD;
    assert x == q * WORD + RoundAt(len, k);
    assert RoundAt(len, k) + len % 64 == 64 * (1 + k - q * 0x400_0000);
  }

  /** For a chunk that fills the buffer, the loop's test fails in some round exactly if the chunk is one that
      ends: past that length the position wraps around before the test can fail, and the loop never ends. */
  lemma LoopEndsIff(len: nat, n: nat)
    requires 64 - len % 64 <= n < WORD
    ensures Ends(len, n) <==> exists k: nat :: !((RoundAt(len, k) + 63) % WORD < n)
  {
    if Ends(len, n) {
      var k := (n + len % 64) / 64 - 1;
      var i := 64 - len % 64 + 64 * k;
      assert i <= n < i + 64;
      SmallMod(0, i);
      assert RoundAt(len, k) == i;
      RoundForm(len, k);
      assert i + len % 64 <= WORD - 64;
      SmallMod(0, i + 63);
      assert !((RoundAt(len, k) + 63) % WORD < n);
    } else {
      forall k: nat
        ensures (RoundAt(len, k) + 63) % WORD < n
      {
        GoesRound(len, n, RoundAt(len, k)) by {
          RoundForm(len, k);
        }
      }
    }
  }

  /** One octet buffered and a chunk of 2^32 - 1 more: the loop goes on for ever. */
  lemma EndlessExample(k: nat)
    ensures (RoundAt(1, k) + 63) % WORD < WORD - 1
  {
    LoopEndsIff(1, WORD - 1);
  }

  lemma GoesRound(len: nat, n: nat, i: u32)
    requires n < WORD && !Ends(len, n) && (i + len % 64) % 64 == 0
    ensures (i + 63) % WORD < n
  {
    var r := len % 64;
    if i + r < WORD {
      assert i + r <= WORD - 64;
      SmallMod(0, i + 63);
    } else {
      assert i + r == WORD;
      SmallMod(1, 63 - r);
    }
  }

  class BlockDriver {
    const core: Core
    var state: Regs
    var count0: u32
    var count1: u32
    const buffer: array<byte>
    ghost var msg: bytes

    /** The counts, the buffered tail and the chaining words are those of the message so far. */
    ghost predicate Valid()
      reads this, buffer
    {
      && buffer.Length == 64
      && count0 == LowCount(|msg|) && count1 == HighCount(|msg|)
      && buffer[..|msg| % 64] == msg[Whole(|msg|)..]
      && state == Chain(core, msg[..Whole(|msg|)])
    }

    constructor (core: Core)
      ensures Valid() && msg == [] && this.core == core && fresh(buffer)
    {
      hide Chain, LowCount, HighCount;
      this.core := core;
      count0, count1, state, msg := 0, 0, START, [];
      buffer := new byte[64];
      NothingYet(core);
      new;
      assert msg[..0] == [] && buffer[..0] == [] && msg[0..] == [];
    }

    /** Copy octets into the buffer. */
    method Copy(at: nat, p: bytes, from: nat, n: nat)
      requires buffer.Length == 64 && at + n <= 64 && from + n <= |p|
      modifies buffer
      ensures buffer[..at + n] == old(buffer[..at]) + p[from..from + n]
    {
      forall i | 0 <= i < n {
        buffer[at + i] := p[from + i];
      }
    }

    /** Add a chunk's bits to the 64-bit count. */
    method AddCount(n: nat)
      requires n < WORD && count0 == LowCount(|msg|) && count1 == HighCount(|msg|)
      modifies this`count0, this`count1
      ensures count0 == LowCount(|msg| + n) && count1 == HighCount(|msg| + n)
    {
      hide LowCount, HighCount;
      CountAdds(|msg|, n);
      var add := 8 * n % WORD;
      Carry(count1, n / 0x2000_0000, if count0 + add >= WORD then 1 else 0);
      count0 := (count0 + add) % WORD;
      if count0 < add {
        count1 := (count1 + 1) % WORD;
      }
      count1 := (count1 + n / 0x2000_0000) % WORD;
    }

    /** Compress all whole blocks of a chunk from some point on. */
    method Blocks(input: bytes, from: nat, ghost before: bytes) returns (i: nat)
      requires from <= |input| && (|before| + from) % 64 == 0 && Ends(|before|, |input|)
      requires state == Chain(core, (before + input)[..|before| + from])
      modifies this`state
      ensures from <= i <= |input| < i + 64 && (|before| + i) % 64 == 0
      ensures state == Chain(core, (before + input)[..|before| + i])
    {
      hide Chain, Words;
      ghost var all := before + input;
      i := from;
      TestsRight(|before|, |input|, i);
      while (i + 63) % WORD < |input|
        invariant from <= i <= |input| && (|before| + i) % 64 == 0
        invariant (i + 63) % WORD < |input| <==> i + 63 < |input|
        invariant state == Chain(core, all[..|before| + i])
        decreases |input| - i
      {
        assert input[i..i + 64] == all[|before| + i..|before| + i + 64];
        ChainNext(core, all, |before| + i);
        state := core(state, Words(input[i..i + 64]));
        Next64(|before| + i);
        i := i + 64;
        TestsRight(|before|, |input|, i);
      }
    }

    /** Complete the buffered block with the front of a chunk and compress it. */
    method FirstBlock(input: bytes, index: nat, partLen: nat)
      requires buffer.Length == 64 && index == |msg| % 64 && partLen == 64 - index <= |input|
      requires buffer[..index] == msg[Whole(|msg|)..] && state == Chain(core, msg[..Whole(|msg|)])
      modifies this`state, buffer
      ensures state == Chain(core, (msg + input)[..|msg| + partLen])
    {
      hide Chain, Words;
      ghost var all, w := msg + input, Whole(|msg|);
      Copy(index, input, 0, partLen);
      assert buffer[..64] == all[w..w + 64];
      assert msg[..w] == all[..w];
      ChainNext(core, all, w);
      state := core(state, Words(buffer[..64]));
    }

    /** Compress every block that a chunk completes; what is left of it starts at i and goes to the index. */
    method Compress(input: bytes, index: nat) returns (i: nat, index': nat)
      requires buffer.Length == 64 && index == |msg| % 64 && Ends(|msg|, |input|)
      requires buffer[..index] == msg[Whole(|msg|)..] && state == Chain(core, msg[..Whole(|msg|)])
      modifies this`state, buffer
      ensures i <= |input| && index' + |input| - i == (|msg| + |input|) % 64
      ensures var all := msg + input;
              state == Chain(core, all[..Whole(|all|)]) && all[Whole(|all|)..] == buffer[..index'] + input[i..]
    {
      hide Chain, Ends, Whole;
      i, index' := 0, index;
      var partLen := 64 - index;
      FillsBlock(|msg|);
      if |input| >= partLen {
        FirstBlock(input, index, partLen);
        i := Blocks(input, partLen, msg);
        index' := 0;
      } else {
        assert msg[..Whole(|msg|)] == (msg + input)[..Whole(|msg|)];
      }
      WholeAfter(|msg|, |input|, i);
      Tail(msg, input, i, index');
    }

    /** Take in a chunk that the loop over its blocks comes to the end of. */
    method Update(input: bytes)
      requires Valid() && Ends(|msg|, |input|)
      modifies this`state, this`count0, this`count1, this`msg, buffer
      ensures Valid() && msg == old(msg) + input
    {
      hide Chain, LowCount, HighCount, Ends, Whole;
      EndsSmall(|msg|, |input|);
      CountGivesIndex(|msg|);
      var index := count0 / 8 % 64;
      AddCount(|input|);
      var i;
      i, index := Compress(input, index);
      Copy(index, input, i, |input| - i);
      msg := msg + input;
    }

    /** The digest of the message taken in; the context is wiped. */
    method Final() returns (digest: bytes)
      requires Valid()
      modifies this`state, this`count0, this`count1, this`msg, buffer
      ensures digest == Digest(core, old(msg))
    {
      hide Chain, LowCount, HighCount, Octets;
      ghost var m := msg;
      var bits := Octets(count0) + Octets(count1);
      CountGivesIndex(|msg|);
      var index := count0 / 8 % 64;
      var padLen := if index < 56 then 56 - index else 120 - index;
      var padding := Padding(64);
      PaddingFront(padLen);
      Update(padding[..padLen]);
      Update(bits);
      assert msg == Padded(m);
      PaddedWhole(m);
      assert msg[..|msg|] == msg;
      digest := Encoded(state);
      state, count0, count1, msg := Regs(0, 0, 0, 0), 0, 0, [];
      forall i | 0 <= i < 64 {
        buffer[i] := 0;
      }
    }
  }

  lemma PaddingFront(n: nat)
    requires 1 <= n <= 64
    ensures Padding(64)[..n] == Padding(n)
  {
  }

  lemma PaddedWhole(m: bytes)
    ensures Whole(|Padded(m)|) == |Padded(m)|
  {
    hide Octets, LowCount, HighCount;
    var n := |m| + PadLen(|m|);
    assert |Padded(m)| == n + 8;
    assert n % 64 == 56;
  }

  // ---- The driver that takes octets ----

  class OctetDriver {
    const core: Core
    var buf: Regs
    var i0: u32
    var i1: u32
    const data: array<byte>
    ghost var msg: bytes

    /** The tail and the chaining words are those of the message so far ... */
    ghost predicate Filled()
      reads `msg, `buf, data
    {
      && data.Length == 64
      && data[..|msg| % 64] == msg[Whole(|msg|)..]
      && buf == Chain(core, msg[..Whole(|msg|)])
    }

    /** ... and so are the counts. */
    ghost predicate Valid()
      reads this, data
    {
      Filled() && i0 == LowCount(|msg|) && i1 == HighCount(|msg|)
    }

    constructor (core: Core)
      ensures Valid() && msg == [] && this.core == core && fresh(data)
    {
      this.core := core;
      i0, i1, buf, msg := 0, 0, START, [];
      data := new byte[64];
      new;
      assert data[..0] == [] && msg[0..] == [];
    }

    method AddCount(n: nat)
      requires n < WORD && i0 == LowCount(|msg|) && i1 == HighCount(|msg|)
      modifies this`i0, this`i1
      ensures i0 == LowCount(|msg| + n) && i1 == HighCount(|msg| + n)
    {
      hide LowCount, HighCount;
      CountAdds(|msg|, n);
      var add := 8 * n % WORD;
      Carry(i1, n / 0x2000_0000, if i0 + add >= WORD then 1 else 0);
      if (i0 + add) % WORD < i0 {
        i1 := (i1 + 1) % WORD;
      }
      i0 := (i0 + add) % WORD;
      i1 := (i1 + n / 0x2000_0000) % WORD;
    }

    /** The first n words of the buffer. */
    method Decode(n: nat) returns (w: seq<u32>)
      requires data.Length == 64 && n <= 16
      ensures w == Words(data[..4 * n])
    {
      w := [];
      var i, ii := 0, 0;
      while i < n
        invariant 0 <= i <= n && ii == 4 * i
        invariant w == Words(data[..ii])
      {
        WordsNext(data[..], ii);
        assert data[..][ii..ii + 4] == data[ii..ii + 4] && data[..][..ii + 4] == data[..ii + 4];
        w := w + [Word(data[ii..ii + 4])];
        i, ii := i + 1, ii + 4;
      }
    }

    /** Take in one octet, compressing when the block is complete. */
    method Octet(b: byte, mdi: nat) returns (next: nat)
      requires Filled() && mdi == |msg| % 64
      modifies this`buf, this`msg, data
      ensures Filled() && msg == old(msg) + [b] && next == |msg| % 64
    {
      hide Chain, Words;
      ghost var all := msg + [b];
      OneMore(|msg|);
      data[mdi] := b;
      next := mdi + 1;
      assert data[..next] == all[Whole(|msg|)..];
      assert msg[..Whole(|msg|)] == all[..Whole(|msg|)];
      if next == 0x40 {
        var w := Decode(16);
        assert data[..64] == all[Whole(|msg|)..Whole(|msg|) + 64];
        ChainNext(core, all, Whole(|msg|));
        buf := core(buf, w);
        next := 0;
      }
      msg := all;
    }

    method Update(input: bytes)
      requires Valid() && |input| < WORD
      modifies this`buf, this`i0, this`i1, this`msg, data
      ensures Valid() && msg == old(msg) + input
    {
      hide Filled, LowCount, HighCount;
      CountGivesIndex(|msg|);
      var mdi := i0 / 8 % 64;
      AddCount(|input|);
      var k := 0;
      ghost var before := msg;
      while k < |input|
        invariant 0 <= k <= |input|
        invariant msg == before + input[..k]
        invariant Filled() && mdi == |msg| % 64
        invariant i0 == LowCount(|before| + |input|) && i1 == HighCount(|before| + |input|)
      {
        mdi := Octet(input[k], mdi);
        k := k + 1;
      }
      assert input[..k] == input;
    }

    method Final() returns (digest: bytes)
      requires Valid()
      modifies this`buf, this`i0, this`i1, this`msg, data
      ensures digest == Digest(core, old(msg))
    {
      hide Chain, LowCount, HighCount, Octets, Words;
      ghost var m := msg;
      var in14, in15 := i0, i1;
      CountGivesIndex(|msg|);
      var mdi := i0 / 8 % 64;
      var padLen := if mdi < 56 then 56 - mdi else 120 - mdi;
      var padding := Padding(64);
      PaddingFront(padLen);
      Update(padding[..padLen]);
      var w := Decode(14);
      LastBlock(core, m, data[..56]);
      buf := core(buf, w + [in14, in15]);
      digest := Encoded(buf);
    }
  }

  lemma WordsNext(p: bytes, n: nat)
    requires n + 4 <= |p|
    ensures Words(p[..n + 4]) == Words(p[..n]) + [Word(p[n..n + 4])]
  {
    hide Word;
    var q := p[..n + 4];
    assert q[..n] == p[..n] && q[n..] == p[n..n + 4];
  }

  lemma OneMore(len: nat)
    ensures (len + 1) % 64 == if len % 64 == 63 then 0 else len % 64 + 1
    ensures Whole(len + 1) == if len % 64 == 63 then Whole(len) + 64 else Whole(len)
  {
  }

  /** The last block: what is buffered after padding, and the two counts as words. */
  lemma LastBlock(core: Core, m: bytes, tail: bytes)
    requires var p := m + Padding(PadLen(|m|)); tail == p[Whole(|p|)..]
    ensures var p := m + Padding(PadLen(|m|));
            Chain(core, Padded(m))
            == core(Chain(core, p[..Whole(|p|)]), Words(tail) + [LowCount(|m|), HighCount(|m|)])
  {
    hide Chain, LowCount, HighCount, Octets, Words;
    var p := m + Padding(PadLen(|m|));
    var lo, hi := LowCount(|m|), HighCount(|m|);
    assert |p| % 64 == 56 && |tail| == 56;
    var block := tail + (Octets(lo) + Octets(hi));
    assert Padded(m) == p[..Whole(|p|)] + block;
    ChainBlock(core, p[..Whole(|p|)], block);
    assert block == tail + Octets(lo) + Octets(hi);
    WordsAppend(tail + Octets(lo), Octets(hi), 1);
    WordsAppend(tail, Octets(lo), 1);
    OneWord(lo);
    OneWord(hi);
    assert Words(tail) + [lo] + [hi] == Words(tail) + [lo, hi];
  }

  // ---- The same digest ----

  /** Every chunk is one that the block driver's loop comes to the end of. */
  ghost predicate AllEnd(cuts: seq<bytes>) {
    forall i | 0 <= i < |cuts| :: Ends(|Flatten(cuts[..i])|, |cuts[i]|)
  }

  /** A message taken in chunk by chunk by the driver that copies blocks. */
  method BlockDigest(core: Core, cuts: seq<bytes>) returns (d: bytes)
    requires AllEnd(cuts)
    ensures d == Digest(core, Flatten(cuts))
  {
    hide Digest, Flatten, BlockDriver.Valid;
    var a := new BlockDriver(core);
    var i := 0;
    assert cuts[..0] == [];
    NoCuts();
    while i < |cuts|
      invariant 0 <= i <= |cuts|
      invariant a.Valid() && a.core == core && fresh(a) && fresh(a.buffer)
      invariant a.msg == Flatten(cuts[..i])
    {
      FlattenSnoc(cuts[..i], cuts[i]);
      assert cuts[..i + 1] == cuts[..i] + [cuts[i]];
      a.Update(cuts[i]);
      i := i + 1;
    }
    assert cuts[..i] == cuts;
    d := a.Final();
  }

  /** ... and by the one that takes octets. */
  method OctetDigest(core: Core, cuts: seq<bytes>) returns (d: bytes)
    requires forall i | 0 <= i < |cuts| :: |cuts[i]| < WORD
    ensures d == Digest(core, Flatten(cuts))
  {
    hide Digest, Flatten, OctetDriver.Valid;
    var a := new OctetDriver(core);
    var i := 0;
    assert cuts[..0] == [];
    NoCuts();
    while i < |cuts|
      invariant 0 <= i <= |cuts|
      invariant a.Valid() && a.core == core && fresh(a) && fresh(a.data)
      invariant a.msg == Flatten(cuts[..i])
    {
      FlattenSnoc(cuts[..i], cuts[i]);
      assert cuts[..i + 1] == cuts[..i] + [cuts[i]];
      a.Update(cuts[i]);
      i := i + 1;
    }
    assert cuts[..i] == cuts;
    d := a.Final();
  }

  /** Any message, cut one way for one driver and another way for the other. */
  method SameDigest(core: Core, cuts: seq<bytes>, cuts': seq<bytes>) returns (d: bytes, d': bytes)
    requires Flatten(cuts) == Flatten(cuts')
    requires AllEnd(cuts)
    requires forall i | 0 <= i < |cuts'| :: |cuts'[i]| < WORD
    ensures d == d' == Digest(core, Flatten(cuts))
  {
    hide Digest, Flatten;
    d := BlockDigest(core, cuts);
    d' := OctetDigest(core, cuts');
  }

  lemma NoCuts()
    ensures Flatten([]) == []
  {
  }

  lemma Carry(h: int, top: int, c: int)
    requires 0 <= h < WORD && 0 <= c <= 1
    ensures ((h + c) % WORD + top) % WORD == (h + top + c) % WORD
  {
    ModSum(h + c, top);
  }

  lemma Next64(n: nat)
    requires n % 64 == 0
    ensures (n + 64) % 64 == 0
  {
  }

  lemma ChainNext(core: Core, all: bytes, n: nat)
    requires n + 64 <= |all|
    ensures Chain(core, all[..n + 64]) == core(Chain(core, all[..n]), Words(all[n..n + 64]))
  {
    assert all[..n + 64] == all[..n] + all[n..n + 64];
    ChainBlock(core, all[..n], all[n..n + 64]);
  }

  lemma FillsBlock(len: nat)
    ensures Whole(len) <= len && (len + (64 - len % 64)) % 64 == 0
  {
  }

  /** Where the loop leaves off is where the whole blocks end. */
  lemma WholeAfter(len: nat, n: nat, i: nat)
    requires i <= n
    requires if n >= 64 - len % 64 then (len + i) % 64 == 0 && n - i < 64 else i == 0
    ensures Whole(len + n) == if n >= 64 - len % 64 then len + i else Whole(len)
    ensures (len + n) % 64 == if n >= 64 - len % 64 then n - i else len % 64 + n
  {
  }

  lemma Tail(before: bytes, input: bytes, i: nat, index: nat)
    requires i <= |input|
    requires if |input| >= 64 - |before| % 64 then index == 0 else index == |before| % 64 && i == 0
    requires Whole(|before| + |input|) == if |input| >= 64 - |before| % 64 then |before| + i else Whole(|before|)
    ensures var all := before + input;
            all[Whole(|all|)..] == (if index == 0 then [] else before[Whole(|before|)..]) + input[i..]
  {
  }
}
