/** LCP's option record and the options it puts in a Configure-Request:
    serialising them and matching an Ack against them. */
module LcpOptions {
  import opened Wire

  type u16 = x: int | 0 <= x < 0x1_0000
  type u32 = x: int | 0 <= x < 0x1_0000_0000

  const CI_MRU: byte := 1
  const CI_ASYNCMAP: byte := 2
  const CI_AUTHTYPE: byte := 3
  const CI_QUALITY: byte := 4
  const CI_MAGICNUMBER: byte := 5
  const CI_PCOMPRESSION: byte := 7
  const CI_ACCOMPRESSION: byte := 8
  const CI_CALLBACK: byte := 13
  const CI_MRRU: byte := 17
  const CI_SSNHF: byte := 18
  const CI_EPDISC: byte := 19

  const CILEN_VOID := 2
  const CILEN_CHAR := 3
  const CILEN_SHORT := 4
  const CILEN_CHAP := 5
  const CILEN_LONG := 6
  const CILEN_LQR := 8

  const PPP_PAP: u16 := 0xc023
  const PPP_LQR: u16 := 0xc025
  const PPP_CHAP: u16 := 0xc223
  const PPP_EAP: u16 := 0xc227
  const CBCP_OPT: byte := 6
  const DEFMRU: u16 := 1500
  const MINMRU: u16 := 128
  const PPP_MRU := 1500
  const ALL_ONES: u32 := 0xFFFF_FFFF
  const MAX_ENDP_LEN := 20

  const CHAP_MICROSOFT_V2: byte := 0x81
  const CHAP_MICROSOFT: byte := 0x80
  const CHAP_DIGEST_MD5: byte := 5

  datatype RawEpdisc = Epdisc(cls: byte, value: bytes)

  /** An endpoint discriminator as stored: at most twenty octets of value. */
  type Epdisc = e: RawEpdisc | |e.value| <= MAX_ENDP_LEN witness Epdisc(0, [])

  /** The options that can be asked for; one flag each in the record. */
  datatype Flag = Mru | Asyncmap | Upap | Chap | Eap | Magic | Pcomp | Accomp | Lqr | Cbcp | Mrru | Ssnhf | Endpoint

  datatype Options = Options(
    neg: set<Flag>,
    mru: u16,
    mrru: u16,
    chapMd: byte,
    asyncmap: u32,
    magic: u32,
    numloops: int,
    lqrPeriod: u32,
    endpoint: Epdisc)

  /** The cleared record. */
  const NoOptions: Options := Options({}, 0, 0, 0, 0, 0, 0, 0, Epdisc(0, []))

  /** Digest id of the most preferred algorithm in a set of supported ones. */
  function Digest(md: byte): byte {
    if md % 2 == 1 then CHAP_MICROSOFT_V2
    else if md / 2 % 2 == 1 then CHAP_MICROSOFT
    else if md / 4 % 2 == 1 then CHAP_DIGEST_MD5
    else 0
  }

  /** The set holding just one algorithm. */
  function MdOf(digest: byte): byte {
    if digest == CHAP_MICROSOFT_V2 then 1
    else if digest == CHAP_MICROSOFT then 2
    else if digest == CHAP_DIGEST_MD5 then 4
    else 0
  }

  predicate CanDigest(md: byte, digest: byte) {
    if digest == CHAP_MICROSOFT_V2 then md % 2 == 1
    else if digest == CHAP_MICROSOFT then md / 2 % 2 == 1
    else if digest == CHAP_DIGEST_MD5 then md / 4 % 2 == 1
    else false
  }

  function LenCi(neg: bool, len: nat): (n: nat)
    ensures n <= len
  {
    if neg then len else 0
  }

  /** One option on the wire, or nothing. */
  function Ci(neg: bool, opt: byte, body: bytes): (r: bytes)
    requires |body| <= 253
    ensures |r| == LenCi(neg, 2 + |body|)
    ensures if neg then |r| >= 2 && r[0] == opt && r[1] == 2 + |body| else r == []
  {
    if neg then [opt, 2 + |body|] + body else []
  }

  function MruCi(o: Options): bytes { Ci(Mru in o.neg && o.mru != DEFMRU, CI_MRU, PutShort(o.mru)) }
  function AsyncmapCi(o: Options): bytes {
    Ci(Asyncmap in o.neg && o.asyncmap != ALL_ONES, CI_ASYNCMAP, PutLong(o.asyncmap))
  }
  function EapCi(o: Options): bytes { Ci(Eap in o.neg, CI_AUTHTYPE, PutShort(PPP_EAP)) }
  function ChapCi(o: Options): bytes {
    Ci(Eap !in o.neg && Chap in o.neg, CI_AUTHTYPE, PutShort(PPP_CHAP) + [Digest(o.chapMd)])
  }
  function PapCi(o: Options): bytes {
    Ci(Eap !in o.neg && Chap !in o.neg && Upap in o.neg, CI_AUTHTYPE, PutShort(PPP_PAP))
  }
  function LqrCi(o: Options): bytes { Ci(Lqr in o.neg, CI_QUALITY, PutShort(PPP_LQR) + PutLong(o.lqrPeriod)) }
  function CbcpCi(o: Options): bytes { Ci(Cbcp in o.neg, CI_CALLBACK, [CBCP_OPT]) }
  function MagicCi(o: Options): bytes { Ci(Magic in o.neg, CI_MAGICNUMBER, PutLong(o.magic)) }
  function PcompCi(o: Options): bytes { Ci(Pcomp in o.neg, CI_PCOMPRESSION, []) }
  function AccompCi(o: Options): bytes { Ci(Accomp in o.neg, CI_ACCOMPRESSION, []) }
  function MrruCi(o: Options): bytes { Ci(Mrru in o.neg, CI_MRRU, PutShort(o.mrru)) }
  function SsnhfCi(o: Options): bytes { Ci(Ssnhf in o.neg, CI_SSNHF, []) }
  function EndpointCi(o: Options): bytes {
    Ci(Endpoint in o.neg, CI_EPDISC, [o.endpoint.cls] + o.endpoint.value)
  }

  /** The options of a Configure-Request, in the order sent: up to the
      authentication protocol, up to the magic number, and all of them. */
  function AddAuth(o: Options): bytes {
    MruCi(o) + AsyncmapCi(o) + EapCi(o) + ChapCi(o) + PapCi(o)
  }

  function AddMagic(o: Options): bytes {
    AddAuth(o) + LqrCi(o) + CbcpCi(o) + MagicCi(o)
  }

  function AddCi(o: Options): (r: bytes) {
    AddMagic(o) + PcompCi(o) + AccompCi(o) + MrruCi(o) + SsnhfCi(o) + EndpointCi(o)
  }

  /** Length announced for the request before it is built. */
  function CiLen(o: Options): nat {
    LenCi(Mru in o.neg && o.mru != DEFMRU, CILEN_SHORT)
    + LenCi(Asyncmap in o.neg && o.asyncmap != ALL_ONES, CILEN_LONG)
    + LenCi(Eap in o.neg, CILEN_SHORT)
    + LenCi(Eap !in o.neg && Chap in o.neg, CILEN_CHAP)
    + LenCi(Eap !in o.neg && Chap !in o.neg && Upap in o.neg, CILEN_SHORT)
    + LenCi(Lqr in o.neg, CILEN_LQR)
    + LenCi(Cbcp in o.neg, CILEN_CHAR)
    + LenCi(Magic in o.neg, CILEN_LONG)
    + LenCi(Pcomp in o.neg, CILEN_VOID)
    + LenCi(Accomp in o.neg, CILEN_VOID)
    + LenCi(Mrru in o.neg, CILEN_SHORT)
    + LenCi(Ssnhf in o.neg, CILEN_VOID)
    + LenCi(Endpoint in o.neg, CILEN_CHAR + |o.endpoint.value|)
  }

  /** The announced length is exact, and fits the smallest packet limit any peer may set. */
  lemma CiLenExact(o: Options)
    ensures |AddCi(o)| == CiLen(o) <= MINMRU - 4
  {
    hide Ci, LenCi, PutShort, PutLong;
  }

  // ---- Building the request ----

  /** Put one option at a cursor. */
  method PutCi(buf: array<byte>, at: nat, neg: bool, opt: byte, body: bytes) returns (next: nat)
    requires |body| <= 253 && at + 2 + |body| <= buf.Length
    modifies buf
    ensures next == at + |Ci(neg, opt, body)| <= at + 2 + |body|
    ensures buf[..next] == old(buf[..at]) + Ci(neg, opt, body)
  {
    next := at;
    if neg {
      buf[at] := opt;
      buf[at + 1] := 2 + |body|;
      var i := 0;
      while i < |body|
        invariant 0 <= i <= |body|
        invariant buf[..at] == old(buf[..at])
        invariant buf[at] == opt && buf[at + 1] == 2 + |body|
        invariant buf[at + 2..at + 2 + i] == body[..i]
      {
        buf[at + 2 + i] := body[i];
        i := i + 1;
      }
      next := at + 2 + |body|;
      assert buf[at..next] == [opt, 2 + |body|] + buf[at + 2..next];
      assert buf[..next] == buf[..at] + buf[at..next];
    }
  }

  method FillAuth(o: Options, buf: array<byte>) returns (next: nat)
    requires buf.Length >= MINMRU
    modifies buf
    ensures next <= 23
    ensures buf[..next] == AddAuth(o)
  {
    hide Ci, LenCi, PutShort, PutLong;
    next := PutCi(buf, 0, Mru in o.neg && o.mru != DEFMRU, CI_MRU, PutShort(o.mru));
    assert buf[..next] == MruCi(o);
    next := PutCi(buf, next, Asyncmap in o.neg && o.asyncmap != ALL_ONES, CI_ASYNCMAP, PutLong(o.asyncmap));
    next := PutCi(buf, next, Eap in o.neg, CI_AUTHTYPE, PutShort(PPP_EAP));
    next := PutCi(buf, next, Eap !in o.neg && Chap in o.neg, CI_AUTHTYPE, PutShort(PPP_CHAP) + [Digest(o.chapMd)]);
    next := PutCi(buf, next, Eap !in o.neg && Chap !in o.neg && Upap in o.neg, CI_AUTHTYPE, PutShort(PPP_PAP));
  }

  method FillMagic(o: Options, buf: array<byte>) returns (next: nat)
    requires buf.Length >= MINMRU
    modifies buf
    ensures next <= 40
    ensures buf[..next] == AddMagic(o)
  {
    hide Ci, LenCi, PutShort, PutLong, AddAuth;
    next := FillAuth(o, buf);
    next := PutCi(buf, next, Lqr in o.neg, CI_QUALITY, PutShort(PPP_LQR) + PutLong(o.lqrPeriod));
    next := PutCi(buf, next, Cbcp in o.neg, CI_CALLBACK, [CBCP_OPT]);
    next := PutCi(buf, next, Magic in o.neg, CI_MAGICNUMBER, PutLong(o.magic));
  }

  /** Build the whole request in the caller's buffer. */
  method FillRequest(o: Options, buf: array<byte>) returns (next: nat)
    requires buf.Length >= MINMRU
    modifies buf
    ensures next == CiLen(o) <= buf.Length
    ensures buf[..next] == AddCi(o)
  {
    hide Ci, LenCi, PutShort, PutLong, AddMagic, CiLen;
    next := FillMagic(o, buf);
    next := PutCi(buf, next, Pcomp in o.neg, CI_PCOMPRESSION, []);
    next := PutCi(buf, next, Accomp in o.neg, CI_ACCOMPRESSION, []);
    next := PutCi(buf, next, Mrru in o.neg, CI_MRRU, PutShort(o.mrru));
    next := PutCi(buf, next, Ssnhf in o.neg, CI_SSNHF, []);
    next := PutCi(buf, next, Endpoint in o.neg, CI_EPDISC, [o.endpoint.cls] + o.endpoint.value);
    CiLenExact(o);
  }

  // ---- Matching an Ack ----

  /** The length, type and header checks that begin every match. `pre` is what
      has been matched so far; a failure stays a failure. */
  method AckHeader(p: bytes, good: bool, i: nat, ghost pre: bytes, opt: byte, neg: bool, ghost body: bytes, cilen: byte)
    returns (ok: bool)
    requires good <==> pre <= p
    requires good ==> i == |pre|
    requires cilen == 2 + |body|
    ensures ok ==> i + cilen <= |p| && p[..i] == pre
    ensures neg && pre + Ci(neg, opt, body) <= p ==> ok
    ensures ok ==> neg && p[i] == opt && p[i + 1] == cilen
  {
    ghost var whole := pre + Ci(true, opt, body);
    assert whole[|pre|] == opt && whole[|pre| + 1] == cilen;
    assert pre <= whole;
    ok := good && neg && i + cilen as int <= |p| && p[i + 1] == cilen && p[i] == opt;
  }

  /** What a match establishes once the header fits: the value decides. */
  lemma AckBody(p: bytes, i: nat, pre: bytes, opt: byte, body: bytes)
    requires |body| <= 253 && i + 2 + |body| <= |p| && p[..i] == pre && p[i] == opt && p[i + 1] == 2 + |body|
    ensures pre + Ci(true, opt, body) <= p <==> p[i + 2..i + 2 + |body|] == body
  {
    var whole := pre + Ci(true, opt, body);
    assert whole[i + 2..] == body;
    assert p[..i + 2 + |body|] == pre + [p[i], p[i + 1]] + p[i + 2..i + 2 + |body|];
  }

  method AckVoid(p: bytes, good: bool, i: nat, ghost pre: bytes, opt: byte, neg: bool)
    returns (ok: bool, j: nat)
    requires good <==> pre <= p
    requires good ==> i == |pre|
    ensures ok <==> pre + Ci(neg, opt, []) <= p
    ensures ok ==> j == |pre + Ci(neg, opt, [])|
  {
    if !neg {
      assert pre + Ci(neg, opt, []) == pre;
      return good, i;
    }
    ok := AckHeader(p, good, i, pre, opt, neg, [], 2);
    if ok {
      AckBody(p, i, pre, opt, []);
    }
    j := i + 2;
  }

  method AckChar(p: bytes, good: bool, i: nat, ghost pre: bytes, opt: byte, neg: bool, val: byte)
    returns (ok: bool, j: nat)
    requires good <==> pre <= p
    requires good ==> i == |pre|
    ensures ok <==> pre + Ci(neg, opt, [val]) <= p
    ensures ok ==> j == |pre + Ci(neg, opt, [val])|
  {
    if !neg {
      assert pre + Ci(neg, opt, [val]) == pre;
      return good, i;
    }
    ok := AckHeader(p, good, i, pre, opt, neg, [val], 3);
    if ok {
      AckBody(p, i, pre, opt, [val]);
      assert p[i + 2..i + 3] == [p[i + 2]];
      ok := p[i + 2] == val;
    }
    j := i + 3;
  }

  method AckShort(p: bytes, good: bool, i: nat, ghost pre: bytes, opt: byte, neg: bool, val: u16)
    returns (ok: bool, j: nat)
    requires good <==> pre <= p
    requires good ==> i == |pre|
    ensures ok <==> pre + Ci(neg, opt, PutShort(val)) <= p
    ensures ok ==> j == |pre + Ci(neg, opt, PutShort(val))|
  {
    if !neg {
      assert pre + Ci(neg, opt, PutShort(val)) == pre;
      return good, i;
    }
    ok := AckHeader(p, good, i, pre, opt, neg, PutShort(val), 4);
    if ok {
      AckBody(p, i, pre, opt, PutShort(val));
      ShortRoundTrip(val, p[i + 2..i + 4]);
      ok := GetShort(p[i + 2..i + 4]) == val;
    }
    j := i + 4;
  }

  method AckChap(p: bytes, good: bool, i: nat, ghost pre: bytes, opt: byte, neg: bool, digest: byte)
    returns (ok: bool, j: nat)
    requires good <==> pre <= p
    requires good ==> i == |pre|
    ensures ok <==> pre + Ci(neg, opt, PutShort(PPP_CHAP) + [digest]) <= p
    ensures ok ==> j == |pre + Ci(neg, opt, PutShort(PPP_CHAP) + [digest])|
  {
    ghost var body := PutShort(PPP_CHAP) + [digest];
    if !neg {
      assert pre + Ci(neg, opt, body) == pre;
      return good, i;
    }
    ok := AckHeader(p, good, i, pre, opt, neg, body, 5);
    if ok {
      AckBody(p, i, pre, opt, body);
      ShortRoundTrip(PPP_CHAP, p[i + 2..i + 4]);
      assert p[i + 2..i + 5] == p[i + 2..i + 4] + [p[i + 4]];
      ok := GetShort(p[i + 2..i + 4]) == PPP_CHAP && p[i + 4] == digest;
    }
    j := i + 5;
  }

  method AckLong(p: bytes, good: bool, i: nat, ghost pre: bytes, opt: byte, neg: bool, val: u32)
    returns (ok: bool, j: nat)
    requires good <==> pre <= p
    requires good ==> i == |pre|
    ensures ok <==> pre + Ci(neg, opt, PutLong(val)) <= p
    ensures ok ==> j == |pre + Ci(neg, opt, PutLong(val))|
  {
    hide PutLong, GetLong;
    if !neg {
      assert pre + Ci(neg, opt, PutLong(val)) == pre;
      return good, i;
    }
    ok := AckHeader(p, good, i, pre, opt, neg, PutLong(val), 6);
    if ok {
      AckBody(p, i, pre, opt, PutLong(val));
      LongRoundTrip(val, p[i + 2..i + 6]);
      ok := GetLong(p[i + 2..i + 6]) == val;
    }
    j := i + 6;
  }

  method AckLqr(p: bytes, good: bool, i: nat, ghost pre: bytes, opt: byte, neg: bool, val: u32)
    returns (ok: bool, j: nat)
    requires good <==> pre <= p
    requires good ==> i == |pre|
    ensures ok <==> pre + Ci(neg, opt, PutShort(PPP_LQR) + PutLong(val)) <= p
    ensures ok ==> j == |pre + Ci(neg, opt, PutShort(PPP_LQR) + PutLong(val))|
  {
    hide PutLong, GetLong, PutShort, GetShort;
    ghost var body := PutShort(PPP_LQR) + PutLong(val);
    if !neg {
      assert pre + Ci(neg, opt, body) == pre;
      return good, i;
    }
    ok := AckHeader(p, good, i, pre, opt, neg, body, 8);
    if ok {
      AckBody(p, i, pre, opt, body);
      ShortRoundTrip(PPP_LQR, p[i + 2..i + 4]);
      LongRoundTrip(val, p[i + 4..i + 8]);
      assert p[i + 2..i + 8] == p[i + 2..i + 4] + p[i + 4..i + 8];
      ok := GetShort(p[i + 2..i + 4]) == PPP_LQR && GetLong(p[i + 4..i + 8]) == val;
    }
    j := i + 8;
  }

  /** Compare octets one by one. */
  method SameOctets(p: bytes, at: nat, val: bytes) returns (ok: bool)
    requires at + |val| <= |p|
    ensures ok <==> p[at..at + |val|] == val
  {
    var k := 0;
    while k < |val|
      invariant 0 <= k <= |val|
      invariant forall i | 0 <= i < k :: p[at + i] == val[i]
    {
      if p[at + k] != val[k] {
        assert p[at..at + |val|][k] != val[k];
        return false;
      }
      k := k + 1;
    }
    return true;
  }

  method AckEndpoint(p: bytes, good: bool, i: nat, ghost pre: bytes, opt: byte, neg: bool, e: Epdisc)
    returns (ok: bool, j: nat)
    requires good <==> pre <= p
    requires good ==> i == |pre|
    ensures ok <==> pre + Ci(neg, opt, [e.cls] + e.value) <= p
    ensures ok ==> j == |pre + Ci(neg, opt, [e.cls] + e.value)|
  {
    ghost var body := [e.cls] + e.value;
    if !neg {
      assert pre + Ci(neg, opt, body) == pre;
      return good, i;
    }
    ok := AckHeader(p, good, i, pre, opt, neg, body, 3 + |e.value|);
    j := i + 3 + |e.value|;
    if ok {
      AckBody(p, i, pre, opt, body);
      assert p[i + 2..i + 2 + |body|] == [p[i + 2]] + p[i + 3..i + 3 + |e.value|];
      ConsEqual(p[i + 2], p[i + 3..i + 3 + |e.value|], e.cls, e.value);
      ok := p[i + 2] == e.cls;
      if ok {
        ok := SameOctets(p, i + 3, e.value);
      }
    }
  }

  lemma ConsEqual(x: byte, a: bytes, y: byte, b: bytes)
    ensures [x] + a == [y] + b <==> x == y && a == b
  {
    assert ([x] + a)[0] == x && ([y] + b)[0] == y && ([x] + a)[1..] == a && ([y] + b)[1..] == b;
  }

  method AckAuth(o: Options, p: bytes) returns (ok: bool, i: nat)
    ensures ok <==> AddAuth(o) <= p
    ensures ok ==> i == |AddAuth(o)|
  {
    hide Ci, LenCi, PutShort, PutLong;
    ok, i := AckShort(p, true, 0, [], CI_MRU, Mru in o.neg && o.mru != DEFMRU, o.mru);
    ghost var pre := MruCi(o);
    assert [] + pre == pre;
    ok, i := AckLong(p, ok, i, pre, CI_ASYNCMAP, Asyncmap in o.neg && o.asyncmap != ALL_ONES, o.asyncmap);
    pre := pre + AsyncmapCi(o);
    ok, i := AckShort(p, ok, i, pre, CI_AUTHTYPE, Eap in o.neg, PPP_EAP);
    pre := pre + EapCi(o);
    ok, i := AckChap(p, ok, i, pre, CI_AUTHTYPE, Eap !in o.neg && Chap in o.neg, Digest(o.chapMd));
    pre := pre + ChapCi(o);
    ok, i := AckShort(p, ok, i, pre, CI_AUTHTYPE, Eap !in o.neg && Chap !in o.neg && Upap in o.neg, PPP_PAP);
  }

  method AckMagic(o: Options, p: bytes) returns (ok: bool, i: nat)
    ensures ok <==> AddMagic(o) <= p
    ensures ok ==> i == |AddMagic(o)|
  {
    hide Ci, LenCi, PutShort, PutLong, AddAuth;
    ok, i := AckAuth(o, p);
    ghost var pre := AddAuth(o);
    ok, i := AckLqr(p, ok, i, pre, CI_QUALITY, Lqr in o.neg, o.lqrPeriod);
    pre := pre + LqrCi(o);
    ok, i := AckChar(p, ok, i, pre, CI_CALLBACK, Cbcp in o.neg, CBCP_OPT);
    pre := pre + CbcpCi(o);
    ok, i := AckLong(p, ok, i, pre, CI_MAGICNUMBER, Magic in o.neg, o.magic);
  }

  /** An Ack is good exactly when it is, octet for octet, the request that the
      current options would produce. */
  method AckCi(o: Options, p: bytes) returns (ok: bool)
    ensures ok <==> p == AddCi(o)
  {
    hide Ci, LenCi, PutShort, PutLong, AddMagic;
    var i: nat;
    ok, i := AckMagic(o, p);
    ghost var pre := AddMagic(o);
    ok, i := AckVoid(p, ok, i, pre, CI_PCOMPRESSION, Pcomp in o.neg);
    pre := pre + PcompCi(o);
    ok, i := AckVoid(p, ok, i, pre, CI_ACCOMPRESSION, Accomp in o.neg);
    pre := pre + AccompCi(o);
    ok, i := AckShort(p, ok, i, pre, CI_MRRU, Mrru in o.neg, o.mrru);
    pre := pre + MrruCi(o);
    ok, i := AckVoid(p, ok, i, pre, CI_SSNHF, Ssnhf in o.neg);
    pre := pre + SsnhfCi(o);
    ok, i := AckEndpoint(p, ok, i, pre, CI_EPDISC, Endpoint in o.neg, o.endpoint);
    ok := ok && i == |p|;
  }
}
