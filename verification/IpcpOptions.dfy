/** IPCP's option record and its Configure-Request: what is asked for, how much of it
    fits the room given, and matching an Ack against it. */
module IpcpOptions {
  import opened Wire
  import L = LcpOptions

  const CI_ADDRS: byte := 1
  const CI_COMPRESSTYPE: byte := 2
  const CI_ADDR: byte := 3
  const CI_MS_DNS1: byte := 129
  const CI_MS_WINS1: byte := 130
  const CI_MS_DNS2: byte := 131
  const CI_MS_WINS2: byte := 132

  const CILEN_COMPRESS := 4
  const CILEN_VJ := 6
  const CILEN_ADDR := 6
  const CILEN_ADDRS := 10

  const VJ_COMP: L.u16 := 0x2d
  const VJ_COMP_OLD: L.u16 := 0x37
  const MAX_STATES := 16

  datatype Flag =
    NegAddr | OldAddrs | ReqAddr | NegVj | OldVj | AcceptLocal | AcceptRemote | ReqDns1 | ReqDns2 | ReqWins1 | ReqWins2

  /** Addresses are kept as the numbers their four octets spell on the wire. */
  datatype Options = Options(
    neg: set<Flag>,
    vjProtocol: L.u16,
    maxSlot: byte,
    cflag: byte,
    ouraddr: L.u32,
    hisaddr: L.u32,
    dns1: L.u32,
    dns2: L.u32,
    wins1: L.u32,
    wins2: L.u32)

  const NoOptions: Options := Options({}, 0, 0, 0, 0, 0, 0, 0, 0, 0)

  function VjBody(o: Options): (r: bytes)
    ensures 2 <= |r| <= 4
  {
    PutShort(o.vjProtocol) + (if OldVj in o.neg then [] else [o.maxSlot, o.cflag])
  }

  function AddrsCi(o: Options): bytes {
    L.Ci(NegAddr !in o.neg && OldAddrs in o.neg, CI_ADDRS, PutLong(o.ouraddr) + PutLong(o.hisaddr))
  }
  function VjCi(o: Options): bytes { L.Ci(NegVj in o.neg, CI_COMPRESSTYPE, VjBody(o)) }
  function AddrCi(o: Options): bytes { L.Ci(NegAddr in o.neg, CI_ADDR, PutLong(o.ouraddr)) }
  function Dns1Ci(o: Options): bytes { L.Ci(ReqDns1 in o.neg, CI_MS_DNS1, PutLong(o.dns1)) }
  function Dns2Ci(o: Options): bytes { L.Ci(ReqDns2 in o.neg, CI_MS_DNS2, PutLong(o.dns2)) }
  function Wins1Ci(o: Options): bytes { L.Ci(ReqWins1 in o.neg, CI_MS_WINS1, PutLong(o.wins1)) }
  function Wins2Ci(o: Options): bytes { L.Ci(ReqWins2 in o.neg, CI_MS_WINS2, PutLong(o.wins2)) }

  const SLOTS := 7

  /** The options in the order sent, and the flag that asks for each. */
  function CiOf(o: Options, k: nat): bytes {
    match k
    case 0 => AddrsCi(o)
    case 1 => VjCi(o)
    case 2 => AddrCi(o)
    case 3 => Dns1Ci(o)
    case 4 => Dns2Ci(o)
    case 5 => Wins1Ci(o)
    case _ => Wins2Ci(o)
  }

  function FlagOf(k: nat): Flag {
    match k
    case 0 => OldAddrs
    case 1 => NegVj
    case 2 => NegAddr
    case 3 => ReqDns1
    case 4 => ReqDns2
    case 5 => ReqWins1
    case _ => ReqWins2
  }

  function FullTo(o: Options, k: nat): bytes {
    if k == 0 then [] else FullTo(o, k - 1) + CiOf(o, k - 1)
  }

  /** The whole request. */
  function Full(o: Options): bytes {
    FullTo(o, SLOTS)
  }

  /** Fall back to older forms of the options the peer has refused: to the old address option always, to
      the old compression option if the peer used it. */
  function Fallback(wo: Options, ho: Options, go: Options): Options {
    var a := if (NegAddr in wo.neg || OldAddrs in wo.neg) && NegAddr !in go.neg && OldAddrs !in go.neg
             then go.(neg := go.neg + {OldAddrs}) else go;
    if NegVj in wo.neg && NegVj !in a.neg && OldVj !in a.neg && NegVj in ho.neg && OldVj in ho.neg
    then a.(neg := a.neg + {NegVj, OldVj}, vjProtocol := ho.vjProtocol) else a
  }

  function CiLen(o: Options): nat {
    L.LenCi(NegAddr !in o.neg && OldAddrs in o.neg, CILEN_ADDRS)
    + L.LenCi(NegVj in o.neg, if OldVj in o.neg then CILEN_COMPRESS else CILEN_VJ)
    + L.LenCi(NegAddr in o.neg, CILEN_ADDR)
    + L.LenCi(ReqDns1 in o.neg, CILEN_ADDR)
    + L.LenCi(ReqDns2 in o.neg, CILEN_ADDR)
    + L.LenCi(ReqWins1 in o.neg, CILEN_ADDR)
    + L.LenCi(ReqWins2 in o.neg, CILEN_ADDR)
  }

  lemma CiLenExact(o: Options)
    ensures |Full(o)| == CiLen(o) <= 46
  {
    hide L.Ci, L.LenCi, PutLong, PutShort, FullTo;
    FullOf(o);
  }

  /** Adjust the options to what the peer understands, and announce the length of the request. */
  method Announce(wo: Options, ho: Options, go: Options) returns (go': Options, len: nat)
    ensures go' == Fallback(wo, ho, go) && len == |Full(go')|
  {
    hide CiLen, Full;
    go' := go;
    if (NegAddr in wo.neg || OldAddrs in wo.neg) && NegAddr !in go'.neg && OldAddrs !in go'.neg {
      go' := go'.(neg := go'.neg + {OldAddrs});
    }
    if NegVj in wo.neg && NegVj !in go'.neg && OldVj !in go'.neg {
      if NegVj in ho.neg && OldVj in ho.neg {
        go' := go'.(neg := go'.neg + {NegVj}, vjProtocol := ho.vjProtocol);
        go' := go'.(neg := go'.neg + {OldVj});
      }
    }
    assert go'.neg == Fallback(wo, ho, go).neg;
    CiLenExact(go');
    len := CiLen(go');
  }

  /** A wanted address is always asked for in one form or the other, nothing asked for is withdrawn, and
      compression is asked for again only in the old form and with the protocol number the peer itself used. */
  lemma FallbackAsks(wo: Options, ho: Options, go: Options)
    ensures var o := Fallback(wo, ho, go);
            && go.neg <= o.neg <= go.neg + {OldAddrs, NegVj, OldVj}
            && (NegAddr in wo.neg || OldAddrs in wo.neg ==> NegAddr in o.neg || OldAddrs in o.neg)
            && (AddrCi(o) == AddrCi(go) && (AddrsCi(go) != [] ==> AddrsCi(o) == AddrsCi(go)))
            && (VjCi(o) != VjCi(go) ==>
                  VjCi(go) == [] && VjCi(o) == [CI_COMPRESSTYPE, CILEN_COMPRESS] + PutShort(ho.vjProtocol))
  {
    hide PutLong, PutShort;
    var o := Fallback(wo, ho, go);
    if NegVj in o.neg && NegVj !in go.neg {
      assert VjBody(o) == PutShort(ho.vjProtocol) + [] == PutShort(ho.vjProtocol);
    }
  }

  lemma FullOf(o: Options)
    ensures Full(o) == AddrsCi(o) + VjCi(o) + AddrCi(o) + Dns1Ci(o) + Dns2Ci(o) + Wins1Ci(o) + Wins2Ci(o)
  {
    hide AddrsCi, VjCi, AddrCi, Dns1Ci, Dns2Ci, Wins1Ci, Wins2Ci;
    assert FullTo(o, 1) == [] + AddrsCi(o) == AddrsCi(o);
    assert FullTo(o, 2) == AddrsCi(o) + VjCi(o);
    assert FullTo(o, 4) == FullTo(o, 2) + AddrCi(o) + Dns1Ci(o);
    assert FullTo(o, 6) == FullTo(o, 4) + Dns2Ci(o) + Wins1Ci(o);
  }

  // ---- Putting what fits ----

  /** A request under construction: the options as they now stand, the octets put, the room left. */
  datatype Built = Built(o: Options, out: bytes, room: int)

  /** Put one option, or stop asking for it if there is no room. */
  function Add(b: Built, f: Flag, ci: bytes): Built {
    if ci == [] then b
    else if b.room >= |ci| then Built(b.o, b.out + ci, b.room - |ci|)
    else Built(b.o.(neg := b.o.neg - {f}), b.out, b.room)
  }

  function AddTo(o: Options, room: int, k: nat): Built {
    if k == 0 then Built(o, [], room) else Add(AddTo(o, room, k - 1), FlagOf(k - 1), CiOf(o, k - 1))
  }

  function AddCi(o: Options, room: int): Built {
    AddTo(o, room, SLOTS)
  }

  lemma {:induction false} AddedInFullTo(o: Options, room: int, k: nat)
    requires |FullTo(o, k)| <= room
    ensures AddTo(o, room, k) == Built(o, FullTo(o, k), room - |FullTo(o, k)|)
  {
    hide CiOf, FlagOf;
    if k > 0 {
      AddedInFullTo(o, room, k - 1);
      assert FullTo(o, k - 1) + [] == FullTo(o, k - 1);
    }
  }

  /** With room for all of it, all of it is put and nothing is given up. */
  lemma AddedInFull(o: Options, room: int)
    requires |Full(o)| <= room
    ensures AddCi(o, room) == Built(o, Full(o), room - |Full(o)|)
  {
    AddedInFullTo(o, room, SLOTS);
  }

  // ---- Too little room ----

  /** Whether option k finds no room. */
  predicate Lost(o: Options, room: int, k: nat) {
    CiOf(o, k) != [] && AddTo(o, room, k).room < |CiOf(o, k)|
  }

  /** The flags given up by then. */
  function Drops(o: Options, room: int, k: nat): set<Flag> {
    if k == 0 then {} else Drops(o, room, k - 1) + if Lost(o, room, k - 1) then {FlagOf(k - 1)} else {}
  }

  lemma {:induction false} DropsAre(o: Options, room: int, k: nat, j: nat)
    requires k <= SLOTS && j < SLOTS
    ensures FlagOf(j) in Drops(o, room, k) <==> j < k && Lost(o, room, j)
    ensures OldVj !in Drops(o, room, k)
  {
    hide Lost;
    if k > 0 {
      DropsAre(o, room, k - 1, j);
      FlagsDiffer(j, k - 1);
    }
  }

  lemma FlagsDiffer(i: nat, j: nat)
    requires i < SLOTS && j < SLOTS
    ensures FlagOf(i) == FlagOf(j) <==> i == j
    ensures FlagOf(j) != OldVj
  {
  }

  lemma {:induction false} AddedOptions(o: Options, room: int, k: nat)
    ensures AddTo(o, room, k).o == o.(neg := o.neg - Drops(o, room, k))
  {
    hide CiOf, FlagOf;
    if k > 0 {
      AddedOptions(o, room, k - 1);
      assert o.neg - Drops(o, room, k - 1) - {FlagOf(k - 1)} == o.neg - (Drops(o, room, k - 1) + {FlagOf(k - 1)});
      assert Drops(o, room, k - 1) + {} == Drops(o, room, k - 1);
    } else {
      assert o.neg - {} == o.neg;
    }
  }

  /** What dropping some options leaves of the others. */
  lemma DroppedPart(o: Options, drop: set<Flag>, k: nat)
    requires OldVj !in drop && 0 < k < SLOTS
    ensures CiOf(o.(neg := o.neg - drop), k) == if FlagOf(k) in drop then [] else CiOf(o, k)
  {
    hide PutLong, PutShort;
  }

  /** The address is dropped although the older form would then be asked for. */
  predicate AddrLost(o: Options, room: int) {
    var vj := |VjCi(o)|;
    NegAddr in o.neg && OldAddrs in o.neg && (if vj <= room then room - vj else room) < CILEN_ADDR
  }

  lemma AddrLostIs(o: Options, room: int)
    ensures AddrLost(o, room) <==> OldAddrs in o.neg && Lost(o, room, 2)
  {
    hide PutLong, PutShort;
    assert AddTo(o, room, 1) == Add(Built(o, [], room), OldAddrs, AddrsCi(o));
    assert AddTo(o, room, 2) == Add(AddTo(o, room, 1), NegVj, VjCi(o));
  }

  /** The old address option afterwards: what went out, or ten octets that did not. */
  lemma DroppedAddrs(o: Options, room: int)
    ensures var d := AddCi(o, room).o;
            if AddrLost(o, room) then |AddrsCi(d)| == CILEN_ADDRS && AddTo(o, room, 1).out == []
            else AddrsCi(d) == AddTo(o, room, 1).out
  {
    hide PutLong, PutShort;
    AddedOptions(o, room, SLOTS);
    DropsAre(o, room, SLOTS, 0);
    DropsAre(o, room, SLOTS, 2);
    AddrLostIs(o, room);
    assert AddTo(o, room, 1) == Add(Built(o, [], room), OldAddrs, AddrsCi(o));
    assert [] + AddrsCi(o) == AddrsCi(o);
  }

  /** What went out, against what the options left standing would ask for. */
  lemma {:induction false} PutAgainst(o: Options, room: int, k: nat)
    requires 1 <= k <= SLOTS
    ensures var d := AddCi(o, room).o;
            if AddrLost(o, room) then |FullTo(d, k)| == |AddTo(o, room, k).out| + CILEN_ADDRS
            else FullTo(d, k) == AddTo(o, room, k).out
  {
    hide AddrsCi, VjCi, CiOf, FlagOf, AddrLost;
    var d := AddCi(o, room).o;
    if k == 1 {
      DroppedAddrs(o, room);
      assert FullTo(d, 1) == CiOf(d, 0) by { assert FullTo(d, 0) == []; }
      FirstCi(d);
    } else {
      PutAgainst(o, room, k - 1);
      AddedOptions(o, room, SLOTS);
      DropsAre(o, room, SLOTS, k - 1);
      DroppedPart(o, Drops(o, room, SLOTS), k - 1);
      assert AddTo(o, room, k - 1).out + [] == AddTo(o, room, k - 1).out;
    }
  }

  lemma FirstCi(o: Options)
    ensures CiOf(o, 0) == AddrsCi(o)
  {
  }

  /** However little room there is, what goes out is exactly what the options left standing ask for, unless
      the address option finds no room while the old form is still enabled. */
  lemma PutIsAskedIff(o: Options, room: int)
    ensures AddCi(o, room).out == Full(AddCi(o, room).o) <==> !AddrLost(o, room)
  {
    PutAgainst(o, room, SLOTS);
  }

  /** The least room any peer leaves: what it will receive is never less than 128 octets, header included. */
  const LEAST_ROOM := 124

  /** So in every packet this daemon sends the address finds room, nothing is given up, and what goes out is all
      that is asked for. */
  lemma AllAskedGoesOut(o: Options, room: int)
    requires room >= LEAST_ROOM
    ensures !AddrLost(o, room)
    ensures AddCi(o, room).o == o && AddCi(o, room).out == Full(o)
  {
    hide Full, AddCi;
    CiLenExact(o);
    AddedInFull(o, room);
  }

  lemma {:induction false} RoomLeft(o: Options, room: int, k: nat)
    ensures AddTo(o, room, k).room == room - |AddTo(o, room, k).out|
  {
    hide CiOf, FlagOf;
    if k > 0 {
      RoomLeft(o, room, k - 1);
    }
  }

  lemma LateSizes(o: Options, k: nat)
    requires 2 <= k < SLOTS
    ensures |CiOf(o, k)| == 0 || |CiOf(o, k)| == CILEN_ADDR
  {
    hide PutLong;
  }

  lemma {:induction false} TooTight(o: Options, room: int, k: nat)
    requires 2 <= k <= SLOTS && AddTo(o, room, 2).room < CILEN_ADDR
    ensures AddTo(o, room, k).room < CILEN_ADDR
  {
    hide CiOf, FlagOf;
    if k > 2 {
      TooTight(o, room, k - 1);
      LateSizes(o, k - 1);
    }
  }

  /** What the options left standing ask for either went out in full or would not have fitted. */
  lemma AskedFitsThenPut(o: Options, room: int)
    ensures |Full(AddCi(o, room).o)| <= room ==> AddCi(o, room).out == Full(AddCi(o, room).o)
  {
    hide AddTo, FullTo, AddrLost, CiOf;
    PutIsAskedIff(o, room);
    if AddrLost(o, room) {
      PutAgainst(o, room, SLOTS);
      AddrLostIs(o, room);
      LateSizes(o, 2);
      TooTight(o, room, SLOTS);
      RoomLeft(o, room, SLOTS);
    }
  }

  // ---- Building the request in a buffer ----

  method PutOption(buf: array<byte>, at: nat, room: int, neg: bool, opt: byte, body: bytes)
    returns (next: nat, left: int, dropped: bool)
    requires |body| <= 253 && 0 <= room && at + room <= buf.Length
    modifies buf
    ensures at <= next && left == room - (next - at) && 0 <= left && next + left <= buf.Length
    ensures dropped <==> neg && room < 2 + |body|
    ensures buf[..next] == old(buf[..at]) + if dropped then [] else L.Ci(neg, opt, body)
  {
    next, left, dropped := at, room, false;
    if neg {
      if room >= 2 + |body| {
        next := L.PutCi(buf, at, true, opt, body);
        left := room - (2 + |body|);
      } else {
        dropped := true;
      }
    }
    assert old(buf[..at]) + [] == old(buf[..at]);
  }

  /** One option put, or its flag cleared, at the caller's cursor. */
  method PutSlot(o: Options, ghost room: int, buf: array<byte>, b: Built, at: nat, ghost k: nat, f: Flag,
                 neg: bool, opt: byte, body: bytes)
    returns (b': Built, next: nat)
    requires |body| <= 253 && 0 <= b.room && at + b.room <= buf.Length && k < SLOTS
    requires b == AddTo(o, room, k) && buf[..at] == b.out
    requires f == FlagOf(k) && L.Ci(neg, opt, body) == CiOf(o, k)
    modifies buf
    ensures b' == AddTo(o, room, k + 1) && 0 <= b'.room && next + b'.room <= buf.Length && buf[..next] == b'.out
  {
    hide CiOf, FlagOf;
    var left, dropped;
    next, left, dropped := PutOption(buf, at, b.room, neg, opt, body);
    b' := Built(if dropped then b.o.(neg := b.o.neg - {f}) else b.o, buf[..next], left);
    assert b.out + [] == b.out;
  }

  method FillAddress(o: Options, buf: array<byte>, room: int) returns (b: Built, next: nat)
    requires 0 <= room <= buf.Length
    modifies buf
    ensures b == AddTo(o, room, 3) && 0 <= b.room && next + b.room <= buf.Length && buf[..next] == b.out
  {
    hide AddTo, PutLong, VjBody;
    b := Built(o, [], room);
    AddToNone(o, room);
    assert buf[..0] == [];
    b, next := PutSlot(o, room, buf, b, 0, 0, OldAddrs, NegAddr !in o.neg && OldAddrs in o.neg, CI_ADDRS,
                       PutLong(o.ouraddr) + PutLong(o.hisaddr));
    b, next := PutSlot(o, room, buf, b, next, 1, NegVj, NegVj in o.neg, CI_COMPRESSTYPE, VjBody(o));
    b, next := PutSlot(o, room, buf, b, next, 2, NegAddr, NegAddr in o.neg, CI_ADDR, PutLong(o.ouraddr));
  }

  /** Build the request in the caller's buffer, as far as the room given goes. */
  method FillRequest(o: Options, buf: array<byte>, room: int) returns (o': Options, next: nat)
    requires 0 <= room <= buf.Length
    modifies buf
    ensures next <= buf.Length && o' == AddCi(o, room).o && buf[..next] == AddCi(o, room).out
  {
    hide AddTo, PutLong;
    var b;
    b, next := FillAddress(o, buf, room);
    b, next := PutSlot(o, room, buf, b, next, 3, ReqDns1, ReqDns1 in o.neg, CI_MS_DNS1, PutLong(o.dns1));
    b, next := PutSlot(o, room, buf, b, next, 4, ReqDns2, ReqDns2 in o.neg, CI_MS_DNS2, PutLong(o.dns2));
    b, next := PutSlot(o, room, buf, b, next, 5, ReqWins1, ReqWins1 in o.neg, CI_MS_WINS1, PutLong(o.wins1));
    b, next := PutSlot(o, room, buf, b, next, 6, ReqWins2, ReqWins2 in o.neg, CI_MS_WINS2, PutLong(o.wins2));
    o' := b.o;
  }

  lemma AddToNone(o: Options, room: int)
    ensures AddTo(o, room, 0) == Built(o, [], room)
  {
  }

  // ---- Matching an Ack ----

  method AckAddrs(p: bytes, good: bool, i: nat, ghost pre: bytes, opt: byte, neg: bool, a: L.u32, b: L.u32)
    returns (ok: bool, j: nat)
    requires good <==> pre <= p
    requires good ==> i == |pre|
    ensures ok <==> pre + L.Ci(neg, opt, PutLong(a) + PutLong(b)) <= p
    ensures ok ==> j == |pre + L.Ci(neg, opt, PutLong(a) + PutLong(b))|
  {
    hide PutLong, GetLong;
    ghost var body := PutLong(a) + PutLong(b);
    if !neg {
      assert pre + L.Ci(neg, opt, body) == pre;
      return good, i;
    }
    ok := L.AckHeader(p, good, i, pre, opt, neg, body, 10);
    if ok {
      L.AckBody(p, i, pre, opt, body);
      LongRoundTrip(a, p[i + 2..i + 6]);
      LongRoundTrip(b, p[i + 6..i + 10]);
      assert p[i + 2..i + 10] == p[i + 2..i + 6] + p[i + 6..i + 10];
      ok := GetLong(p[i + 2..i + 6]) == a && GetLong(p[i + 6..i + 10]) == b;
    }
    j := i + 10;
  }

  method AckVj(p: bytes, good: bool, i: nat, ghost pre: bytes, o: Options) returns (ok: bool, j: nat)
    requires good <==> pre <= p
    requires good ==> i == |pre|
    ensures ok <==> pre + VjCi(o) <= p
    ensures ok ==> j == |pre + VjCi(o)|
  {
    hide PutShort, GetShort;
    ghost var body := VjBody(o);
    if NegVj !in o.neg {
      assert pre + VjCi(o) == pre;
      return good, i;
    }
    var vjLen: byte := if OldVj in o.neg then 4 else 6;
    ok := L.AckHeader(p, good, i, pre, CI_COMPRESSTYPE, true, body, vjLen);
    if ok {
      L.AckBody(p, i, pre, CI_COMPRESSTYPE, body);
      ShortRoundTrip(o.vjProtocol, p[i + 2..i + 4]);
      ok := GetShort(p[i + 2..i + 4]) == o.vjProtocol;
      if OldVj !in o.neg {
        assert p[i + 2..i + 6] == p[i + 2..i + 4] + [p[i + 4], p[i + 5]];
        ok := ok && p[i + 4] == o.maxSlot && p[i + 5] == o.cflag;
      }
    }
    j := i + vjLen;
  }

  method AckAddress(o: Options, p: bytes) returns (ok: bool, i: nat)
    ensures ok <==> FullTo(o, 3) <= p
    ensures ok ==> i == |FullTo(o, 3)|
  {
    hide L.Ci, PutLong, VjCi, FullTo;
    FullSteps(o);
    ok, i := AckAddrs(p, true, 0, FullTo(o, 0), CI_ADDRS, NegAddr !in o.neg && OldAddrs in o.neg, o.ouraddr, o.hisaddr);
    ok, i := AckVj(p, ok, i, FullTo(o, 1), o);
    ok, i := L.AckLong(p, ok, i, FullTo(o, 2), CI_ADDR, NegAddr in o.neg, o.ouraddr);
  }

  /** An Ack is good exactly when it is the request the current options ask for. */
  method AckCi(o: Options, p: bytes) returns (ok: bool)
    ensures ok <==> p == Full(o)
  {
    hide L.Ci, PutLong, VjCi, AddrsCi, AddrCi, FullTo;
    FullSteps(o);
    var i: nat;
    ok, i := AckAddress(o, p);
    ok, i := L.AckLong(p, ok, i, FullTo(o, 3), CI_MS_DNS1, ReqDns1 in o.neg, o.dns1);
    ok, i := L.AckLong(p, ok, i, FullTo(o, 4), CI_MS_DNS2, ReqDns2 in o.neg, o.dns2);
    ok, i := L.AckLong(p, ok, i, FullTo(o, 5), CI_MS_WINS1, ReqWins1 in o.neg, o.wins1);
    ok, i := L.AckLong(p, ok, i, FullTo(o, 6), CI_MS_WINS2, ReqWins2 in o.neg, o.wins2);
    ok := ok && i == |p|;
  }

  lemma FullSteps(o: Options)
    ensures FullTo(o, 0) == [] && FullTo(o, 1) == FullTo(o, 0) + AddrsCi(o) && FullTo(o, 2) == FullTo(o, 1) + VjCi(o)
    ensures FullTo(o, 3) == FullTo(o, 2) + AddrCi(o) && FullTo(o, 4) == FullTo(o, 3) + Dns1Ci(o)
    ensures FullTo(o, 5) == FullTo(o, 4) + Dns2Ci(o) && FullTo(o, 6) == FullTo(o, 5) + Wins1Ci(o)
    ensures FullTo(o, 7) == FullTo(o, 6) + Wins2Ci(o)
  {
    hide AddrsCi, VjCi, AddrCi, Dns1Ci, Dns2Ci, Wins1Ci, Wins2Ci;
  }
}
