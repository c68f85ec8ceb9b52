/** Judging a peer's IPCP Configure-Request: the meaning of each option, the answer to a whole
    request, and the one pass that rewrites the packet buffer into that answer. */
module IpcpRequest {
  import opened Wire
  import opened IpcpOptions
  import R = LcpRequest
  import F = Fsm

  /** What judging changes: our wishes and the peer's options recorded so far. */
  datatype Known = Known(wo: Options, ho: Options)

  /** The code for one option, its octets as they leave the judgement, and what is then known. */
  datatype Judged = Judged(code: byte, octets: bytes, known: Known)

  /** Whether an address the peer names for itself has to be countered. */
  predicate Contradicts(wo: Options, addr: int) {
    addr != wo.hisaddr && (addr == 0 || AcceptRemote !in wo.neg)
  }

  function Recorded(ho: Options, f: Flag): Options {
    ho.(neg := ho.neg + {f})
  }

  function Unasked(s: Known): Known {
    s.(wo := s.wo.(neg := s.wo.neg - {ReqAddr}))
  }

  function JudgeAddrs(ao: Options, s: Known, opt: bytes, tough: bool): Judged {
    if OldAddrs !in ao.neg || NegAddr in s.ho.neg || |opt| != CILEN_ADDRS then Judged(F.CONFREJ, opt, s)
    else
      var his, ours := GetLong(opt[2..6]), GetLong(opt[6..10]);
      if !Contradicts(s.wo, his) && his == 0 && s.wo.hisaddr == 0 then Judged(F.CONFREJ, opt, Unasked(s))
      else
        var differs := ours != s.wo.ouraddr;
        var nakOurs := differs && (ours == 0 || AcceptLocal !in s.wo.neg);
        var first := if Contradicts(s.wo, his) && !tough then PutLong(s.wo.hisaddr) else opt[2..6];
        var second := if nakOurs && !tough then PutLong(s.wo.ouraddr) else opt[6..10];
        Judged(if Contradicts(s.wo, his) || nakOurs then F.CONFNAK else F.CONFACK,
               opt[..2] + first + second,
               Known(if differs && !nakOurs then s.wo.(ouraddr := ours) else s.wo,
                     Recorded(s.ho.(hisaddr := his, ouraddr := ours), OldAddrs)))
  }

  function JudgeAddr(ao: Options, s: Known, opt: bytes, tough: bool): Judged {
    if NegAddr !in ao.neg || OldAddrs in s.ho.neg || |opt| != CILEN_ADDR then Judged(F.CONFREJ, opt, s)
    else
      var his := GetLong(opt[2..6]);
      var known := s.(ho := Recorded(s.ho.(hisaddr := his), NegAddr));
      if Contradicts(s.wo, his) then
        Judged(F.CONFNAK, opt[..2] + (if tough then opt[2..6] else PutLong(s.wo.hisaddr)), known)
      else if his == 0 && s.wo.hisaddr == 0 then Judged(F.CONFREJ, opt, Unasked(s))
      else Judged(F.CONFACK, opt, known)
  }

  /** A name server address other than ours is overwritten even when it is about to be refused. */
  function JudgeServer(addr: int, s: Known, opt: bytes): Judged {
    if addr == 0 || |opt| != CILEN_ADDR then Judged(F.CONFREJ, opt, s)
    else if GetLong(opt[2..6]) != addr then Judged(F.CONFNAK, opt[..2] + PutLong(addr), s)
    else Judged(F.CONFACK, opt, s)
  }

  function JudgeVj(ao: Options, s: Known, opt: bytes, tough: bool): Judged {
    if NegVj !in ao.neg || (|opt| != CILEN_VJ && |opt| != CILEN_COMPRESS) then Judged(F.CONFREJ, opt, s)
    else
      var proto := GetShort(opt[2..4]);
      if !(proto == VJ_COMP as int || (proto == VJ_COMP_OLD as int && |opt| == CILEN_COMPRESS)) then
        Judged(F.CONFREJ, opt, s)
      else
        var ho := Recorded(s.ho.(vjProtocol := proto), NegVj);
        if |opt| == CILEN_VJ then
          var slots, cflag := opt[4], opt[5];
          var nakSlots, nakFlag := slots > ao.maxSlot, cflag != 0 && ao.cflag == 0;
          Judged(if nakSlots || nakFlag then F.CONFNAK else F.CONFACK,
                 opt[..4] + [if nakSlots && !tough then ao.maxSlot else slots,
                             if nakFlag && !tough then s.wo.cflag else cflag],
                 s.(ho := ho.(maxSlot := slots, cflag := cflag)))
        else Judged(F.CONFACK, opt, s.(ho := Recorded(ho.(maxSlot := MAX_STATES - 1, cflag := 1), OldVj)))
  }

  /** The meaning of one well-formed option. */
  function JudgeOption(ao: Options, s: Known, opt: bytes, tough: bool): Judged
    requires |opt| >= 2
  {
    if opt[0] == CI_ADDRS then JudgeAddrs(ao, s, opt, tough)
    else if opt[0] == CI_ADDR then JudgeAddr(ao, s, opt, tough)
    else if opt[0] == CI_MS_DNS1 then JudgeServer(ao.dns1, s, opt)
    else if opt[0] == CI_MS_DNS2 then JudgeServer(ao.dns2, s, opt)
    else if opt[0] == CI_MS_WINS1 then JudgeServer(ao.wins1, s, opt)
    else if opt[0] == CI_MS_WINS2 then JudgeServer(ao.wins2, s, opt)
    else if opt[0] == CI_COMPRESSTYPE then JudgeVj(ao, s, opt, tough)
    else Judged(F.CONFREJ, opt, s)
  }

  // ---- Parse, classify, filter ----

  function JudgePiece(ao: Options, s: Known, x: R.Piece, tough: bool): Judged {
    if !x.whole || |x.octets| < 2 then Judged(F.CONFREJ, x.octets, s) else JudgeOption(ao, s, x.octets, tough)
  }

  function Toughened(code: byte, tough: bool): byte {
    if code == F.CONFNAK && tough then F.CONFREJ else code
  }

  /** The ruling on one piece: its code once toughened, and the octets to send back. */
  datatype Ruling = Ruling(code: byte, octets: bytes)

  function KnownAfter(ao: Options, s: Known, xs: seq<R.Piece>, tough: bool): Known {
    if xs == [] then s
    else JudgePiece(ao, KnownAfter(ao, s, xs[..|xs| - 1], tough), xs[|xs| - 1], tough).known
  }

  function RulingOn(ao: Options, s: Known, x: R.Piece, tough: bool): Ruling {
    var j := JudgePiece(ao, s, x, tough);
    Ruling(Toughened(j.code, tough), j.octets)
  }

  function Rulings(ao: Options, s: Known, xs: seq<R.Piece>, tough: bool): (r: seq<Ruling>)
    ensures |r| == |xs|
  {
    if xs == [] then []
    else
      var n := |xs| - 1;
      Rulings(ao, s, xs[..n], tough) + [RulingOn(ao, KnownAfter(ao, s, xs[..n], tough), xs[n], tough)]
  }

  /** The strongest code: Reject over Nak over Ack. */
  function Worst(rs: seq<Ruling>): byte {
    if rs == [] then F.CONFACK
    else
      var c := Worst(rs[..|rs| - 1]);
      if rs[|rs| - 1].code > c then rs[|rs| - 1].code else c
  }

  /** The options ruled with one code, in order. */
  function Part(rs: seq<Ruling>, code: byte): bytes {
    if rs == [] then []
    else Part(rs[..|rs| - 1], code) + if rs[|rs| - 1].code == code then rs[|rs| - 1].octets else []
  }

  datatype Outcome = Outcome(code: byte, out: bytes, known: Known)

  /** Ask the peer for its address if it named none. */
  predicate AsksAddr(code: byte, s: Known, tough: bool) {
    code != F.CONFREJ && NegAddr !in s.ho.neg && OldAddrs !in s.ho.neg && ReqAddr in s.wo.neg && !tough
  }

  function AskAddr(wo: Options): bytes {
    [CI_ADDR, CILEN_ADDR] + PutLong(wo.hisaddr)
  }

  /** The options with the strongest code; to an Ack or Nak the wish for an address may be added, which
      turns an Ack into a Nak of just that. */
  function Concluded(code: byte, part: bytes, s: Known, tough: bool): Outcome {
    if !AsksAddr(code, s, tough) then Outcome(code, part, s)
    else if code == F.CONFACK then Outcome(F.CONFNAK, AskAddr(s.wo), Unasked(s))
    else Outcome(F.CONFNAK, part + AskAddr(s.wo), s)
  }

  function ReqCi(ao: Options, wo: Options, p: bytes, tough: bool): Outcome {
    var xs, s := R.Pieces(p), Known(wo, NoOptions);
    var rs := Rulings(ao, s, xs, tough);
    Concluded(Worst(rs), Part(rs, Worst(rs)), KnownAfter(ao, s, xs, tough), tough)
  }

  // ---- What the answers mean ----

  lemma JudgeCodes(ao: Options, s: Known, x: R.Piece, tough: bool)
    ensures var j := JudgePiece(ao, s, x, tough);
            && F.CONFACK <= j.code <= F.CONFREJ && |j.octets| == |x.octets|
            && (j.code == F.CONFACK ==> j.octets == x.octets)
  {
    hide GetLong, PutLong, GetShort;
  }

  lemma {:induction false} RulingAt(ao: Options, s: Known, xs: seq<R.Piece>, tough: bool, k: nat)
    requires k < |xs|
    ensures Rulings(ao, s, xs, tough)[k] == RulingOn(ao, KnownAfter(ao, s, xs[..k], tough), xs[k], tough)
  {
    hide RulingOn, KnownAfter;
    var n := |xs| - 1;
    if k < n {
      RulingAt(ao, s, xs[..n], tough, k);
      assert xs[..n][..k] == xs[..k];
    }
  }

  /** The strongest code bounds every ruling, and some ruling has it unless all is well. */
  lemma {:induction false} WorstIs(rs: seq<Ruling>)
    ensures Worst(rs) >= F.CONFACK
    ensures forall k | 0 <= k < |rs| :: rs[k].code <= Worst(rs)
    ensures Worst(rs) != F.CONFACK ==> exists k :: 0 <= k < |rs| && rs[k].code == Worst(rs)
  {
    if rs != [] {
      var n := |rs| - 1;
      WorstIs(rs[..n]);
      if Worst(rs) != F.CONFACK {
        if rs[n].code > Worst(rs[..n]) {
          assert rs[n].code == Worst(rs);
        } else {
          var k :| 0 <= k < n && rs[..n][k].code == Worst(rs);
          assert rs[k].code == Worst(rs);
        }
      }
    }
  }

  lemma RulingCodes(ao: Options, s: Known, x: R.Piece, tough: bool)
    ensures var r := RulingOn(ao, s, x, tough);
            && F.CONFACK <= r.code <= F.CONFREJ && |r.octets| == |x.octets|
            && (tough ==> r.code != F.CONFNAK)
            && (r.code == F.CONFACK ==> r.octets == x.octets)
  {
    hide JudgePiece;
    JudgeCodes(ao, s, x, tough);
  }

  lemma WorstCodes(ao: Options, s: Known, xs: seq<R.Piece>, tough: bool)
    ensures F.CONFACK <= Worst(Rulings(ao, s, xs, tough)) <= F.CONFREJ
    ensures tough ==> Worst(Rulings(ao, s, xs, tough)) != F.CONFNAK
  {
    hide RulingOn, Rulings, Worst;
    var rs := Rulings(ao, s, xs, tough);
    WorstIs(rs);
    if Worst(rs) != F.CONFACK {
      var k :| 0 <= k < |rs| && rs[k].code == Worst(rs);
      RulingAt(ao, s, xs, tough, k);
      RulingCodes(ao, KnownAfter(ao, s, xs[..k], tough), xs[k], tough);
    }
  }

  /** Once told to get tough, the answer is never a Nak. */
  lemma ToughNeverNaks(ao: Options, wo: Options, p: bytes)
    ensures ReqCi(ao, wo, p, true).code != F.CONFNAK
  {
    hide Rulings, Worst, Part, R.Pieces;
    WorstCodes(ao, Known(wo, NoOptions), R.Pieces(p), true);
  }

  /** Pieces put together again. */
  function Joined(xs: seq<R.Piece>): bytes {
    if xs == [] then [] else Joined(xs[..|xs| - 1]) + xs[|xs| - 1].octets
  }

  lemma JoinedMore(xs: seq<R.Piece>, x: R.Piece)
    ensures Joined(xs + [x]) == Joined(xs) + x.octets
  {
    assert (xs + [x])[..|xs|] == xs;
  }

  lemma JoinedNone()
    ensures Joined([]) == []
  {
  }

  lemma {:induction false} JoinedFront(x: R.Piece, xs: seq<R.Piece>)
    ensures Joined([x] + xs) == x.octets + Joined(xs)
  {
    hide Joined;
    JoinedNone();
    if xs == [] {
      assert [x] + xs == [] + [x];
      JoinedMore([], x);
      assert [] + x.octets == x.octets + [];
    } else {
      var n := |xs| - 1;
      var init, last := xs[..n], xs[n];
      JoinedFront(x, init);
      assert xs == init + [last];
      assert [x] + (init + [last]) == ([x] + init) + [last];
      JoinedMore([x] + init, last);
      JoinedMore(init, last);
      assert x.octets + Joined(init) + last.octets == x.octets + (Joined(init) + last.octets);
    }
  }

  lemma {:induction false} PiecesJoin(p: bytes)
    ensures Joined(R.Pieces(p)) == p
  {
    if p != [] && R.Cut(p) {
      PiecesJoin(p[p[1]..]);
      JoinedFront(R.Piece(p[..p[1]], true), R.Pieces(p[p[1]..]));
    } else if p != [] {
      assert [R.Piece(p, false)][..0] == [];
      assert Joined([R.Piece(p, false)]) == [] + p;
    }
  }

  lemma {:induction false} AllAcked(ao: Options, s: Known, xs: seq<R.Piece>, tough: bool)
    requires Worst(Rulings(ao, s, xs, tough)) == F.CONFACK
    ensures Part(Rulings(ao, s, xs, tough), F.CONFACK) == Joined(xs)
  {
    hide RulingOn, KnownAfter;
    if xs != [] {
      var n := |xs| - 1;
      var rs := Rulings(ao, s, xs, tough);
      assert rs[..n] == Rulings(ao, s, xs[..n], tough);
      WorstIs(rs);
      WorstIs(rs[..n]);
      RulingCodes(ao, KnownAfter(ao, s, xs[..n], tough), xs[n], tough);
      AllAcked(ao, s, xs[..n], tough);
    }
  }

  /** An Ack returns the request octet for octet. */
  lemma AckIsRequest(ao: Options, wo: Options, p: bytes, tough: bool)
    ensures ReqCi(ao, wo, p, tough).code == F.CONFACK ==> ReqCi(ao, wo, p, tough).out == p
    ensures F.CONFACK <= ReqCi(ao, wo, p, tough).code <= F.CONFREJ
  {
    hide Rulings, Worst, Part, R.Pieces, Joined, KnownAfter;
    WorstCodes(ao, Known(wo, NoOptions), R.Pieces(p), tough);
    if Worst(Rulings(ao, Known(wo, NoOptions), R.Pieces(p), tough)) == F.CONFACK {
      AllAcked(ao, Known(wo, NoOptions), R.Pieces(p), tough);
      PiecesJoin(p);
    }
  }

  // ---- Addresses ----

  lemma {:induction false} WishesKept(ao: Options, s: Known, xs: seq<R.Piece>, tough: bool)
    ensures var t := KnownAfter(ao, s, xs, tough);
            t.wo.hisaddr == s.wo.hisaddr && (AcceptRemote in t.wo.neg <==> AcceptRemote in s.wo.neg)
  {
    hide JudgePiece;
    if xs != [] {
      WishesKept(ao, s, xs[..|xs| - 1], tough);
      JudgeKeepsWishes(ao, KnownAfter(ao, s, xs[..|xs| - 1], tough), xs[|xs| - 1], tough);
    }
  }

  lemma JudgeKeepsWishes(ao: Options, s: Known, x: R.Piece, tough: bool)
    ensures var t := JudgePiece(ao, s, x, tough).known;
            t.wo.hisaddr == s.wo.hisaddr && (AcceptRemote in t.wo.neg <==> AcceptRemote in s.wo.neg)
  {
    hide GetLong, PutLong, GetShort;
  }

  /** The address a piece names for the peer, if it is an address option. */
  function NamedAddr(x: R.Piece): F.Option<nat> {
    if x.whole && |x.octets| >= CILEN_ADDR && (x.octets[0] == CI_ADDR || x.octets[0] == CI_ADDRS)
    then F.Some(GetLong(x.octets[2..6])) else F.None
  }

  lemma AcceptedAddr(ao: Options, s: Known, x: R.Piece, tough: bool)
    requires RulingOn(ao, s, x, tough).code == F.CONFACK && NamedAddr(x).Some?
    ensures var a := NamedAddr(x).value; a != 0 && (a == s.wo.hisaddr || AcceptRemote in s.wo.neg)
  {
    hide GetLong, PutLong, GetShort;
  }

  /** An Ack never covers a zero peer address, nor one against an address fixed for the peer. */
  lemma AckedAddresses(ao: Options, wo: Options, p: bytes, tough: bool, k: nat)
    requires ReqCi(ao, wo, p, tough).code == F.CONFACK && k < |R.Pieces(p)| && NamedAddr(R.Pieces(p)[k]).Some?
    ensures var a := NamedAddr(R.Pieces(p)[k]).value; a != 0 && (a == wo.hisaddr || AcceptRemote in wo.neg)
  {
    hide Rulings, Worst, Part, R.Pieces, KnownAfter, RulingOn, NamedAddr;
    var xs, s := R.Pieces(p), Known(wo, NoOptions);
    var rs := Rulings(ao, s, xs, tough);
    WorstIs(rs);
    RulingAt(ao, s, xs, tough, k);
    RulingCodes(ao, KnownAfter(ao, s, xs[..k], tough), xs[k], tough);
    AcceptedAddr(ao, KnownAfter(ao, s, xs[..k], tough), xs[k], tough);
    WishesKept(ao, s, xs[..k], tough);
  }

  // ---- Refusals ----

  /** The refused options as the peer sent them. */
  function RefusedVerbatim(xs: seq<R.Piece>, rs: seq<Ruling>): bytes
    requires |xs| == |rs|
  {
    if xs == [] then []
    else
      var n := |xs| - 1;
      RefusedVerbatim(xs[..n], rs[..n]) + if rs[n].code == F.CONFREJ then xs[n].octets else []
  }

  /** A name server option with another address than the one we would give. */
  predicate OtherServer(ao: Options, x: R.Piece) {
    && x.whole && |x.octets| == CILEN_ADDR
    && var ours := ServerAddr(ao, x.octets[0]);
       ours != 0 && GetLong(x.octets[2..6]) != ours
  }

  function ServerAddr(ao: Options, t: byte): int {
    if t == CI_MS_DNS1 then ao.dns1
    else if t == CI_MS_DNS2 then ao.dns2
    else if t == CI_MS_WINS1 then ao.wins1
    else if t == CI_MS_WINS2 then ao.wins2
    else 0
  }

  lemma RewrittenIff(ao: Options, s: Known, x: R.Piece, tough: bool)
    requires RulingOn(ao, s, x, tough).code == F.CONFREJ
    ensures RulingOn(ao, s, x, tough).octets != x.octets <==> tough && OtherServer(ao, x)
  {
    hide GetLong, PutLong, GetShort, PutShort;
    if x.whole && |x.octets| == CILEN_ADDR {
      LongRoundTrip(ServerAddr(ao, x.octets[0]), x.octets[2..6]);
      assert x.octets == x.octets[..2] + x.octets[2..6];
    }
  }

  /** Two strings made of pieces of the same lengths are equal only piece by piece. */
  lemma EqualParts(a: bytes, b: bytes, x: bytes, y: bytes)
    requires |x| == |y| && |a| == |b|
    ensures a + x == b + y <==> a == b && x == y
  {
    if a + x == b + y {
      assert a == (a + x)[..|a|] && b == (b + y)[..|a|];
      assert x == (a + x)[|a|..] && y == (b + y)[|a|..];
    }
  }

  /** Every refused piece goes back as it came. */
  ghost predicate Intact(xs: seq<R.Piece>, rs: seq<Ruling>)
    requires |xs| == |rs|
  {
    forall k | 0 <= k < |xs| && rs[k].code == F.CONFREJ :: rs[k].octets == xs[k].octets
  }

  lemma IntactSplit(xs: seq<R.Piece>, rs: seq<Ruling>)
    requires |xs| == |rs| > 0
    ensures var n := |xs| - 1;
            Intact(xs, rs) <==> Intact(xs[..n], rs[..n]) && (rs[n].code == F.CONFREJ ==> rs[n].octets == xs[n].octets)
  {
    var n := |xs| - 1;
    assert forall k | 0 <= k < n :: rs[..n][k] == rs[k] && xs[..n][k] == xs[k];
  }

  lemma {:induction false} VerbatimIff(xs: seq<R.Piece>, rs: seq<Ruling>)
    requires |xs| == |rs| && forall k | 0 <= k < |xs| :: |rs[k].octets| == |xs[k].octets|
    ensures |Part(rs, F.CONFREJ)| == |RefusedVerbatim(xs, rs)|
    ensures Part(rs, F.CONFREJ) == RefusedVerbatim(xs, rs) <==> Intact(xs, rs)
  {
    hide Intact;
    if xs != [] {
      var n := |xs| - 1;
      VerbatimIff(xs[..n], rs[..n]);
      IntactSplit(xs, rs);
      var refused := rs[n].code == F.CONFREJ;
      EqualParts(Part(rs[..n], F.CONFREJ), RefusedVerbatim(xs[..n], rs[..n]),
                 if refused then rs[n].octets else [], if refused then xs[n].octets else []);
    } else {
      NothingRefused(xs, rs);
    }
  }

  lemma NothingRefused(xs: seq<R.Piece>, rs: seq<Ruling>)
    requires xs == [] && rs == []
    ensures Intact(xs, rs)
  {
  }

  /** A Reject carries the refused options as they were sent, except that while tough it carries our own
      address in place of the peer's for every name server it refuses. */
  lemma RejectVerbatimIff(ao: Options, wo: Options, p: bytes, tough: bool)
    requires ReqCi(ao, wo, p, tough).code == F.CONFREJ
    ensures var xs := R.Pieces(p);
            var rs := Rulings(ao, Known(wo, NoOptions), xs, tough);
            ReqCi(ao, wo, p, tough).out == RefusedVerbatim(xs, rs) <==>
              !(tough && exists k :: 0 <= k < |xs| && OtherServer(ao, xs[k]))
  {
    hide Rulings, Worst, Part, R.Pieces, KnownAfter, RulingOn, RefusedVerbatim, OtherServer;
    var xs, s := R.Pieces(p), Known(wo, NoOptions);
    var rs := Rulings(ao, s, xs, tough);
    forall k | 0 <= k < |xs|
      ensures |rs[k].octets| == |xs[k].octets|
      ensures rs[k].code == F.CONFREJ ==> (rs[k].octets != xs[k].octets <==> tough && OtherServer(ao, xs[k]))
      ensures tough && OtherServer(ao, xs[k]) ==> rs[k].code == F.CONFREJ
    {
      var t := KnownAfter(ao, s, xs[..k], tough);
      RulingAt(ao, s, xs, tough, k);
      RulingCodes(ao, t, xs[k], tough);
      if rs[k].code == F.CONFREJ {
        RewrittenIff(ao, t, xs[k], tough);
      }
      OtherRefused(ao, t, xs[k]);
    }
    VerbatimIff(xs, rs);
    CodeIs(ao, wo, p, tough);
  }

  lemma OtherRefused(ao: Options, s: Known, x: R.Piece)
    ensures OtherServer(ao, x) ==> RulingOn(ao, s, x, true).code == F.CONFREJ
  {
    hide GetLong, PutLong, GetShort, PutShort;
  }

  lemma CodeIs(ao: Options, wo: Options, p: bytes, tough: bool)
    ensures var rs := Rulings(ao, Known(wo, NoOptions), R.Pieces(p), tough);
            ReqCi(ao, wo, p, tough).code == F.CONFREJ ==> ReqCi(ao, wo, p, tough).out == Part(rs, F.CONFREJ)
  {
    hide Rulings, Worst, Part, R.Pieces, KnownAfter;
  }

  lemma SomeAddresses()
    ensures GetLong([1, 2, 3, 4]) == 0x01020304 && PutLong(0x05060708) == [5, 6, 7, 8]
  {
  }

  lemma OnePiece(p: bytes)
    requires |p| >= 2 && p[1] as int == |p|
    ensures R.Pieces(p) == [R.Piece(p, true)]
  {
    R.NoPieces();
    assert p[..|p|] == p && p[|p|..] == [];
    assert R.Pieces(p) == [R.Piece(p, true)] + R.Pieces(p[|p|..]);
  }

  lemma OneRuling(ao: Options, s: Known, x: R.Piece, tough: bool)
    requires RulingOn(ao, s, x, tough).code == F.CONFREJ
    ensures var rs := Rulings(ao, s, [x], tough);
            Worst(rs) == F.CONFREJ && Part(rs, F.CONFREJ) == RulingOn(ao, s, x, tough).octets
  {
    hide RulingOn;
    var r := RulingOn(ao, s, x, tough);
    assert [x][..0] == [] && [r][..0] == [];
    assert Rulings(ao, s, [x], tough) == [] + [r] == [r];
    assert [] + r.octets == r.octets;
  }

  lemma ServerRewritten(s: Known)
    ensures RulingOn(NoOptions.(dns1 := 0x05060708), s, R.Piece([129, 6, 1, 2, 3, 4], true), true) ==
              Ruling(F.CONFREJ, [129, 6, 5, 6, 7, 8])
  {
    hide GetLong, PutLong;
    SomeAddresses();
    var p: bytes := [129, 6, 1, 2, 3, 4];
    assert p[2..6] == [1, 2, 3, 4] && p[..2] == [129, 6];
  }

  /** A name server option refused by one told to get tough comes back with another address in it. */
  lemma RejectRewrites(wo: Options)
    ensures var r := ReqCi(NoOptions.(dns1 := 0x05060708), wo, [129, 6, 1, 2, 3, 4], true);
            r.code == F.CONFREJ && r.out == [129, 6, 5, 6, 7, 8]
  {
    hide R.Pieces, RulingOn, Rulings, Worst, Part, KnownAfter;
    OnePiece([129, 6, 1, 2, 3, 4]);
    ServerRewritten(Known(wo, NoOptions));
    OneRuling(NoOptions.(dns1 := 0x05060708), Known(wo, NoOptions), R.Piece([129, 6, 1, 2, 3, 4], true), true);
  }

  // ---- The pass in the packet buffer ----

  /** A string with some octets replaced. */
  function Spliced(b: bytes, at: nat, x: bytes): (r: bytes)
    requires at + |x| <= |b|
    ensures |r| == |b|
  {
    b[..at] + x + b[at + |x|..]
  }

  /** Overwrite octets of the buffer, if they are to be countered. */
  method Counter(buf: array<byte>, at: nat, x: bytes, doIt: bool)
    requires at + |x| <= buf.Length
    modifies buf
    ensures buf[..] == Spliced(old(buf[..]), at, if doIt then x else old(buf[..])[at..at + |x|])
  {
    ghost var b0 := buf[..];
    if doIt {
      forall i | 0 <= i < |x| {
        buf[at + i] := x[i];
      }
      assert forall i | 0 <= i < |b0| :: buf[i] == Spliced(b0, at, x)[i];
    } else {
      SplicedSame(b0, at, |x|);
    }
  }

  /** Part of an option, found in the buffer. */
  lemma SliceOf(b: bytes, at: nat, n: nat, i: nat, j: nat)
    requires at + n <= |b| && i <= j <= n
    ensures b[at..at + n][i..j] == b[at + i..at + j]
  {
    var o := b[at..at + n];
    assert forall k | 0 <= k < n :: o[k] == b[at + k];
    assert o[i..j] == b[at + i..at + j];
  }

  lemma SplicedSame(b: bytes, at: nat, n: nat)
    requires at + n <= |b|
    ensures Spliced(b, at, b[at..at + n]) == b
  {
  }

  /** Beyond the replaced octets nothing changes. */
  lemma SplicedElse(b: bytes, at: nat, x: bytes, i: nat, j: nat)
    requires at + |x| <= i <= j <= |b|
    ensures Spliced(b, at, x)[i..j] == b[i..j]
  {
  }

  /** Replacing two neighbouring stretches is replacing both at once. */
  lemma SplicedNext(b: bytes, at: nat, x: bytes, y: bytes)
    requires at + |x| + |y| <= |b|
    ensures Spliced(Spliced(b, at, x), at + |x|, y) == Spliced(b, at, x + y)
  {
  }

  /** The octets before a replaced stretch may count as replaced by themselves. */
  lemma SplicedWith(b: bytes, at: nat, n: nat, x: bytes)
    requires at + n + |x| <= |b|
    ensures Spliced(b, at + n, x) == Spliced(b, at, b[at..at + n] + x)
  {
  }

  /** The old address option, judged and if need be countered in place. */
  method AddrsInPlace(ao: Options, s: Known, buf: array<byte>, at: nat, n: nat, tough: bool)
    returns (code: byte, known: Known)
    requires 2 <= n && at + n <= buf.Length
    modifies buf
    ensures var j := JudgeAddrs(ao, s, old(buf[at..at + n]), tough);
            code == j.code && known == j.known && |j.octets| == n && buf[..] == Spliced(old(buf[..]), at, j.octets)
  {
    hide GetLong, PutLong, Spliced;
    ghost var b0, opt := buf[..], buf[at..at + n];
    assert opt == b0[at..at + n];
    SplicedSame(b0, at, n);
    if OldAddrs !in ao.neg || NegAddr in s.ho.neg || n != CILEN_ADDRS {
      return F.CONFREJ, s;
    }
    SliceOf(b0, at, n, 0, 2);
    SliceOf(b0, at, n, 2, 6);
    SliceOf(b0, at, n, 6, 10);
    assert buf[at + 2..at + 6] == b0[at + 2..at + 6] && opt[0..2] == opt[..2];
    var his := GetLong(buf[at + 2..at + 6]);
    var nakHis := his != s.wo.hisaddr && (his == 0 || AcceptRemote !in s.wo.neg);
    if !nakHis && his == 0 && s.wo.hisaddr == 0 {
      return F.CONFREJ, Unasked(s);
    }
    Counter(buf, at + 2, PutLong(s.wo.hisaddr), nakHis && !tough);
    ghost var first := if nakHis && !tough then PutLong(s.wo.hisaddr) else opt[2..6];
    SplicedElse(b0, at + 2, first, at + 6, at + 10);
    assert buf[at + 6..at + 10] == buf[..][at + 6..at + 10];
    var ours := GetLong(buf[at + 6..at + 10]);
    var differs := ours != s.wo.ouraddr;
    var nakOurs := differs && (ours == 0 || AcceptLocal !in s.wo.neg);
    Counter(buf, at + 6, PutLong(s.wo.ouraddr), nakOurs && !tough);
    ghost var second := if nakOurs && !tough then PutLong(s.wo.ouraddr) else opt[6..10];
    SplicedNext(b0, at + 2, first, second);
    SplicedWith(b0, at, 2, first + second);
    assert opt[..2] + (first + second) == opt[..2] + first + second;
    code := if nakHis || nakOurs then F.CONFNAK else F.CONFACK;
    known := Known(if differs && !nakOurs then s.wo.(ouraddr := ours) else s.wo,
                   Recorded(s.ho.(hisaddr := his, ouraddr := ours), OldAddrs));
  }

  method AddrInPlace(ao: Options, s: Known, buf: array<byte>, at: nat, n: nat, tough: bool)
    returns (code: byte, known: Known)
    requires 2 <= n && at + n <= buf.Length
    modifies buf
    ensures var j := JudgeAddr(ao, s, old(buf[at..at + n]), tough);
            code == j.code && known == j.known && |j.octets| == n && buf[..] == Spliced(old(buf[..]), at, j.octets)
  {
    hide GetLong, PutLong, Spliced;
    ghost var b0, opt := buf[..], buf[at..at + n];
    assert opt == b0[at..at + n];
    SplicedSame(b0, at, n);
    if NegAddr !in ao.neg || OldAddrs in s.ho.neg || n != CILEN_ADDR {
      return F.CONFREJ, s;
    }
    SliceOf(b0, at, n, 0, 2);
    SliceOf(b0, at, n, 2, 6);
    assert buf[at + 2..at + 6] == b0[at + 2..at + 6] && opt[0..2] == opt[..2];
    var his := GetLong(buf[at + 2..at + 6]);
    code, known := F.CONFACK, s.(ho := Recorded(s.ho.(hisaddr := his), NegAddr));
    if his != s.wo.hisaddr && (his == 0 || AcceptRemote !in s.wo.neg) {
      code := F.CONFNAK;
      Counter(buf, at + 2, PutLong(s.wo.hisaddr), !tough);
      SplicedWith(b0, at, 2, if tough then opt[2..6] else PutLong(s.wo.hisaddr));
    } else if his == 0 && s.wo.hisaddr == 0 {
      code, known := F.CONFREJ, Unasked(s);
    }
  }

  method ServerInPlace(addr: int, s: Known, buf: array<byte>, at: nat, n: nat) returns (code: byte)
    requires 2 <= n && at + n <= buf.Length
    modifies buf
    ensures var j := JudgeServer(addr, s, old(buf[at..at + n]));
            code == j.code && s == j.known && |j.octets| == n && buf[..] == Spliced(old(buf[..]), at, j.octets)
  {
    hide GetLong, PutLong, Spliced;
    ghost var b0, opt := buf[..], buf[at..at + n];
    assert opt == b0[at..at + n];
    SplicedSame(b0, at, n);
    if addr == 0 || n != CILEN_ADDR {
      return F.CONFREJ;
    }
    SliceOf(b0, at, n, 0, 2);
    SliceOf(b0, at, n, 2, 6);
    assert buf[at + 2..at + 6] == b0[at + 2..at + 6] && opt[0..2] == opt[..2];
    code := F.CONFACK;
    if GetLong(buf[at + 2..at + 6]) != addr {
      Counter(buf, at + 2, PutLong(addr), true);
      SplicedWith(b0, at, 2, PutLong(addr));
      code := F.CONFNAK;
    }
  }

  method VjInPlace(ao: Options, s: Known, buf: array<byte>, at: nat, n: nat, tough: bool)
    returns (code: byte, known: Known)
    requires 2 <= n && at + n <= buf.Length
    modifies buf
    ensures var j := JudgeVj(ao, s, old(buf[at..at + n]), tough);
            code == j.code && known == j.known && |j.octets| == n && buf[..] == Spliced(old(buf[..]), at, j.octets)
  {
    hide GetShort, Spliced;
    ghost var b0, opt := buf[..], buf[at..at + n];
    assert opt == b0[at..at + n];
    SplicedSame(b0, at, n);
    if NegVj !in ao.neg || (n != CILEN_VJ && n != CILEN_COMPRESS) {
      return F.CONFREJ, s;
    }
    SliceOf(b0, at, n, 0, 4);
    SliceOf(b0, at, n, 2, 4);
    assert buf[at + 2..at + 4] == b0[at + 2..at + 4] && opt[0..4] == opt[..4];
    var proto := GetShort(buf[at + 2..at + 4]);
    if !(proto == VJ_COMP as int || (proto == VJ_COMP_OLD as int && n == CILEN_COMPRESS)) {
      return F.CONFREJ, s;
    }
    var ho := Recorded(s.ho.(vjProtocol := proto), NegVj);
    code := F.CONFACK;
    if n == CILEN_VJ {
      var slots, cflag := buf[at + 4], buf[at + 5];
      assert slots == opt[4] && cflag == opt[5];
      var nakSlots, nakFlag := slots > ao.maxSlot, cflag != 0 && ao.cflag == 0;
      var body := [if nakSlots && !tough then ao.maxSlot else slots, if nakFlag && !tough then s.wo.cflag else cflag];
      if nakSlots || nakFlag {
        code := F.CONFNAK;
      }
      Counter(buf, at + 4, body, true);
      SplicedWith(b0, at, 4, body);
      known := s.(ho := ho.(maxSlot := slots, cflag := cflag));
    } else {
      known := s.(ho := Recorded(ho.(maxSlot := MAX_STATES - 1, cflag := 1), OldVj));
    }
  }

  /** One well-formed option, judged and if need be countered in place. */
  method OptionInPlace(ao: Options, s: Known, buf: array<byte>, at: nat, n: nat, tough: bool)
    returns (code: byte, known: Known)
    requires 2 <= n && at + n <= buf.Length
    modifies buf
    ensures var j := JudgeOption(ao, s, old(buf[at..at + n]), tough);
            code == j.code && known == j.known && |j.octets| == n && buf[..] == Spliced(old(buf[..]), at, j.octets)
  {
    hide JudgeAddrs, JudgeAddr, JudgeServer, JudgeVj, Spliced;
    ghost var opt := buf[at..at + n];
    assert opt == buf[..][at..at + n];
    var citype := buf[at];
    assert opt[0] == citype;
    SplicedSame(buf[..], at, n);
    known := s;
    if citype == CI_ADDRS {
      code, known := AddrsInPlace(ao, s, buf, at, n, tough);
    } else if citype == CI_ADDR {
      code, known := AddrInPlace(ao, s, buf, at, n, tough);
    } else if citype == CI_MS_DNS1 {
      code := ServerInPlace(ao.dns1, s, buf, at, n);
    } else if citype == CI_MS_DNS2 {
      code := ServerInPlace(ao.dns2, s, buf, at, n);
    } else if citype == CI_MS_WINS1 {
      code := ServerInPlace(ao.wins1, s, buf, at, n);
    } else if citype == CI_MS_WINS2 {
      code := ServerInPlace(ao.wins2, s, buf, at, n);
    } else if citype == CI_COMPRESSTYPE {
      code, known := VjInPlace(ao, s, buf, at, n, tough);
    } else {
      code := F.CONFREJ;
    }
  }

  /** Cut off the next piece and judge it in place. */
  method NextInPlace(ao: Options, s: Known, ghost req: bytes, buf: array<byte>, len: nat, next: nat, tough: bool)
    returns (code: byte, cilen: nat, known: Known, ghost x: R.Piece)
    requires next < len <= buf.Length && |req| == len && buf[next..len] == req[next..]
    modifies buf
    ensures 0 < cilen && next + cilen <= len && |x.octets| == cilen
    ensures R.Pieces(req[next..]) == [x] + R.Pieces(req[next + cilen..])
    ensures var j := JudgePiece(ao, s, x, tough);
            && code == j.code && known == j.known && |j.octets| == cilen
            && buf[..] == Spliced(old(buf[..]), next, j.octets)
  {
    hide R.Pieces, JudgeOption, Spliced;
    R.PieceSteps(req, next);
    assert req[next..] == buf[next..len] == buf[..][next..len];
    if len - next < 2 || buf[next + 1] < 2 || buf[next + 1] as int > len - next {
      code, cilen, known := F.CONFREJ, len - next, s;
      x := R.Piece(req[next..], false);
      assert req[len..] == [];
      R.NoPieces();
      SplicedSame(buf[..], next, cilen);
    } else {
      assert req[next..][1] == req[next + 1] == buf[next + 1];
      cilen := buf[next + 1];
      x := R.Piece(req[next..next + cilen], true);
      assert req[next..next + cilen] == req[next..][..cilen];
      assert buf[next..next + cilen] == buf[next..len][..cilen];
      code, known := OptionInPlace(ao, s, buf, next, cilen, tough);
    }
  }

  function Stronger(rc: byte, code: byte): byte {
    if code > rc then code else rc
  }

  /** The answer so far after one more ruling: a weaker one is left out, a stronger one starts afresh. */
  function Gathered(rc: byte, out: bytes, r: Ruling): bytes {
    if r.code < rc then out else if r.code > rc then r.octets else out + r.octets
  }

  /** What one more code does to the answer: it may be left out, or start the answer afresh. */
  method Decide(code: byte, rc: byte, tough: bool) returns (rc': byte, skip: bool, afresh: bool)
    requires F.CONFACK <= code <= F.CONFREJ && F.CONFACK <= rc <= F.CONFREJ
    ensures rc' == Stronger(rc, Toughened(code, tough))
    ensures skip <==> Toughened(code, tough) < rc
    ensures afresh <==> Toughened(code, tough) > rc
  {
    var orc := code;
    rc', skip, afresh := rc, false, false;
    if orc == F.CONFACK && rc != F.CONFACK {
      skip := true;
      return;
    }
    if orc == F.CONFNAK {
      if tough {
        orc := F.CONFREJ;
      } else {
        if rc == F.CONFREJ {
          skip := true;
          return;
        }
        if rc == F.CONFACK {
          rc', afresh := F.CONFNAK, true;
        }
      }
    }
    if orc == F.CONFREJ && rc != F.CONFREJ {
      rc', afresh := F.CONFREJ, true;
    }
  }

  /** Add a piece to the answer being gathered at the front of the buffer. */
  method Gather(buf: array<byte>, code: byte, rc: byte, tough: bool, from: nat, to: nat, n: nat)
    returns (rc': byte, end: nat)
    requires to <= from && from + n <= buf.Length && F.CONFACK <= code <= F.CONFREJ && F.CONFACK <= rc <= F.CONFREJ
    modifies buf
    ensures rc' == Stronger(rc, Toughened(code, tough)) && end <= from + n
    ensures var r := Ruling(Toughened(code, tough), old(buf[..])[from..from + n]);
            buf[..][..end] == Gathered(rc, old(buf[..])[..to], r)
    ensures buf[..][from + n..] == old(buf[..])[from + n..]
  {
    hide Toughened, Stronger;
    var skip, afresh;
    rc', skip, afresh := Decide(code, rc, tough);
    end := to;
    if !skip {
      if afresh {
        end := 0;
      }
      end := Shift(buf, from, end, n);
    }
  }

  /** Move a piece down, unless it is already there. */
  method Shift(buf: array<byte>, from: nat, to: nat, n: nat) returns (end: nat)
    requires to <= from && from + n <= buf.Length
    modifies buf
    ensures end == to + n && buf[..][..end] == old(buf[..])[..to] + old(buf[..])[from..from + n]
    ensures to == 0 ==> buf[..][..end] == old(buf[..])[from..from + n]
    ensures buf[..][from + n..] == old(buf[..])[from + n..]
  {
    ghost var b0 := buf[..];
    if to != from {
      R.MoveDown(buf, from, to, n);
    } else {
      assert b0[..from] + b0[from..from + n] == b0[..from + n];
    }
    assert to == 0 ==> b0[..to] + b0[from..from + n] == b0[from..from + n];
    end := to + n;
  }

  /** What has been established once some pieces have been judged. */
  ghost predicate Progress(ao: Options, wo: Options, tough: bool, done: seq<R.Piece>, rc: byte, known: Known,
                           out: bytes) {
    var rs := Rulings(ao, Known(wo, NoOptions), done, tough);
    && known == KnownAfter(ao, Known(wo, NoOptions), done, tough)
    && rc == Worst(rs) && out == Part(rs, rc)
  }

  lemma {:induction false} PartNone(rs: seq<Ruling>, code: byte)
    requires forall k | 0 <= k < |rs| :: rs[k].code < code
    ensures Part(rs, code) == []
  {
    if rs != [] {
      PartNone(rs[..|rs| - 1], code);
    }
  }

  lemma PartMore(rs: seq<Ruling>, r: Ruling)
    ensures Worst(rs + [r]) == Stronger(Worst(rs), r.code)
    ensures Part(rs + [r], Worst(rs + [r])) == Gathered(Worst(rs), Part(rs, Worst(rs)), r)
  {
    assert (rs + [r])[..|rs|] == rs;
    WorstIs(rs);
    if r.code > Worst(rs) {
      PartNone(rs, r.code);
      assert [] + r.octets == r.octets;
    }
    assert Part(rs, Worst(rs)) + [] == Part(rs, Worst(rs));
  }

  lemma ProgressStep(ao: Options, wo: Options, tough: bool, done: seq<R.Piece>, rc: byte, known: Known, out: bytes,
                     x: R.Piece)
    requires Progress(ao, wo, tough, done, rc, known, out)
    ensures var j := JudgePiece(ao, known, x, tough);
            var r := Ruling(Toughened(j.code, tough), j.octets);
            Progress(ao, wo, tough, done + [x], Stronger(rc, r.code), j.known, Gathered(rc, out, r))
  {
    hide JudgePiece, Worst, Part, Stronger, Gathered, Toughened;
    assert (done + [x])[..|done|] == done;
    var rs := Rulings(ao, Known(wo, NoOptions), done, tough);
    PartMore(rs, RulingOn(ao, known, x, tough));
  }

  lemma ProgressCode(ao: Options, wo: Options, tough: bool, done: seq<R.Piece>, rc: byte, known: Known, out: bytes)
    requires Progress(ao, wo, tough, done, rc, known, out)
    ensures F.CONFACK <= rc <= F.CONFREJ
  {
    hide Rulings, Worst, Part;
    WorstCodes(ao, Known(wo, NoOptions), done, tough);
  }

  /** Where the pass stands. */
  datatype Cursor = Cursor(next: nat, ucp: nat, rc: byte, known: Known)

  ghost predicate Passing(ao: Options, wo: Options, tough: bool, req: bytes, buf: bytes, k: Cursor,
                          done: seq<R.Piece>) {
    && k.ucp <= k.next <= |req| <= |buf|
    && buf[k.next..|req|] == req[k.next..]
    && R.Pieces(req) == done + R.Pieces(req[k.next..])
    && Progress(ao, wo, tough, done, k.rc, k.known, buf[..k.ucp])
  }

  /** The parts of the buffer before and after a piece rewritten in place. */
  lemma SplicedParts(b: bytes, at: nat, x: bytes, to: nat)
    requires at + |x| <= |b| && to <= at
    ensures var c := Spliced(b, at, x);
            c[..to] == b[..to] && c[at..at + |x|] == x && c[at + |x|..] == b[at + |x|..]
  {
  }

  lemma RestKept(req: bytes, b: bytes, c: bytes, next: nat, cilen: nat)
    requires next + cilen <= |req| <= |b| && |c| == |b|
    requires b[next..|req|] == req[next..] && c[next + cilen..] == b[next + cilen..]
    ensures c[next + cilen..|req|] == req[next + cilen..]
  {
    var m := next + cilen;
    assert c[m..|req|] == c[m..][..|req| - m];
    assert b[m..|req|] == b[m..][..|req| - m];
    assert b[m..|req|] == b[next..|req|][cilen..];
    assert req[m..] == req[next..][cilen..];
  }

  method OneOption(ao: Options, ghost wo: Options, tough: bool, ghost req: bytes, buf: array<byte>, len: nat, k: Cursor,
                   ghost done: seq<R.Piece>)
    returns (k': Cursor, ghost x: R.Piece)
    requires len == |req| && Passing(ao, wo, tough, req, buf[..], k, done) && k.next < len
    modifies buf
    ensures Passing(ao, wo, tough, req, buf[..], k', done + [x]) && k'.next > k.next
  {
    hide R.Pieces, JudgePiece, Progress, Spliced, Stronger, Gathered;
    ghost var b0 := buf[..];
    assert buf[k.next..len] == b0[k.next..len];
    var code, cilen, known;
    code, cilen, known, x := NextInPlace(ao, k.known, req, buf, len, k.next, tough);
    ghost var b1, octets := buf[..], JudgePiece(ao, k.known, x, tough).octets;
    SplicedParts(b0, k.next, octets, k.ucp);
    JudgeCodes(ao, k.known, x, tough);
    ProgressCode(ao, wo, tough, done, k.rc, k.known, b0[..k.ucp]);
    ProgressStep(ao, wo, tough, done, k.rc, k.known, b0[..k.ucp], x);
    var rc, ucp := Gather(buf, code, k.rc, tough, k.next, k.ucp, cilen);
    assert buf[..][k.next + cilen..] == b0[k.next + cilen..];
    RestKept(req, b0, buf[..], k.next, cilen);
    k' := Cursor(k.next + cilen, ucp, rc, known);
    assert done + ([x] + R.Pieces(req[k'.next..])) == done + [x] + R.Pieces(req[k'.next..]);
  }

  /** Answer the request held in the first len octets of the buffer, in the buffer, which has room for the
      answer. */
  method AnswerInPlace(ao: Options, wo: Options, buf: array<byte>, len: nat, tough: bool)
    returns (code: byte, outLen: nat, known: Known)
    requires len <= buf.Length && |ReqCi(ao, wo, buf[..len], tough).out| <= buf.Length
    modifies buf
    ensures outLen <= buf.Length
    ensures Outcome(code, buf[..outLen], known) == ReqCi(ao, wo, old(buf[..len]), tough)
  {
    hide R.Pieces, Progress, Rulings, KnownAfter, Worst, Part, PutLong;
    ghost var req := buf[..len];
    ghost var done: seq<R.Piece> := [];
    var k := Cursor(0, 0, 2, Known(wo, NoOptions));
    ProgressStart(ao, wo, tough);
    assert req[0..] == req && buf[..][0..len] == req && buf[..][..0] == [];
    while k.next < len
      invariant Passing(ao, wo, tough, req, buf[..], k, done)
      decreases len - k.next
    {
      ghost var x;
      k, x := OneOption(ao, wo, tough, req, buf, len, k, done);
      done := done + [x];
    }
    R.NoPieces();
    assert req[len..] == [];
    assert done == R.Pieces(req);
    ghost var part := buf[..][..k.ucp];
    ProgressEnd(ao, wo, tough, req, k.rc, k.known, part);
    ProgressCode(ao, wo, tough, R.Pieces(req), k.rc, k.known, part);
    code, outLen, known := k.rc, k.ucp, k.known;
    assert buf[..outLen] == part;
    if code != F.CONFREJ && NegAddr !in known.ho.neg && OldAddrs !in known.ho.neg && ReqAddr in known.wo.neg &&
       !tough
    {
      if code == F.CONFACK {
        code, outLen, known := F.CONFNAK, 0, Unasked(known);
      }
      ghost var before := buf[..outLen];
      assert k.rc == F.CONFACK ==> before == [];
      outLen := PutAsk(buf, outLen, known.wo);
      assert known.wo.hisaddr == k.known.wo.hisaddr;
      assert [] + AskAddr(known.wo) == AskAddr(known.wo);
    }
  }

  /** Append the wish for an address. */
  method PutAsk(buf: array<byte>, at: nat, wo: Options) returns (next: nat)
    requires at + CILEN_ADDR <= buf.Length
    modifies buf
    ensures next == at + CILEN_ADDR && buf[..next] == old(buf[..at]) + AskAddr(wo)
  {
    hide PutLong;
    var x := AskAddr(wo);
    forall i | 0 <= i < CILEN_ADDR {
      buf[at + i] := x[i];
    }
    next := at + CILEN_ADDR;
    assert buf[..next] == buf[..at] + buf[at..next];
    assert buf[at..next] == x;
  }

  lemma ProgressStart(ao: Options, wo: Options, tough: bool)
    ensures Progress(ao, wo, tough, [], F.CONFACK, Known(wo, NoOptions), [])
  {
  }

  lemma ProgressEnd(ao: Options, wo: Options, tough: bool, req: bytes, rc: byte, known: Known, out: bytes)
    requires Progress(ao, wo, tough, R.Pieces(req), rc, known, out)
    ensures ReqCi(ao, wo, req, tough) == Concluded(rc, out, known, tough)
  {
  }
}
