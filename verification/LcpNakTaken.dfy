/** The two ends of a Nak: what one side counters a request with is, for the side that sent the request, a good Nak. */
module LcpNakTaken {
  import opened Wire
  import opened Bits
  import opened Fsm
  import opened LcpOptions
  import opened LcpReject
  import opened LcpRequest
  import opened LcpMirror
  import opened LcpAllowed
  import N = LcpNakMeans
  import LcpNak

  /** The counter-offer to each slot of a request, empty where there is none. */
  function CounterSlots(c: Context, drawn: nat, o: Options, tough: bool, k: nat): (r: seq<bytes>)
    requires k <= SLOTS
    ensures |r| == k
  {
    if k == 0 then []
    else CounterSlots(c, drawn, o, tough, k - 1) + [CounterAt(c, drawn, o, tough, k - 1)]
  }

  function CounterAt(c: Context, drawn: nat, o: Options, tough: bool, k: nat): bytes
    requires k < SLOTS
  {
    var x := SentSlots(o)[k];
    if x == [] then []
    else
      var s := SeenAfter(c, Seen(NoOptions, drawn), Whole(SentSlots(o)[..k]));
      var r := Toughened(JudgePiece(c, s, Piece(x, true)).ruling, Piece(x, true), tough);
      if r.Counter? then r.nak else []
  }

  lemma {:induction false} CountersJoined(c: Context, drawn: nat, o: Options, tough: bool, k: nat)
    requires k <= SLOTS
    ensures CounterPart(Rulings(c, Seen(NoOptions, drawn), Whole(SentSlots(o)[..k]), tough)) ==
              Flatten(CounterSlots(c, drawn, o, tough, k))
  {
    hide SentSlots, JudgePiece, Toughened, Flatten;
    var s, cs := Seen(NoOptions, drawn), SentSlots(o)[..k];
    if k == 0 {
      assert cs == [];
      NothingJoined();
    } else {
      var n := k - 1;
      assert cs[..n] == SentSlots(o)[..n];
      var xs, x := Whole(cs[..n]), SentSlots(o)[n];
      CountersJoined(c, drawn, o, tough, n);
      FlattenSnoc(CounterSlots(c, drawn, o, tough, n), CounterAt(c, drawn, o, tough, n));
      if x == [] {
        assert Whole(cs) == xs;
      } else {
        var all := xs + [Piece(x, true)];
        assert Whole(cs) == all && all[..|xs|] == xs;
        var rs := Rulings(c, s, all, tough);
        assert rs[..|xs|] == Rulings(c, s, xs, tough);
      }
    }
  }

  lemma NothingJoined()
    ensures Flatten([]) == []
  {
  }

  /** The options that can be countered at all: those whose values may not suit. */
  lemma CounteredAt(c: Context, drawn: nat, o: Options, tough: bool, k: nat)
    requires k < SLOTS && CounterAt(c, drawn, o, tough, k) != []
    ensures var nak := CounterAt(c, drawn, o, tough, k);
            && (k == 0 || k == 1 || 2 <= k <= 4 || k == 7) && SentSlots(o)[k] != []
            && |nak| >= 2 && nak[0] == SentSlots(o)[k][0] && nak[1] as int == |nak| && Sized(nak)
            && (k == 3 ==> Named(nak).Some? && (Named(nak).value.0 == Chap <==> Chap in c.ao.neg))
            && (k == 3 && Chap in c.ao.neg ==> nak[4] == Digest(c.ao.chapMd))
            && (k == 4 ==> Named(nak).Some? && Named(nak).value.0 != Upap)
  {
    hide SentSlots, JudgeOption, CounterSays, Named;
    var x, s := SentSlots(o)[k], SeenAfter(c, Seen(NoOptions, drawn), Whole(SentSlots(o)[..k]));
    SentSlotForm(o, k);
    CounterIff(c, s, x, 0);
    RulingIff(c, s, x);
    CounterSaysWhat(c, s, x, CounterAt(c, drawn, o, tough, k));
    if 2 <= k <= 4 {
      AuthSlot(o, k);
      AuthCountered(c, s, o, k);
    } else {
      OtherCountered(c, o, k);
    }
  }

  lemma CounterSaysWhat(c: Context, s: Seen, opt: bytes, nak: bytes)
    requires |opt| >= 2 && Sized(opt) && CounterSays(c, s, opt, nak)
    ensures |nak| >= 2 && nak[0] == opt[0] && nak[1] as int == |nak| && Sized(nak)
    ensures opt[0] == CI_AUTHTYPE ==> |nak| >= 4 && Named(nak).Some? && Named(nak).value.0 == Preferred(c.ao, opt)
  {
    hide GetShort, GetLong, Named;
  }

  lemma AuthCountered(c: Context, s: Seen, o: Options, k: nat)
    requires 2 <= k <= 4 && SentSlots(o)[k] != [] && |SentSlots(o)[k]| >= 4
    requires Named(SentSlots(o)[k]) == Some((FlagOf(k), |SentSlots(o)[k]|)) && SentSlots(o)[k][0] == CI_AUTHTYPE
    requires JudgeOption(c, s, SentSlots(o)[k]).ruling.Counter?
    ensures k == 3 ==> (Preferred(c.ao, SentSlots(o)[k]) == Chap <==> Chap in c.ao.neg)
    ensures k == 4 ==> Preferred(c.ao, SentSlots(o)[k]) != Upap
    ensures k == 3 && Chap in c.ao.neg ==>
              var nak := JudgeOption(c, s, SentSlots(o)[k]).ruling.nak; |nak| == 5 && nak[4] == Digest(c.ao.chapMd)
  {
    hide GetShort, PutShort, SentSlots, Digest, CanDigest, MdOf;
  }

  /** Of the others only the MRU, the asyncmap and the magic number can fail to suit. */
  lemma OtherCountered(c: Context, o: Options, k: nat)
    requires k < SLOTS && !(2 <= k <= 4) && SentSlots(o)[k] != [] && |SentSlots(o)[k]| >= 2
    requires Sized(SentSlots(o)[k]) && !Suits(c, SentSlots(o)[k])
    ensures k == 0 || k == 1 || k == 7
  {
    hide GetShort, PutShort, GetLong, PutLong, BitsIn, Digest, CanDigest;
    if k == 5 {
      var opt := SentSlots(o)[k];
      assert opt[2..4] == PutShort(PPP_LQR);
      ShortRoundTrip(PPP_LQR, PutShort(PPP_LQR));
    }
  }

  // ---- The four places ----

  /** An option fit for a place, or none. */
  predicate Part(o: Options, k: nat, x: bytes)
    requires k < N.PLACES
  {
    x != [] ==> N.Asks(o, k) && N.Leads(x, k) && x[1] as int == |x|
  }

  lemma OnePlace(o: Options, p: bytes, k: nat, x: bytes, rest: bytes)
    requires k < N.PLACES && Part(o, k, x) && N.Rest(o, p, k) == x + rest
    requires x == [] ==> rest == [] || rest[0] != N.TypeAt(k)
    ensures N.Rest(o, p, k + 1) == rest && N.Taken(o, p, k) == x
  {
    hide N.TypeAt, N.Fits, N.Asks;
    var q := x + rest;
    if x != [] {
      assert q[0] == x[0] && q[1] == x[1] && q[..|x|] == x && q[|x|..] == rest;
    } else {
      assert q == rest;
    }
  }

  lemma StartRest(o: Options, p: bytes)
    ensures N.Rest(o, p, 0) == p
  {
  }

  lemma Starts(o: Options, k: nat, x: bytes, rest: bytes, t: byte)
    requires k < N.PLACES && Part(o, k, x) && N.TypeAt(k) != t && (rest == [] || rest[0] != t)
    ensures x + rest == [] || (x + rest)[0] != t
  {
    hide N.Fits, N.Asks;
  }

  /** A Nak made of an MRU, an asyncmap, a protocol and a magic number, each or none, is good exactly if the protocol
      suggested is not the one asked for. */
  lemma FourPlaces(o: Options, a: bytes, b: bytes, e: bytes, m: bytes)
    requires Part(o, 0, a) && Part(o, 1, b) && Part(o, 2, e) && Part(o, 5, m)
    ensures N.GoodNak(o, a + (b + (e + m))) <==> !N.AuthSpoils(o, e)
    ensures N.Taken(o, a + (b + (e + m)), 2) == e
  {
    hide Part, N.Rest, N.Taken, N.TypeAt, N.AuthSpoils;
    var p := a + (b + (e + m));
    N.Types();
    StartRest(o, p);
    StartsM(o, m);
    StartsE(o, e, m);
    StartsB(o, b, e, m);
    OnePlace(o, p, 0, a, b + (e + m));
    OnePlace(o, p, 1, b, e + m);
    OnePlace(o, p, 2, e, m);
    NoPart(o);
    var none: bytes := [];
    assert m == none + m && none == none + none && m == m + none;
    OnePlace(o, p, 3, none, m);
    OnePlace(o, p, 4, none, m);
    OnePlace(o, p, 5, m, none);
    OnePlace(o, p, 6, none, none);
    OnePlace(o, p, 7, none, none);
    OnePlace(o, p, 8, none, none);
    OnePlace(o, p, 9, none, none);
    OnePlace(o, p, 10, none, none);
  }

  lemma NoPart(o: Options)
    ensures Part(o, 3, []) && Part(o, 4, []) && Part(o, 6, []) && Part(o, 7, []) && Part(o, 8, [])
    ensures Part(o, 9, []) && Part(o, 10, [])
  {
  }

  lemma StartsM(o: Options, m: bytes)
    requires Part(o, 5, m)
    ensures forall k | 0 <= k < 5 :: m == [] || m[0] != N.TypeAt(k)
  {
    hide N.Asks;
    N.Types();
  }

  lemma StartsE(o: Options, e: bytes, m: bytes)
    requires Part(o, 2, e) && forall k | 0 <= k < 5 :: m == [] || m[0] != N.TypeAt(k)
    ensures forall k | 0 <= k < 2 :: e + m == [] || (e + m)[0] != N.TypeAt(k)
  {
    hide N.Asks;
    N.Types();
  }

  lemma StartsB(o: Options, b: bytes, e: bytes, m: bytes)
    requires Part(o, 1, b) && forall k | 0 <= k < 2 :: e + m == [] || (e + m)[0] != N.TypeAt(k)
    ensures b + (e + m) == [] || (b + (e + m))[0] != N.TypeAt(0)
  {
    hide N.Asks;
    N.Types();
  }

  /** The place of a slot that can be countered. */
  lemma CounterPlaced(c: Context, drawn: nat, o: Options, tough: bool, k: nat)
    requires k == 0 || k == 1 || 2 <= k <= 4 || k == 7
    ensures var x := CounterAt(c, drawn, o, tough, k);
            Part(o, if k < 2 then k else if k == 7 then 5 else 2, x)
  {
    hide CounterAt, SentSlots, N.TypeAt, Named;
    N.Types();
    if CounterAt(c, drawn, o, tough, k) != [] {
      CounteredAt(c, drawn, o, tough, k);
      SlotAsked(o, k);
    }
  }

  lemma SlotAsked(o: Options, k: nat)
    requires (k == 0 || k == 1 || 2 <= k <= 4 || k == 7) && SentSlots(o)[k] != []
    ensures N.Asks(o, if k < 2 then k else if k == 7 then 5 else 2)
    ensures SentSlots(o)[k][0] == if k == 0 then CI_MRU else if k == 1 then CI_ASYNCMAP
                                  else if k == 7 then CI_MAGICNUMBER else CI_AUTHTYPE
    ensures k == 3 ==> N.Wanted(o) == Chap
    ensures k == 2 ==> N.Wanted(o) == Eap
    ensures k == 4 ==> N.Wanted(o) == Upap
  {
    hide PutShort, PutLong, Digest;
    match k
    case 0 => assert SentSlots(o)[0] == MruCi(o);
    case 1 => assert SentSlots(o)[1] == AsyncmapCi(o);
    case 2 => assert SentSlots(o)[2] == EapCi(o);
    case 3 => assert SentSlots(o)[3] == ChapCi(o);
    case 4 => assert SentSlots(o)[4] == PapCi(o);
    case _ => assert SentSlots(o)[7] == MagicCi(o);
  }

  lemma {:induction false} EmptyJoined(cs: seq<bytes>)
    requires forall k | 0 <= k < |cs| :: cs[k] == []
    ensures Flatten(cs) == []
  {
    if cs != [] {
      EmptyJoined(cs[1..]);
    }
  }

  lemma JoinedFour(cs: seq<bytes>)
    requires |cs| == SLOTS && forall k | 0 <= k < SLOTS && k != 0 && k != 1 && !(2 <= k <= 4) && k != 7 :: cs[k] == []
    ensures Flatten(cs) == cs[0] + (cs[1] + ((cs[2] + cs[3] + cs[4]) + cs[7]))
  {
    hide Flatten;
    var front, back := cs[..8], cs[8..];
    assert front + back == cs;
    FlattenAppend(front, back);
    EmptyJoined(back);
    JoinedEight(front);
  }

  lemma JoinedEight(cs: seq<bytes>)
    requires |cs| == 8 && cs[5] == [] && cs[6] == []
    ensures Flatten(cs) == cs[0] + (cs[1] + ((cs[2] + cs[3] + cs[4]) + cs[7]))
  {
    hide Flatten;
    Peel(cs, 0);
    Peel(cs, 1);
    Peel(cs, 2);
    Peel(cs, 3);
    Peel(cs, 4);
    assert cs[0..] == cs;
    JoinedTail(cs);
    Regroup(cs[2], cs[3], cs[4], cs[7]);
  }

  lemma JoinedTail(cs: seq<bytes>)
    requires |cs| == 8 && cs[5] == [] && cs[6] == []
    ensures Flatten(cs[5..]) == cs[7]
  {
    hide Flatten;
    Peel(cs, 5);
    Peel(cs, 6);
    Peel(cs, 7);
    assert cs[8..] == [];
    NothingJoined();
    assert cs[7] + [] == cs[7];
  }

  lemma Regroup(a: bytes, b: bytes, c: bytes, d: bytes)
    ensures a + (b + (c + d)) == a + b + c + d
  {
  }

  lemma Peel(cs: seq<bytes>, k: nat)
    requires k < |cs|
    ensures Flatten(cs[k..]) == cs[k] + Flatten(cs[k + 1..])
  {
    assert cs[k..][1..] == cs[k + 1..] && cs[k..][0] == cs[k];
  }

  /** Every Nak of a request is taken as good by the side that sent the request, if and only if it is not the answer of
      one that can do no digest at all to one that asked for CHAP without one. */
  lemma NakTakenIff(c: Context, drawn: nat, o: Options, tough: bool)
    requires ReqCi(c, drawn, AddCi(o), tough).0 == CONFNAK
    ensures N.GoodNak(o, ReqCi(c, drawn, AddCi(o), tough).1) <==>
              !(CounterAt(c, drawn, o, tough, 3) != [] && Chap in c.ao.neg && c.ao.chapMd % 8 == 0 && o.chapMd % 8 == 0)
  {
    hide SentSlots, Pieces, Rulings, Whole, Flatten, AddCi, RefusedPart, CounterPart, CounterSlots, CounterAt;
    hide N.GoodNak, N.AuthSpoils, Part;
    AddCiIsSent(o);
    SentWellFormed(o);
    PiecesOfFlatten(SentSlots(o));
    assert SentSlots(o)[..SLOTS] == SentSlots(o);
    CountersJoined(c, drawn, o, tough, SLOTS);
    var cs := CounterSlots(c, drawn, o, tough, SLOTS);
    forall k | 0 <= k < SLOTS
      ensures cs[k] == CounterAt(c, drawn, o, tough, k)
    {
      CounterSlotAt(c, drawn, o, tough, SLOTS, k);
    }
    forall k | 0 <= k < SLOTS && k != 0 && k != 1 && !(2 <= k <= 4) && k != 7
      ensures cs[k] == []
    {
      NeverCountered(c, drawn, o, tough, k);
    }
    JoinedFour(cs);
    var e := cs[2] + cs[3] + cs[4];
    OneProtocol(c, drawn, o, tough);
    CounterPlaced(c, drawn, o, tough, 0);
    CounterPlaced(c, drawn, o, tough, 1);
    CounterPlaced(c, drawn, o, tough, 7);
    FourPlaces(o, cs[0], cs[1], e, cs[7]);
  }

  lemma NeverCountered(c: Context, drawn: nat, o: Options, tough: bool, k: nat)
    requires k < SLOTS && k != 0 && k != 1 && !(2 <= k <= 4) && k != 7
    ensures CounterAt(c, drawn, o, tough, k) == []
  {
    hide CounterAt, SentSlots, Named;
    if CounterAt(c, drawn, o, tough, k) != [] {
      CounteredAt(c, drawn, o, tough, k);
    }
  }

  lemma {:induction false} CounterSlotAt(c: Context, drawn: nat, o: Options, tough: bool, n: nat, k: nat)
    requires k < n <= SLOTS
    ensures CounterSlots(c, drawn, o, tough, n)[k] == CounterAt(c, drawn, o, tough, k)
  {
    hide CounterAt;
    if k < n - 1 {
      CounterSlotAt(c, drawn, o, tough, n - 1, k);
    }
  }

  /** At most one protocol is asked for and countered, and that counter-offer spoils a Nak only in one case. */
  lemma OneProtocol(c: Context, drawn: nat, o: Options, tough: bool)
    ensures var chap := CounterAt(c, drawn, o, tough, 3);
            var e := CounterAt(c, drawn, o, tough, 2) + chap + CounterAt(c, drawn, o, tough, 4);
            && Part(o, 2, e)
            && (N.AuthSpoils(o, e) <==>
                  chap != [] && Chap in c.ao.neg && c.ao.chapMd % 8 == 0 && o.chapMd % 8 == 0)
  {
    hide CounterAt, SentSlots, Part, N.AuthSpoils;
    var x, y, z := CounterAt(c, drawn, o, tough, 2), CounterAt(c, drawn, o, tough, 3), CounterAt(c, drawn, o, tough, 4);
    CounterPlaced(c, drawn, o, tough, 2);
    CounterPlaced(c, drawn, o, tough, 3);
    CounterPlaced(c, drawn, o, tough, 4);
    NothingSpoils(o);
    if x != [] {
      CounteredAt(c, drawn, o, tough, 2);
      Alone(c, drawn, o, tough, 2, 3);
      Alone(c, drawn, o, tough, 2, 4);
      SlotAsked(o, 2);
      EapSpoils(o, x);
      assert x + y + z == x;
    } else if y != [] {
      CounteredAt(c, drawn, o, tough, 3);
      Alone(c, drawn, o, tough, 3, 4);
      SlotAsked(o, 3);
      ChapSpoils(c, o, y);
      assert x + y + z == y;
    } else if z != [] {
      CounteredAt(c, drawn, o, tough, 4);
      SlotAsked(o, 4);
      PapSpoils(o, z);
      assert x + y + z == z;
    } else {
      assert x + y + z == [];
    }
  }

  lemma NothingSpoils(o: Options)
    ensures !N.AuthSpoils(o, []) && Part(o, 2, [])
  {
  }

  lemma Alone(c: Context, drawn: nat, o: Options, tough: bool, k: nat, j: nat)
    requires 2 <= k < j <= 4 && CounterAt(c, drawn, o, tough, k) != []
    ensures CounterAt(c, drawn, o, tough, j) == []
  {
    hide SentSlots, JudgePiece;
    OtherSlots(o, k, j);
  }

  lemma EapSpoils(o: Options, x: bytes)
    requires N.Wanted(o) == Eap
    ensures !N.AuthSpoils(o, x)
  {
    hide GetShort, LcpNak.TakenAsDifferent;
  }

  lemma PapSpoils(o: Options, x: bytes)
    requires N.Wanted(o) == Upap && |x| >= 4 && Named(x).Some? && Named(x).value.0 != Upap
    ensures !N.AuthSpoils(o, x)
  {
    hide GetShort, LcpNak.TakenAsDifferent;
  }

  lemma NoDigests(a: byte, b: byte)
    ensures LcpNak.TakenAsDifferent(Digest(a), b) <==> !(a % 8 == 0 && b % 8 == 0)
  {
  }

  lemma ChapSpoils(c: Context, o: Options, x: bytes)
    requires N.Wanted(o) == Chap && |x| >= 4 && x[0] == CI_AUTHTYPE && Sized(x) && Named(x).Some?
    requires Named(x).value.0 == Chap <==> Chap in c.ao.neg
    requires Chap in c.ao.neg ==> |x| >= 5 && x[4] == Digest(c.ao.chapMd)
    ensures N.AuthSpoils(o, x) <==> Chap in c.ao.neg && c.ao.chapMd % 8 == 0 && o.chapMd % 8 == 0
  {
    hide GetShort, Digest, LcpNak.TakenAsDifferent;
    NoDigests(c.ao.chapMd, o.chapMd);
  }

  /** The case that is not: CHAP asked for with no digest is countered with itself, and that is no Nak. */
  lemma NoDigestExample(c: Context, s: Seen)
    requires c.ao.neg == {Chap} && c.ao.chapMd == 0 && s.ho.neg == {}
    ensures JudgeOption(c, s, [3, 5, 0xc2, 0x23, 0]).ruling == Counter([3, 5, 0xc2, 0x23, 0])
    ensures N.AuthSpoils(NoOptions.(neg := {Chap}), [3, 5, 0xc2, 0x23, 0])
  {
    var opt: bytes := [3, 5, 0xc2, 0x23, 0];
    assert opt[2..4] == [0xc2, 0x23];
    assert OfferChap(0) == opt;
  }
}
