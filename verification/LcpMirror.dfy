/** What an accepted request means: the peer that Acks our request has recorded
    exactly the options we asked for. */
module LcpMirror {
  import opened Wire
  import opened Bits
  import opened Fsm
  import opened LcpOptions
  import opened LcpReject
  import opened LcpRequest

  /** Each option is empty or announces its own length. */
  predicate WellFormed(cs: seq<bytes>) {
    forall k | 0 <= k < |cs| :: cs[k] == [] || (|cs[k]| >= 2 && cs[k][1] as int == |cs[k]|)
  }

  /** The non-empty options as pieces. */
  function Whole(cs: seq<bytes>): seq<Piece> {
    if cs == [] then []
    else
      var n := |cs| - 1;
      Whole(cs[..n]) + (if cs[n] == [] then [] else [Piece(cs[n], true)])
  }

  lemma {:induction false} WholeCons(c: bytes, cs: seq<bytes>)
    ensures Whole([c] + cs) == (if c == [] then [] else [Piece(c, true)]) + Whole(cs)
  {
    var all := [c] + cs;
    if cs == [] {
      assert all == [c] && all[..0] == [];
    } else {
      var n := |cs| - 1;
      assert all[..|all| - 1] == [c] + cs[..n];
      WholeCons(c, cs[..n]);
    }
  }

  /** Options that announce their own lengths are cut apart again as they were put together. */
  lemma {:induction false} PiecesOfFlatten(cs: seq<bytes>)
    requires WellFormed(cs)
    ensures Pieces(Flatten(cs)) == Whole(cs)
  {
    if cs != [] {
      var c, rest := cs[0], cs[1..];
      assert WellFormed(rest) by {
        assert forall k | 0 <= k < |rest| :: rest[k] == cs[k + 1];
      }
      PiecesOfFlatten(rest);
      WholeCons(c, rest);
      assert [c] + rest == cs;
      var p := Flatten(cs);
      assert p == c + Flatten(rest);
      if c != [] {
        assert p[..|c|] == c && p[|c|..] == Flatten(rest);
      } else {
        assert p == Flatten(rest);
      }
    }
  }

  lemma SentWellFormed(o: Options)
    ensures WellFormed(SentSlots(o))
  {
    forall k | 0 <= k < SLOTS
      ensures var c := SentSlots(o)[k]; c == [] || (|c| >= 2 && c[1] as int == |c|)
    {
      SentSlotForm(o, k);
    }
  }

  predicate Formed(c: bytes) {
    c == [] || (|c| >= 2 && c[1] as int == |c|)
  }

  lemma CiFormed(neg: bool, opt: byte, body: bytes)
    requires |body| <= 253
    ensures Formed(Ci(neg, opt, body))
  {
  }

  lemma LowFormed(o: Options)
    ensures Formed(MruCi(o)) && Formed(AsyncmapCi(o)) && Formed(EapCi(o)) && Formed(ChapCi(o)) && Formed(PapCi(o))
    ensures Formed(LqrCi(o)) && Formed(CbcpCi(o))
  {
    hide Ci, Formed, PutShort, PutLong;
    CiFormed(Mru in o.neg && o.mru != DEFMRU, CI_MRU, PutShort(o.mru));
    CiFormed(Asyncmap in o.neg && o.asyncmap != ALL_ONES, CI_ASYNCMAP, PutLong(o.asyncmap));
    CiFormed(Eap in o.neg, CI_AUTHTYPE, PutShort(PPP_EAP));
    CiFormed(Eap !in o.neg && Chap in o.neg, CI_AUTHTYPE, PutShort(PPP_CHAP) + [Digest(o.chapMd)]);
    CiFormed(Eap !in o.neg && Chap !in o.neg && Upap in o.neg, CI_AUTHTYPE, PutShort(PPP_PAP));
    CiFormed(Lqr in o.neg, CI_QUALITY, PutShort(PPP_LQR) + PutLong(o.lqrPeriod));
    CiFormed(Cbcp in o.neg, CI_CALLBACK, [CBCP_OPT]);
  }

  lemma HighFormed(o: Options)
    ensures Formed(MagicCi(o)) && Formed(PcompCi(o)) && Formed(AccompCi(o)) && Formed(MrruCi(o)) && Formed(SsnhfCi(o))
    ensures Formed(EndpointCi(o))
  {
    hide Ci, Formed, PutShort, PutLong;
    CiFormed(Magic in o.neg, CI_MAGICNUMBER, PutLong(o.magic));
    CiFormed(Pcomp in o.neg, CI_PCOMPRESSION, []);
    CiFormed(Accomp in o.neg, CI_ACCOMPRESSION, []);
    CiFormed(Mrru in o.neg, CI_MRRU, PutShort(o.mrru));
    CiFormed(Ssnhf in o.neg, CI_SSNHF, []);
    CiFormed(Endpoint in o.neg, CI_EPDISC, [o.endpoint.cls] + o.endpoint.value);
  }

  lemma SentSlotForm(o: Options, k: nat)
    requires k < SLOTS
    ensures Formed(SentSlots(o)[k])
  {
    hide MruCi, AsyncmapCi, EapCi, ChapCi, PapCi, LqrCi, CbcpCi, MagicCi, PcompCi, AccompCi, MrruCi, SsnhfCi,
    EndpointCi, Formed;
    LowFormed(o);
    HighFormed(o);
    assert SentSlots(o)[k] == if k == 0 then MruCi(o) else if k == 1 then AsyncmapCi(o) else SlotCi(o, k);
  }

  /** The record of the options asked for up to slot k. */
  predicate Mirrors(o: Options, ho: Options, k: nat)
    requires k <= SLOTS
  {
    && (forall j | 0 <= j < SLOTS :: FlagOf(j) in ho.neg <==> j < k && SentSlots(o)[j] != [] && j != 5)
    && (Mru in ho.neg ==> ho.mru == o.mru)
    && (Asyncmap in ho.neg ==> ho.asyncmap == o.asyncmap)
    && (Chap in ho.neg ==> ho.chapMd == MdOf(Digest(o.chapMd)))
    && (Magic in ho.neg ==> ho.magic == o.magic)
    && (Mrru in ho.neg ==> ho.mrru == o.mrru)
    && (Endpoint in ho.neg ==> ho.endpoint == o.endpoint)
  }

  /** Accepting the option in slot k records its flag and its value, and nothing else. */
  function RecordSlot(o: Options, ho: Options, k: nat): Options
    requires k < SLOTS
  {
    var f := ho.(neg := ho.neg + {FlagOf(k)});
    match k
    case 0 => f.(mru := o.mru)
    case 1 => f.(asyncmap := o.asyncmap)
    case 3 => f.(chapMd := MdOf(Digest(o.chapMd)))
    case 5 => ho
    case 7 => f.(magic := o.magic)
    case 10 => f.(mrru := o.mrru)
    case 12 => f.(endpoint := o.endpoint)
    case _ => f
  }

  lemma JudgeLow(c: Context, s: Seen, o: Options, k: nat)
    requires k < 5 && SentSlots(o)[k] != []
    requires JudgeOption(c, s, SentSlots(o)[k]).ruling.Accept?
    ensures JudgeOption(c, s, SentSlots(o)[k]).seen.ho == RecordSlot(o, s.ho, k)
  {
    hide PutShort, PutLong, GetShort, GetLong, LenCi, BitsIn, CanDigest, Digest, MdOf;
    match k
    case 0 => assert MruCi(o)[2..4] == PutShort(o.mru); ShortRoundTrip(o.mru, PutShort(o.mru));
    case 1 => assert AsyncmapCi(o)[2..6] == PutLong(o.asyncmap); LongRoundTrip(o.asyncmap, PutLong(o.asyncmap));
    case 2 => assert EapCi(o)[2..4] == PutShort(PPP_EAP); ShortRoundTrip(PPP_EAP, PutShort(PPP_EAP));
    case 3 => assert ChapCi(o)[2..4] == PutShort(PPP_CHAP); ShortRoundTrip(PPP_CHAP, PutShort(PPP_CHAP));
    case _ => assert PapCi(o)[2..4] == PutShort(PPP_PAP); ShortRoundTrip(PPP_PAP, PutShort(PPP_PAP));
  }

  lemma JudgeHigh(c: Context, s: Seen, o: Options, k: nat)
    requires 5 <= k < SLOTS && SentSlots(o)[k] != []
    requires JudgeOption(c, s, SentSlots(o)[k]).ruling.Accept?
    ensures JudgeOption(c, s, SentSlots(o)[k]).seen.ho == RecordSlot(o, s.ho, k)
    ensures k != 6 && (k == 5 ==> Lqr in c.ao.neg)
  {
    hide PutShort, PutLong, GetShort, GetLong, LenCi, BitsIn, CanDigest, Digest, MdOf, SentSlots;
    assert SentSlots(o)[k] == SlotCi(o, k) by {
      SlotOf(o, k);
    }
    match k
    case 7 => assert MagicCi(o)[2..6] == PutLong(o.magic); LongRoundTrip(o.magic, PutLong(o.magic));
    case 10 => assert MrruCi(o)[2..4] == PutShort(o.mrru); ShortRoundTrip(o.mrru, PutShort(o.mrru));
    case 12 => assert EndpointCi(o)[3..] == o.endpoint.value;
    case _ =>
  }

  lemma SlotOf(o: Options, k: nat)
    requires 5 <= k < SLOTS
    ensures SentSlots(o)[k] == SlotCi(o, k)
  {
  }

  lemma MirrorStep(o: Options, ho: Options, k: nat)
    requires k < SLOTS && Mirrors(o, ho, k)
    ensures SentSlots(o)[k] == [] ==> Mirrors(o, ho, k + 1)
    ensures SentSlots(o)[k] != [] ==> Mirrors(o, RecordSlot(o, ho, k), k + 1)
  {
    hide SentSlots;
    forall j | 0 <= j < SLOTS && j != k
      ensures FlagOf(j) != FlagOf(k)
    {
    }
  }

  /** Every ruling is Accept. */
  predicate AllAccepted(c: Context, s: Seen, xs: seq<Piece>, tough: bool) {
    forall k | 0 <= k < |xs| :: Rulings(c, s, xs, tough)[k].Accept?
  }

  lemma AcceptedPrefix(c: Context, s: Seen, xs: seq<Piece>, x: Piece, tough: bool)
    requires AllAccepted(c, s, xs + [x], tough)
    ensures AllAccepted(c, s, xs, tough)
    ensures JudgePiece(c, SeenAfter(c, s, xs), x).ruling.Accept?
    ensures SeenAfter(c, s, xs + [x]) == JudgePiece(c, SeenAfter(c, s, xs), x).seen
  {
    hide JudgePiece;
    var all := xs + [x];
    assert all[..|xs|] == xs;
    var rs := Rulings(c, s, all, tough);
    assert rs == Rulings(c, s, xs, tough) + [RulingOn(c, s, all, tough)];
    assert rs[|xs|].Accept?;
    assert forall k | 0 <= k < |xs| :: rs[k] == Rulings(c, s, xs, tough)[k];
  }

  lemma {:induction false} MirrorPrefix(c: Context, drawn: nat, o: Options, k: nat, tough: bool)
    requires k <= SLOTS
    requires AllAccepted(c, Seen(NoOptions, drawn), Whole(SentSlots(o)[..k]), tough)
    ensures Mirrors(o, SeenAfter(c, Seen(NoOptions, drawn), Whole(SentSlots(o)[..k])).ho, k)
    ensures k > 6 ==> SentSlots(o)[6] == []
    ensures k > 5 && Lqr !in c.ao.neg ==> SentSlots(o)[5] == []
  {
    hide SentSlots, JudgeOption, AllAccepted, Mirrors, RecordSlot;
    var s := Seen(NoOptions, drawn);
    var cs := SentSlots(o)[..k];
    if k == 0 {
      MirrorsStart(o);
    } else {
      var n := k - 1;
      assert cs[..n] == SentSlots(o)[..n];
      var xs := Whole(cs[..n]);
      var x := SentSlots(o)[n];
      SentSlotForm(o, n);
      if x != [] {
        assert Whole(cs) == xs + [Piece(x, true)];
        AcceptedPrefix(c, s, xs, Piece(x, true), tough);
        MirrorPrefix(c, drawn, o, n, tough);
        if n < 5 {
          JudgeLow(c, SeenAfter(c, s, xs), o, n);
        } else {
          JudgeHigh(c, SeenAfter(c, s, xs), o, n);
        }
      } else {
        assert Whole(cs) == xs;
        MirrorPrefix(c, drawn, o, n, tough);
      }
      MirrorStep(o, SeenAfter(c, s, xs).ho, n);
    }
  }

  lemma MirrorsStart(o: Options)
    ensures Mirrors(o, NoOptions, 0)
  {
  }

  /** The flags of the options a request carries. */
  function SentFlags(o: Options): set<Flag> {
    set k | 0 <= k < SLOTS && SentSlots(o)[k] != [] :: FlagOf(k)
  }

  lemma FlagsAre(f: Flag) returns (k: nat)
    ensures k < SLOTS && FlagOf(k) == f
  {
    k := match f
      case Mru => 0 case Asyncmap => 1 case Eap => 2 case Chap => 3 case Upap => 4 case Lqr => 5 case Cbcp => 6
      case Magic => 7 case Pcomp => 8 case Accomp => 9 case Mrru => 10 case Ssnhf => 11 case Endpoint => 12;
  }

  lemma SentFlag(o: Options, k: nat)
    requires k < SLOTS
    ensures FlagOf(k) in SentFlags(o) <==> SentSlots(o)[k] != []
  {
    hide SentSlots;
    if FlagOf(k) in SentFlags(o) {
      var j :| 0 <= j < SLOTS && SentSlots(o)[j] != [] && FlagOf(j) == FlagOf(k);
      assert j == k;
    }
  }

  lemma LqrSlot(o: Options)
    ensures SentSlots(o)[5] == [] <==> Lqr !in o.neg
  {
  }

  lemma MirroredFlags(o: Options, ho: Options)
    requires Mirrors(o, ho, SLOTS)
    ensures ho.neg == SentFlags(o) <==> Lqr !in o.neg
  {
    hide SentSlots, SentFlags, FlagOf;
    LqrSlot(o);
    SentFlag(o, 5);
    assert FlagOf(5) !in ho.neg;
    if Lqr !in o.neg {
      forall f: Flag
        ensures f in ho.neg <==> f in SentFlags(o)
      {
        var k := FlagsAre(f);
        SentFlag(o, k);
      }
    }
  }

  /** If a peer Acks the request our options produce, its record of us holds exactly the options asked for,
      value for value. The quality protocol it would accept unrecorded, if it were allowed to accept it, so the
      flags recorded are the flags sent if and only if no quality protocol was asked for; a peer that does not
      allow it, as none of this daemon does, always records all flags sent. A request for callback is never
      Acked. */
  lemma AckMirrors(c: Context, drawn: nat, o: Options, tough: bool)
    requires ReqCi(c, drawn, AddCi(o), tough).0 == CONFACK
    ensures Mirrors(o, ReqSeen(c, drawn, AddCi(o)).ho, SLOTS)
    ensures Cbcp !in o.neg
    ensures ReqSeen(c, drawn, AddCi(o)).ho.neg == SentFlags(o) <==> Lqr !in o.neg
    ensures Lqr !in c.ao.neg ==> ReqSeen(c, drawn, AddCi(o)).ho.neg == SentFlags(o)
  {
    hide SentSlots, Flatten, AddCi, Pieces, Whole, Rulings, SeenAfter, Mirrors;
    AddCiIsSent(o);
    SentWellFormed(o);
    PiecesOfFlatten(SentSlots(o));
    assert SentSlots(o)[..SLOTS] == SentSlots(o);
    MirrorPrefix(c, drawn, o, SLOTS, tough);
    CbcpSlot(o);
    LqrSlot(o);
    MirroredFlags(o, ReqSeen(c, drawn, AddCi(o)).ho);
  }

  lemma CbcpSlot(o: Options)
    ensures SentSlots(o)[6] == [] <==> Cbcp !in o.neg
  {
  }
}
