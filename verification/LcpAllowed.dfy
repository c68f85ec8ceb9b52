/** Which requests of a peer LCP accepts, which it counters and with what, and which it refuses: the allowance the
    options speak of, against the judgement. */
module LcpAllowed {
  import opened Wire
  import opened Bits
  import opened Fsm
  import opened LcpOptions
  import opened LcpReject
  import opened LcpRequest
  import opened LcpMirror

  const PROTOCOLS: set<Flag> := {Eap, Chap, Upap}

  // ---- One option ----

  /** The authentication protocol an option names, and in how many octets it does so. */
  function Named(opt: bytes): Option<(Flag, nat)>
    requires |opt| >= CILEN_SHORT
  {
    var proto := GetShort(opt[2..4]);
    if proto == PPP_EAP then Some((Eap, CILEN_SHORT))
    else if proto == PPP_CHAP then Some((Chap, CILEN_CHAP))
    else if proto == PPP_PAP then Some((Upap, CILEN_SHORT))
    else None
  }

  /** What a type of option asks for. */
  function Asked(t: byte): set<Flag> {
    if t == CI_MRU then {Mru} else if t == CI_ASYNCMAP then {Asyncmap} else if t == CI_AUTHTYPE then PROTOCOLS
    else if t == CI_QUALITY then {Lqr} else if t == CI_MAGICNUMBER then {Magic}
    else if t == CI_PCOMPRESSION then {Pcomp} else if t == CI_ACCOMPRESSION then {Accomp}
    else if t == CI_MRRU then {Mrru} else if t == CI_SSNHF then {Ssnhf} else if t == CI_EPDISC then {Endpoint}
    else {}
  }

  /** What the peer may have: what it is allowed, a magic number also if we have one, and what belongs to multilink
      only with that. */
  function Allowance(c: Context): set<Flag> {
    c.ao.neg - (if c.multilink then {} else {Mrru, Ssnhf}) + (if Magic in c.go.neg then {Magic} else {})
  }

  /** The lengths an option may have. */
  predicate Sized(opt: bytes)
    requires |opt| >= 2
  {
    var t := opt[0];
    if t == CI_MRU || t == CI_MRRU then |opt| == 4
    else if t == CI_ASYNCMAP || t == CI_MAGICNUMBER then |opt| == 6
    else if t == CI_QUALITY then |opt| == 8
    else if t == CI_PCOMPRESSION || t == CI_ACCOMPRESSION || t == CI_SSNHF then |opt| == 2
    else if t == CI_EPDISC then 3 <= |opt| <= 23
    else if t == CI_AUTHTYPE then |opt| >= 4 && (Named(opt).Some? ==> |opt| == Named(opt).value.1)
    else false
  }

  /** Nothing already accepted stands in the way: no two authentication protocols together. */
  predicate Free(ho: Options, opt: bytes)
    requires |opt| >= 2 && (opt[0] == CI_AUTHTYPE ==> |opt| >= 4)
  {
    opt[0] == CI_AUTHTYPE && Named(opt).Some? ==> ho.neg * (PROTOCOLS - {Named(opt).value.0}) == {}
  }

  /** An option there can be talk about: of a kind the peer may have, well formed, and free. */
  predicate Negotiable(c: Context, ho: Options, opt: bytes) {
    |opt| >= 2 && Sized(opt) && Asked(opt[0]) * Allowance(c) != {} && Free(ho, opt)
  }

  /** The value is one we can live with. */
  predicate Suits(c: Context, opt: bytes)
    requires |opt| >= 2 && Sized(opt)
  {
    var t := opt[0];
    if t == CI_MRU then GetShort(opt[2..4]) >= 128
    else if t == CI_ASYNCMAP then BitsIn(c.ao.asyncmap, GetLong(opt[2..6]))
    else if t == CI_QUALITY then GetShort(opt[2..4]) == PPP_LQR as int
    else if t == CI_MAGICNUMBER then Magic in c.go.neg ==> GetLong(opt[2..6]) != c.go.magic as int
    else if t == CI_AUTHTYPE then
      && Named(opt).Some? && Named(opt).value.0 in c.ao.neg
      && (Named(opt).value.0 == Chap ==> CanDigest(c.ao.chapMd, opt[4]))
    else true
  }

  /** What a counter-offer must be for this side to accept it itself. It always is, but for two cases: the CHAP
      digest offered may be none of those it can do, and the magic number drawn may be its own. */
  predicate Offerable(c: Context, nak: bytes) {
    && (|nak| == CILEN_CHAP && nak[0] == CI_AUTHTYPE ==> CanDigest(c.ao.chapMd, nak[4]))
    && (|nak| == CILEN_LONG && nak[0] == CI_MAGICNUMBER ==> GetLong(nak[2..6]) != c.go.magic as int)
  }

  lemma AuthRulingIff(c: Context, s: Seen, opt: bytes)
    requires |opt| >= 2 && opt[0] == CI_AUTHTYPE
    ensures var r := JudgeOption(c, s, opt).ruling;
            && (r.Refuse? <==> !Negotiable(c, s.ho, opt))
            && (r.Accept? <==> Negotiable(c, s.ho, opt) && Suits(c, opt))
  {
    hide GetShort, CanDigest, Digest, MdOf;
    var all := Allowance(c);
    assert Asked(opt[0]) * all != {} <==> Upap in c.ao.neg || Chap in c.ao.neg || Eap in c.ao.neg by {
      assert forall f | f in PROTOCOLS :: f in all <==> f in c.ao.neg;
      if Asked(opt[0]) * all != {} {
        var f :| f in Asked(opt[0]) * all;
      } else {
        assert forall f | f in PROTOCOLS :: f !in Asked(opt[0]) * all;
      }
    }
    if |opt| >= 4 && Named(opt).Some? {
      OthersFree(s.ho, Named(opt).value.0);
    }
  }

  lemma OthersFree(ho: Options, f: Flag)
    requires f in PROTOCOLS
    ensures ho.neg * (PROTOCOLS - {f}) == {} <==> forall g | g in PROTOCOLS && g != f :: g !in ho.neg
  {
    if exists g | g in PROTOCOLS && g != f :: g in ho.neg {
      var g :| g in PROTOCOLS && g != f && g in ho.neg;
      assert g in ho.neg * (PROTOCOLS - {f});
    }
  }

  lemma OneAsked(c: Context, f: Flag)
    ensures {f} * Allowance(c) != {} <==> f in Allowance(c)
  {
    if f in Allowance(c) {
      assert f in {f} * Allowance(c);
    }
  }

  lemma OtherRulingIff(c: Context, s: Seen, opt: bytes)
    requires |opt| >= 2 && opt[0] != CI_AUTHTYPE
    ensures var r := JudgeOption(c, s, opt).ruling;
            && (r.Refuse? <==> !Negotiable(c, s.ho, opt))
            && (r.Accept? <==> Negotiable(c, s.ho, opt) && Suits(c, opt))
  {
    hide GetShort, GetLong, BitsIn, PutShort, PutLong;
    var t := opt[0];
    if t == CI_MRU { OneAsked(c, Mru); }
    if t == CI_ASYNCMAP { OneAsked(c, Asyncmap); }
    if t == CI_QUALITY { OneAsked(c, Lqr); }
    if t == CI_MAGICNUMBER { OneAsked(c, Magic); }
    if t == CI_PCOMPRESSION { OneAsked(c, Pcomp); }
    if t == CI_ACCOMPRESSION { OneAsked(c, Accomp); }
    if t == CI_MRRU { OneAsked(c, Mrru); }
    if t == CI_SSNHF { OneAsked(c, Ssnhf); }
    if t == CI_EPDISC { OneAsked(c, Endpoint); }
  }

  /** An option is refused exactly if there can be no talk about it, accepted exactly if there can be and its value
      suits, and countered otherwise. */
  lemma RulingIff(c: Context, s: Seen, opt: bytes)
    requires |opt| >= 2
    ensures var r := JudgeOption(c, s, opt).ruling;
            && (r.Refuse? <==> !Negotiable(c, s.ho, opt))
            && (r.Accept? <==> Negotiable(c, s.ho, opt) && Suits(c, opt))
  {
    hide JudgeOption, Negotiable, Suits;
    if opt[0] == CI_AUTHTYPE {
      AuthRulingIff(c, s, opt);
    } else {
      OtherRulingIff(c, s, opt);
    }
  }

  // ---- Counter-offers ----

  /** The protocol a counter-offer names: the one wanted if only its digest was wrong, else the best one allowed that
      is not the one asked for. EAP comes before CHAP and CHAP before PAP. */
  function Preferred(ao: Options, opt: bytes): Flag
    requires |opt| >= CILEN_SHORT
  {
    var asked := if Named(opt).Some? then Some(Named(opt).value.0) else None;
    if asked == Some(Chap) && Chap in ao.neg then Chap
    else if Eap in ao.neg && asked != Some(Eap) then Eap
    else if Chap in ao.neg && asked != Some(Chap) then Chap
    else Upap
  }

  /** What a counter-offer says: the same option with the smallest MRU, with the bits we need put in, with the
      protocol we prefer, with the quality period we know, or with a number drawn. */
  predicate CounterSays(c: Context, s: Seen, opt: bytes, nak: bytes)
    requires |opt| >= 2 && Sized(opt)
  {
    && |nak| >= 2 && nak[0] == opt[0] && nak[1] as int == |nak| && Sized(nak)
    && (opt[0] == CI_MRU ==> GetShort(nak[2..4]) == 128)
    && (opt[0] == CI_ASYNCMAP ==> GetLong(nak[2..6]) == BitOr(c.ao.asyncmap, GetLong(opt[2..6])))
    && (opt[0] == CI_AUTHTYPE ==> Named(nak).Some? && Named(nak).value.0 == Preferred(c.ao, opt))
    && (opt[0] == CI_QUALITY ==> GetShort(nak[2..4]) == PPP_LQR as int && GetLong(nak[4..8]) == c.ao.lqrPeriod as int)
    && (opt[0] == CI_MAGICNUMBER ==> GetLong(nak[2..6]) == c.magic(s.drawn) as int)
  }

  lemma OffersNamed(proto: u16, d: byte)
    requires proto == PPP_EAP || proto == PPP_PAP
    ensures Named(OfferShort(proto)) == Some((if proto == PPP_EAP then Eap else Upap, CILEN_SHORT))
    ensures Named(OfferChap(d)) == Some((Chap, CILEN_CHAP))
  {
    hide GetShort, PutShort;
    assert OfferShort(proto)[2..4] == PutShort(proto) && OfferChap(d)[2..4] == PutShort(PPP_CHAP);
    ShortRoundTrip(proto, PutShort(proto));
    ShortRoundTrip(PPP_CHAP, PutShort(PPP_CHAP));
  }

  lemma AuthCounter(c: Context, s: Seen, opt: bytes)
    requires |opt| >= 2 && Sized(opt) && opt[0] == CI_AUTHTYPE && JudgeOption(c, s, opt).ruling.Counter?
    ensures CounterSays(c, s, opt, JudgeOption(c, s, opt).ruling.nak)
  {
    hide GetShort, PutShort, CanDigest, Digest, MdOf;
    OffersNamed(PPP_PAP, Digest(c.ao.chapMd));
    OffersNamed(PPP_EAP, c.ao.chapMd);
  }

  lemma OtherCounter(c: Context, s: Seen, opt: bytes)
    requires |opt| >= 2 && Sized(opt) && opt[0] != CI_AUTHTYPE && JudgeOption(c, s, opt).ruling.Counter?
    ensures CounterSays(c, s, opt, JudgeOption(c, s, opt).ruling.nak)
  {
    hide GetShort, PutShort, GetLong, PutLong, BitsIn, BitOr, Named;
    var nak := JudgeOption(c, s, opt).ruling.nak;
    if opt[0] == CI_MRU {
      assert nak[2..4] == PutShort(MINMRU);
      ShortRoundTrip(MINMRU, PutShort(MINMRU));
    } else if opt[0] == CI_ASYNCMAP {
      var v := Or32(c.ao.asyncmap, GetLong(opt[2..6]));
      assert nak[2..6] == PutLong(v);
      LongRoundTrip(v, PutLong(v));
    } else if opt[0] == CI_QUALITY {
      assert nak[2..4] == PutShort(PPP_LQR) && nak[4..8] == PutLong(c.ao.lqrPeriod);
      ShortRoundTrip(PPP_LQR, PutShort(PPP_LQR));
      LongRoundTrip(c.ao.lqrPeriod, PutLong(c.ao.lqrPeriod));
    } else {
      assert nak[2..6] == PutLong(c.magic(s.drawn));
      LongRoundTrip(c.magic(s.drawn), PutLong(c.magic(s.drawn)));
    }
  }

  /** Every counter-offer says that, and sent back alone it is accepted, exactly if a CHAP digest in it is one we can
      do and a magic number drawn is not our own. */
  lemma CounterIff(c: Context, s: Seen, opt: bytes, drawn: nat)
    requires |opt| >= 2 && JudgeOption(c, s, opt).ruling.Counter?
    ensures Sized(opt) && CounterSays(c, s, opt, JudgeOption(c, s, opt).ruling.nak)
    ensures var nak := JudgeOption(c, s, opt).ruling.nak;
            JudgeOption(c, Seen(NoOptions, drawn), nak).ruling.Accept? <==> Offerable(c, nak)
  {
    hide JudgeOption, CounterSays;
    RulingIff(c, s, opt);
    var nak := JudgeOption(c, s, opt).ruling.nak;
    if opt[0] == CI_AUTHTYPE {
      AuthCounter(c, s, opt);
    } else {
      OtherCounter(c, s, opt);
    }
    OfferSuits(c, s, opt, nak);
    RulingIff(c, Seen(NoOptions, drawn), nak);
  }

  lemma OfferSuits(c: Context, s: Seen, opt: bytes, nak: bytes)
    requires Negotiable(c, s.ho, opt) && !Suits(c, opt) && CounterSays(c, s, opt, nak)
    ensures Negotiable(c, NoOptions, nak) && (Suits(c, nak) <==> Offerable(c, nak))
  {
    hide GetShort, GetLong, BitsIn, BitOr, CanDigest;
    if opt[0] == CI_AUTHTYPE {
      OneOfThem(c);
    } else if opt[0] == CI_ASYNCMAP {
      OrGains(c.ao.asyncmap, GetLong(opt[2..6]));
    }
  }

  lemma OneOfThem(c: Context)
    requires PROTOCOLS * Allowance(c) != {}
    ensures Upap in c.ao.neg || Chap in c.ao.neg || Eap in c.ao.neg
  {
    var f :| f in PROTOCOLS * Allowance(c);
  }

  // ---- Requests ----

  /** A piece that cannot be settled by a counter-offer; told to get tough, that is all but a looped magic number. */
  predicate Hopeless(c: Context, ho: Options, x: Piece, tough: bool) {
    || !x.whole || !Negotiable(c, ho, x.octets)
    || (tough && !Suits(c, x.octets) && x.octets[0] != CI_MAGICNUMBER)
  }

  predicate Fine(c: Context, ho: Options, x: Piece) {
    x.whole && Negotiable(c, ho, x.octets) && Suits(c, x.octets)
  }

  /** The record kept when piece k of a request is judged. */
  function Before(c: Context, drawn: nat, xs: seq<Piece>, k: nat): Options
    requires k <= |xs|
  {
    SeenAfter(c, Seen(NoOptions, drawn), xs[..k]).ho
  }

  lemma PieceRuling(c: Context, drawn: nat, xs: seq<Piece>, tough: bool, k: nat)
    requires k < |xs|
    ensures var r := Rulings(c, Seen(NoOptions, drawn), xs, tough)[k];
            && (r.Refuse? <==> Hopeless(c, Before(c, drawn, xs, k), xs[k], tough))
            && (r.Accept? <==> Fine(c, Before(c, drawn, xs, k), xs[k]))
  {
    hide JudgeOption, Negotiable, Suits, SeenAfter, Rulings;
    var s := Seen(NoOptions, drawn);
    RulingAt(c, s, xs, tough, k);
    assert xs[..k + 1][..k] == xs[..k];
    ShortRefused(c, Before(c, drawn, xs, k), xs[k].octets);
    if xs[k].whole && |xs[k].octets| >= 2 {
      RulingIff(c, SeenAfter(c, s, xs[..k]), xs[k].octets);
    }
  }

  lemma ShortRefused(c: Context, ho: Options, opt: bytes)
    ensures Negotiable(c, ho, opt) ==> |opt| >= 2 && Sized(opt)
  {
  }

  ghost predicate AllFine(c: Context, drawn: nat, xs: seq<Piece>) {
    forall k | 0 <= k < |xs| :: Fine(c, Before(c, drawn, xs, k), xs[k])
  }

  ghost predicate SomeHopeless(c: Context, drawn: nat, xs: seq<Piece>, tough: bool) {
    exists k | 0 <= k < |xs| :: Hopeless(c, Before(c, drawn, xs, k), xs[k], tough)
  }

  ghost predicate SomeRefuse(rs: seq<Ruling>) {
    exists k | 0 <= k < |rs| :: rs[k].Refuse?
  }

  lemma RefusalsMean(c: Context, drawn: nat, xs: seq<Piece>, tough: bool)
    ensures SomeRefuse(Rulings(c, Seen(NoOptions, drawn), xs, tough)) <==> SomeHopeless(c, drawn, xs, tough)
  {
    hide Fine, Hopeless, Before, Rulings;
    var rs := Rulings(c, Seen(NoOptions, drawn), xs, tough);
    if SomeRefuse(rs) {
      var k :| 0 <= k < |rs| && rs[k].Refuse?;
      PieceRuling(c, drawn, xs, tough, k);
    }
    if SomeHopeless(c, drawn, xs, tough) {
      var k :| 0 <= k < |xs| && Hopeless(c, Before(c, drawn, xs, k), xs[k], tough);
      PieceRuling(c, drawn, xs, tough, k);
    }
  }

  lemma AcceptsMean(c: Context, drawn: nat, xs: seq<Piece>, tough: bool)
    ensures AllAccepted(c, Seen(NoOptions, drawn), xs, tough) <==> AllFine(c, drawn, xs)
  {
    hide Fine, Hopeless, Before, Rulings;
    var s := Seen(NoOptions, drawn);
    forall k | 0 <= k < |xs|
      ensures Rulings(c, s, xs, tough)[k].Accept? <==> Fine(c, Before(c, drawn, xs, k), xs[k])
    {
      PieceRuling(c, drawn, xs, tough, k);
    }
  }

  /** A request is Acked exactly if every option of it is fine in its place, and Rejected exactly if some option is
      hopeless in its place. */
  lemma AnswerIff(c: Context, drawn: nat, p: bytes, tough: bool)
    ensures ReqCi(c, drawn, p, tough).0 == CONFACK <==> AllFine(c, drawn, Pieces(p))
    ensures ReqCi(c, drawn, p, tough).0 == CONFREJ <==> SomeHopeless(c, drawn, Pieces(p), tough)
  {
    hide AllFine, SomeHopeless, Rulings, Pieces, RefusedPart, CounterPart;
    AcceptsMean(c, drawn, Pieces(p), tough);
    RefusalsMean(c, drawn, Pieces(p), tough);
    var rs := Rulings(c, Seen(NoOptions, drawn), Pieces(p), tough);
    if !(exists k | 0 <= k < |rs| :: rs[k].Refuse?) && !(exists k | 0 <= k < |rs| :: rs[k].Counter?) {
      assert AllAccepted(c, Seen(NoOptions, drawn), Pieces(p), tough);
    }
  }

  /** A record of a peer that holds nothing the peer may not have. */
  ghost predicate Within(c: Context, ho: Options) {
    && ho.neg <= Allowance(c)
    && (forall f, g | f in ho.neg * PROTOCOLS && g in ho.neg * PROTOCOLS :: f == g)
    && (Mru in ho.neg ==> ho.mru >= 128)
    && (Asyncmap in ho.neg ==> BitsIn(c.ao.asyncmap, ho.asyncmap))
    && (Chap in ho.neg ==> exists d: byte :: CanDigest(c.ao.chapMd, d) && ho.chapMd == MdOf(d))
    && (Magic in ho.neg * c.go.neg ==> ho.magic != c.go.magic)
  }

  lemma AuthWithin(c: Context, s: Seen, opt: bytes)
    requires |opt| >= 2 && opt[0] == CI_AUTHTYPE && Within(c, s.ho)
    ensures Within(c, JudgeOption(c, s, opt).seen.ho)
  {
    hide GetShort, GetLong, BitsIn, CanDigest, Digest, MdOf;
    var t := JudgeOption(c, s, opt).seen.ho;
    assert t.neg <= s.ho.neg + PROTOCOLS;
    if JudgeOption(c, s, opt).ruling.Accept? && Named(opt) == Some((Chap, CILEN_CHAP)) {
      assert CanDigest(c.ao.chapMd, opt[4]) && t.chapMd == MdOf(opt[4]);
    }
  }

  lemma OtherFlags(c: Context, s: Seen, opt: bytes)
    requires |opt| >= 2 && opt[0] != CI_AUTHTYPE && s.ho.neg <= Allowance(c)
    ensures var ho := JudgeOption(c, s, opt).seen.ho;
            ho.neg <= Allowance(c) && ho.neg * PROTOCOLS == s.ho.neg * PROTOCOLS && ho.chapMd == s.ho.chapMd
  {
    hide GetShort, GetLong, BitsIn;
  }

  lemma OtherWithin(c: Context, s: Seen, opt: bytes)
    requires |opt| >= 2 && opt[0] != CI_AUTHTYPE && Within(c, s.ho)
    ensures Within(c, JudgeOption(c, s, opt).seen.ho)
  {
    hide GetShort, GetLong, BitsIn, CanDigest, MdOf, Allowance;
    OtherFlags(c, s, opt);
    var ho := JudgeOption(c, s, opt).seen.ho;
    assert Chap in ho.neg <==> Chap in ho.neg * PROTOCOLS;
    assert Chap in s.ho.neg <==> Chap in s.ho.neg * PROTOCOLS;
  }

  lemma {:induction false} SeenWithin(c: Context, s: Seen, xs: seq<Piece>)
    requires Within(c, s.ho)
    ensures Within(c, SeenAfter(c, s, xs).ho)
  {
    hide JudgeOption, Within;
    if xs != [] {
      var n := |xs| - 1;
      SeenWithin(c, s, xs[..n]);
      if xs[n].whole && |xs[n].octets| >= 2 {
        if xs[n].octets[0] == CI_AUTHTYPE {
          AuthWithin(c, SeenAfter(c, s, xs[..n]), xs[n].octets);
        } else {
          OtherWithin(c, SeenAfter(c, s, xs[..n]), xs[n].octets);
        }
      }
    }
  }

  /** Whatever a peer asks for, what is recorded of it, and so what is Acked, is only what it may have: no
      authentication protocol but one that is allowed and only one, a digest we can do, an MRU of at least 128, all
      the bits of the asyncmap we need, and no magic number of ours. */
  lemma RecordedIsAllowed(c: Context, drawn: nat, p: bytes)
    ensures Within(c, ReqSeen(c, drawn, p).ho)
  {
    hide Pieces, SeenAfter;
    assert Within(c, NoOptions);
    SeenWithin(c, Seen(NoOptions, drawn), Pieces(p));
  }

  // ---- Requests made from options ----

  /** The options asked for, as far as a request carries them, have values we can live with. */
  predicate ValuesSuit(c: Context, o: Options, k: nat)
    requires k < SLOTS
  {
    match k
    case 0 => o.mru >= 128
    case 1 => BitsIn(c.ao.asyncmap, o.asyncmap)
    case 3 => CanDigest(c.ao.chapMd, Digest(o.chapMd))
    case 6 => false
    case 7 => Magic in c.go.neg ==> o.magic != c.go.magic
    case _ => true
  }

  predicate Grants(c: Context, o: Options, k: nat)
    requires k < SLOTS
  {
    FlagOf(k) in Allowance(c) && ValuesSuit(c, o, k)
  }

  lemma AuthSlotFine(c: Context, ho: Options, o: Options, k: nat)
    requires 2 <= k <= 4 && SentSlots(o)[k] != [] && Mirrors(o, ho, k)
    ensures Fine(c, ho, Piece(SentSlots(o)[k], true)) <==> Grants(c, o, k)
  {
    hide GetShort, PutShort, CanDigest, Digest, SentSlots;
    var opt, f := SentSlots(o)[k], FlagOf(k);
    AuthSlot(o, k);
    OthersFree(ho, f);
    forall g | g in PROTOCOLS && g != f
      ensures g !in ho.neg
    {
      var j := if g == Eap then 2 else if g == Chap then 3 else 4;
      OtherSlots(o, k, j);
      assert FlagOf(j) in ho.neg <==> j < k && SentSlots(o)[j] != [] && j != 5;
    }
    if f in c.ao.neg {
      assert f in Asked(CI_AUTHTYPE) * Allowance(c);
    }
  }

  lemma AuthSlot(o: Options, k: nat)
    requires 2 <= k <= 4 && SentSlots(o)[k] != []
    ensures var opt := SentSlots(o)[k];
            && |opt| >= 4 && opt[0] == CI_AUTHTYPE && Named(opt) == Some((FlagOf(k), |opt|)) && Sized(opt)
            && (k == 3 ==> |opt| == 5 && opt[4] == Digest(o.chapMd))
  {
    hide GetShort, PutShort, Digest;
    var opt := SentSlots(o)[k];
    ShortRoundTrip(PPP_PAP, PutShort(PPP_PAP));
    ShortRoundTrip(PPP_CHAP, PutShort(PPP_CHAP));
    ShortRoundTrip(PPP_EAP, PutShort(PPP_EAP));
    match k
    case 2 => assert opt[2..4] == PutShort(PPP_EAP);
    case 3 => assert opt[2..4] == PutShort(PPP_CHAP);
    case _ => assert opt[2..4] == PutShort(PPP_PAP);
  }

  lemma OtherSlots(o: Options, k: nat, j: nat)
    requires 2 <= k <= 4 && 2 <= j <= 4 && j != k && SentSlots(o)[k] != []
    ensures SentSlots(o)[j] == []
  {
    hide PutShort, Digest;
  }

  lemma OtherSlotFine(c: Context, ho: Options, o: Options, k: nat)
    requires k < SLOTS && !(2 <= k <= 4) && SentSlots(o)[k] != []
    ensures Fine(c, ho, Piece(SentSlots(o)[k], true)) <==> Grants(c, o, k)
  {
    hide GetShort, PutShort, GetLong, PutLong, BitsIn, CanDigest, Digest, Named, Allowance;
    var opt := SentSlots(o)[k];
    OneAsked(c, FlagOf(k));
    match k
    case 0 => assert opt == MruCi(o) && opt[2..4] == PutShort(o.mru); ShortRoundTrip(o.mru, PutShort(o.mru));
    case 1 =>
      assert opt == AsyncmapCi(o) && opt[2..6] == PutLong(o.asyncmap);
      LongRoundTrip(o.asyncmap, PutLong(o.asyncmap));
    case 5 => assert opt[2..4] == PutShort(PPP_LQR); ShortRoundTrip(PPP_LQR, PutShort(PPP_LQR));
    case 7 => assert opt[2..6] == PutLong(o.magic); LongRoundTrip(o.magic, PutLong(o.magic));
    case _ =>
  }

  lemma FineMore(c: Context, drawn: nat, xs: seq<Piece>, x: Piece)
    ensures AllFine(c, drawn, xs + [x]) <==>
              AllFine(c, drawn, xs) && Fine(c, SeenAfter(c, Seen(NoOptions, drawn), xs).ho, x)
  {
    hide Fine, SeenAfter;
    var all := xs + [x];
    assert all[..|xs|] == xs;
    assert forall k | 0 <= k < |xs| :: all[..k] == xs[..k] && all[k] == xs[k];
    if AllFine(c, drawn, all) {
      forall k | 0 <= k < |xs|
        ensures Fine(c, Before(c, drawn, xs, k), xs[k])
      {
        assert Fine(c, Before(c, drawn, all, k), all[k]);
      }
      assert Fine(c, Before(c, drawn, all, |xs|), all[|xs|]);
    }
  }

  /** The slots up to k are all granted. */
  ghost predicate GrantedTo(c: Context, o: Options, k: nat)
    requires k <= SLOTS
  {
    forall j | 0 <= j < k && SentSlots(o)[j] != [] :: Grants(c, o, j)
  }

  lemma {:induction false} FineTo(c: Context, drawn: nat, o: Options, k: nat)
    requires k <= SLOTS
    ensures AllFine(c, drawn, Whole(SentSlots(o)[..k])) <==> GrantedTo(c, o, k)
  {
    hide SentSlots, AllFine, Fine, Grants, Mirrors, AllAccepted, SeenAfter;
    var cs := SentSlots(o)[..k];
    if k == 0 {
      assert cs == [];
      NoneFine(c, drawn);
    } else {
      var n := k - 1;
      assert cs[..n] == SentSlots(o)[..n];
      var xs, x := Whole(cs[..n]), SentSlots(o)[n];
      FineTo(c, drawn, o, n);
      if x == [] {
        assert Whole(cs) == xs;
      } else {
        assert Whole(cs) == xs + [Piece(x, true)];
        FineMore(c, drawn, xs, Piece(x, true));
        if AllFine(c, drawn, xs) {
          FineAccepted(c, drawn, xs);
          MirrorPrefix(c, drawn, o, n, false);
          SlotFine(c, SeenAfter(c, Seen(NoOptions, drawn), xs).ho, o, n);
        }
      }
    }
  }

  lemma FineAccepted(c: Context, drawn: nat, xs: seq<Piece>)
    requires AllFine(c, drawn, xs)
    ensures AllAccepted(c, Seen(NoOptions, drawn), xs, false)
  {
    hide AllFine, AllAccepted;
    AcceptsMean(c, drawn, xs, false);
  }

  lemma NoneFine(c: Context, drawn: nat)
    ensures AllFine(c, drawn, Whole([]))
  {
  }

  lemma SlotFine(c: Context, ho: Options, o: Options, k: nat)
    requires k < SLOTS && SentSlots(o)[k] != [] && Mirrors(o, ho, k)
    ensures Fine(c, ho, Piece(SentSlots(o)[k], true)) <==> Grants(c, o, k)
  {
    hide SentSlots, Fine, Grants, Mirrors;
    if 2 <= k <= 4 {
      AuthSlotFine(c, ho, o, k);
    } else {
      OtherSlotFine(c, ho, o, k);
    }
  }

  /** The request some options make is Acked, if and only if each option it carries is one the peer may have, with a
      value that suits; callback never is. */
  lemma AckedIff(c: Context, drawn: nat, o: Options, tough: bool)
    ensures ReqCi(c, drawn, AddCi(o), tough).0 == CONFACK <==> GrantedTo(c, o, SLOTS)
  {
    hide AllFine, SomeHopeless, GrantedTo, ReqCi, Pieces, SentSlots, AddCi, Flatten, Whole;
    AddCiIsSent(o);
    SentWellFormed(o);
    PiecesOfFlatten(SentSlots(o));
    assert SentSlots(o)[..SLOTS] == SentSlots(o);
    AnswerIff(c, drawn, AddCi(o), tough);
    FineTo(c, drawn, o, SLOTS);
  }

  // ---- Rejects as the other side takes them ----

  /** Which slots of a request are refused. */
  function RefusedSlots(c: Context, drawn: nat, o: Options, tough: bool, k: nat): (r: seq<bool>)
    requires k <= SLOTS
    ensures |r| == k
  {
    if k == 0 then []
    else
      var x := SentSlots(o)[k - 1];
      RefusedSlots(c, drawn, o, tough, k - 1) +
      [x != [] && Hopeless(c, SeenAfter(c, Seen(NoOptions, drawn), Whole(SentSlots(o)[..k - 1])).ho,
                           Piece(x, true), tough)]
  }

  lemma {:induction false} ChosenMore(cs: seq<bytes>, k: nat, pick: seq<bool>, x: bytes, b: bool)
    requires k <= |cs| == |pick|
    ensures Chosen(cs + [x], k, pick + [b]) == Chosen(cs, k, pick) + if b then x else []
    decreases |cs| - k
  {
    hide Chosen;
    var cs', pick', last := cs + [x], pick + [b], if b then x else [];
    ChosenStep(cs', k, pick');
    if k < |cs| {
      ChosenStep(cs, k, pick);
      ChosenMore(cs, k + 1, pick, x, b);
      var first := if pick[k] then cs[k] else [];
      assert cs'[k] == cs[k] && pick'[k] == pick[k];
      assert first + (Chosen(cs, k + 1, pick) + last) == first + Chosen(cs, k + 1, pick) + last;
    } else {
      ChosenEnd(cs, pick);
      ChosenEnd(cs', pick');
      assert last + [] == [] + last;
    }
  }

  lemma ChosenStep(cs: seq<bytes>, k: nat, pick: seq<bool>)
    requires k < |cs| == |pick|
    ensures Chosen(cs, k, pick) == (if pick[k] then cs[k] else []) + Chosen(cs, k + 1, pick)
  {
  }

  lemma ChosenEnd(cs: seq<bytes>, pick: seq<bool>)
    requires |cs| == |pick|
    ensures Chosen(cs, |cs|, pick) == []
  {
  }

  /** What is refused of a request is a choice of the options it was made of, in order. */
  lemma {:induction false} RefusedIsChosen(c: Context, drawn: nat, o: Options, tough: bool, k: nat)
    requires k <= SLOTS
    ensures var xs := Whole(SentSlots(o)[..k]);
            RefusedPart(xs, Rulings(c, Seen(NoOptions, drawn), xs, tough)) ==
              Chosen(SentSlots(o)[..k], 0, RefusedSlots(c, drawn, o, tough, k))
  {
    hide SentSlots, Hopeless, SeenAfter, RulingOn;
    var cs := SentSlots(o)[..k];
    if k > 0 {
      var n := k - 1;
      assert cs[..n] == SentSlots(o)[..n] && cs == SentSlots(o)[..n] + [SentSlots(o)[n]];
      var xs, x := Whole(cs[..n]), SentSlots(o)[n];
      var picks := RefusedSlots(c, drawn, o, tough, n);
      RefusedIsChosen(c, drawn, o, tough, n);
      var b := RefusedSlots(c, drawn, o, tough, k)[n];
      assert RefusedSlots(c, drawn, o, tough, k) == picks + [b];
      ChosenMore(SentSlots(o)[..n], 0, picks, x, b);
      if x == [] {
        assert Whole(cs) == xs;
      } else {
        var all := xs + [Piece(x, true)];
        assert Whole(cs) == all && all[..|xs|] == xs;
        PieceRuling(c, drawn, all, tough, |xs|);
        var rs := Rulings(c, Seen(NoOptions, drawn), all, tough);
        assert rs[..|xs|] == Rulings(c, Seen(NoOptions, drawn), xs, tough);
      }
    }
  }

  /** Every Reject of a request is taken as good by the side that sent the request, which then asks for exactly the
      options that were not refused. */
  lemma RejectTaken(c: Context, drawn: nat, o: Options, tough: bool)
    requires ReqCi(c, drawn, AddCi(o), tough).0 == CONFREJ
    ensures var pick := RefusedSlots(c, drawn, o, tough, SLOTS);
            && RejCi(o, ReqCi(c, drawn, AddCi(o), tough).1) == Good(ClearChosen(o, 0, pick))
            && exists k | 0 <= k < SLOTS :: pick[k]
  {
    hide SentSlots, Pieces, Rulings, Whole, Flatten, AddCi, RejFrom, ClearChosen, Chosen, RefusedSlots, CounterPart;
    AddCiIsSent(o);
    SentWellFormed(o);
    PiecesOfFlatten(SentSlots(o));
    var pick := RefusedSlots(c, drawn, o, tough, SLOTS);
    assert SentSlots(o)[..SLOTS] == SentSlots(o);
    RefusedIsChosen(c, drawn, o, tough, SLOTS);
    RefusedSent(c, drawn, o, tough, SLOTS);
    forall k | 0 <= k < SLOTS
      ensures pick[k] ==> |SentSlots(o)[k]| >= 2
    {
      SentSlotForm(o, k);
    }
    SentSublistAccepted(o, pick);
    SomeRefused(c, drawn, o, tough);
  }

  lemma {:induction false} RefusedSent(c: Context, drawn: nat, o: Options, tough: bool, k: nat)
    requires k <= SLOTS
    ensures forall j | 0 <= j < k && RefusedSlots(c, drawn, o, tough, k)[j] :: SentSlots(o)[j] != []
  {
    hide SentSlots, Hopeless, SeenAfter;
    if k > 0 {
      RefusedSent(c, drawn, o, tough, k - 1);
    }
  }

  lemma SomeRefused(c: Context, drawn: nat, o: Options, tough: bool)
    requires ReqCi(c, drawn, AddCi(o), tough).0 == CONFREJ
    ensures exists k | 0 <= k < SLOTS :: RefusedSlots(c, drawn, o, tough, SLOTS)[k]
  {
    hide SentSlots, ReqCi, Pieces, Whole, Flatten, AddCi, SomeHopeless, RefusedSlots;
    AnswerIff(c, drawn, AddCi(o), tough);
    AddCiIsSent(o);
    SentWellFormed(o);
    PiecesOfFlatten(SentSlots(o));
    assert SentSlots(o)[..SLOTS] == SentSlots(o);
    HopelessTo(c, drawn, o, tough, SLOTS);
  }

  lemma {:induction false} HopelessTo(c: Context, drawn: nat, o: Options, tough: bool, k: nat)
    requires k <= SLOTS && SomeHopeless(c, drawn, Whole(SentSlots(o)[..k]), tough)
    ensures exists j | 0 <= j < k :: RefusedSlots(c, drawn, o, tough, k)[j]
  {
    hide SentSlots, Hopeless, SeenAfter, SomeHopeless;
    var cs := SentSlots(o)[..k];
    if k == 0 {
      assert cs == [];
      NoneHopeless(c, drawn, tough);
    } else {
      var n := k - 1;
      assert cs[..n] == SentSlots(o)[..n];
      var xs, x := Whole(cs[..n]), SentSlots(o)[n];
      var picks := RefusedSlots(c, drawn, o, tough, k);
      assert picks[..n] == RefusedSlots(c, drawn, o, tough, n);
      if x == [] {
        assert Whole(cs) == xs;
      } else {
        assert Whole(cs) == xs + [Piece(x, true)];
        HopelessMore(c, drawn, xs, Piece(x, true), tough);
      }
      if SomeHopeless(c, drawn, xs, tough) {
        HopelessTo(c, drawn, o, tough, n);
        var j :| 0 <= j < n && RefusedSlots(c, drawn, o, tough, n)[j];
        assert picks[j];
      } else {
        assert picks[n];
      }
    }
  }

  lemma NoneHopeless(c: Context, drawn: nat, tough: bool)
    ensures !SomeHopeless(c, drawn, Whole([]), tough)
  {
  }

  lemma HopelessMore(c: Context, drawn: nat, xs: seq<Piece>, x: Piece, tough: bool)
    requires SomeHopeless(c, drawn, xs + [x], tough)
    ensures SomeHopeless(c, drawn, xs, tough) || Hopeless(c, SeenAfter(c, Seen(NoOptions, drawn), xs).ho, x, tough)
  {
    hide Hopeless, SeenAfter;
    var all := xs + [x];
    var k :| 0 <= k < |all| && Hopeless(c, Before(c, drawn, all, k), all[k], tough);
    assert all[..|xs|] == xs;
    if k < |xs| {
      assert all[..k] == xs[..k] && all[k] == xs[k];
      assert Hopeless(c, Before(c, drawn, xs, k), xs[k], tough);
    }
  }
}
