/** What a Nak of our request leads to, told from its octets: which of them are taken for which option, when the whole
    is good, and field by field what is asked for next. */
module LcpNakMeans {
  import opened Wire
  import opened Bits
  import opened LcpOptions
  import opened LcpRequest
  import opened LcpNak

  const PROTOCOLS: set<Flag> := {Eap, Chap, Upap}

  /** The options of a request in the order a Nak must have them. */
  const PLACES := 11

  function TypeAt(k: nat): byte
    requires k < PLACES
  {
    [CI_MRU, CI_ASYNCMAP, CI_AUTHTYPE, CI_QUALITY, CI_CALLBACK, CI_MAGICNUMBER, CI_PCOMPRESSION, CI_ACCOMPRESSION,
     CI_MRRU, CI_SSNHF, CI_EPDISC][k]
  }

  /** Whether our request had an option in that place. */
  predicate Asks(go: Options, k: nat)
    requires k < PLACES
  {
    match k
    case 0 => Mru in go.neg && go.mru != DEFMRU
    case 1 => Asyncmap in go.neg && go.asyncmap != ALL_ONES
    case 2 => Eap in go.neg || Chap in go.neg || Upap in go.neg
    case 3 => Lqr in go.neg
    case 4 => Cbcp in go.neg
    case 5 => Magic in go.neg
    case 6 => Pcomp in go.neg
    case 7 => Accomp in go.neg
    case 8 => Mrru in go.neg
    case 9 => Ssnhf in go.neg
    case _ => Endpoint in go.neg
  }

  /** The lengths the option in a place may have. */
  predicate Fits(k: nat, n: nat)
    requires k < PLACES
  {
    match k
    case 2 => n >= 4
    case 10 => n >= 3
    case 4 => n == 3
    case _ =>
      n == if k == 0 || k == 8 then 4 else if k == 1 || k == 5 then 6 else if k == 3 then 8 else 2
  }

  /** Some octets start with the option of a place. */
  predicate Leads(q: bytes, k: nat)
    requires k < PLACES
  {
    |q| >= 2 && q[0] == TypeAt(k) && 2 <= q[1] as int <= |q| && Fits(k, q[1])
  }

  /** What is left of a Nak once the places before k have been gone through, and what is taken for place k. */
  function Rest(go: Options, p: bytes, k: nat): bytes
    requires k <= PLACES
  {
    if k == 0 then p
    else
      var q := Rest(go, p, k - 1);
      if Asks(go, k - 1) && Leads(q, k - 1) then q[q[1]..] else q
  }

  function Taken(go: Options, p: bytes, k: nat): (r: bytes)
    requires k < PLACES
    ensures r != [] ==> Asks(go, k) && Leads(r, k) && r[1] as int == |r|
  {
    var q := Rest(go, p, k);
    if Asks(go, k) && Leads(q, k) then q[..q[1]] else []
  }

  // ---- What is asked for next ----

  datatype Hint = ToPap | ToChap(digest: byte) | ToOther

  /** What an authentication option suggests. */
  function HintOf(opt: bytes): Hint
    requires |opt| >= 4
  {
    var proto := GetShort(opt[2..4]);
    if proto == PPP_PAP && |opt| == 4 then ToPap
    else if proto == PPP_CHAP && |opt| == 5 then ToChap(opt[4])
    else ToOther
  }

  /** The protocol we asked for. */
  function Wanted(go: Options): Flag {
    if Eap in go.neg then Eap else if Chap in go.neg then Chap else Upap
  }

  /** The digest suggested is none of ours, so the next best of ours is to be tried. */
  predicate TriesNext(go: Options, opt: bytes) {
    && |opt| >= 4 && HintOf(opt).ToChap? && Wanted(go) == Chap
    && TakenAsDifferent(HintOf(opt).digest, go.chapMd) && !CanDigest(go.chapMd, HintOf(opt).digest)
  }

  /** The protocol given up: the one asked for, unless CHAP was asked for and CHAP is suggested and some digest is
      left to try. */
  function AuthGivenUp(go: Options, opt: bytes): set<Flag> {
    if |opt| < 4 then {}
    else if Wanted(go) == Chap && HintOf(opt).ToChap? then
      if TriesNext(go, opt) && NextPreferred(go.chapMd) == 0 then {Chap} else {}
    else {Wanted(go)}
  }

  /** A suggestion of what we asked for is no Nak. */
  predicate AuthSpoils(go: Options, opt: bytes) {
    && |opt| >= 4
    && ((HintOf(opt).ToPap? && Wanted(go) == Upap)
        || (HintOf(opt).ToChap? && Wanted(go) == Chap && !TakenAsDifferent(HintOf(opt).digest, go.chapMd)))
  }

  /** The option given up in a place: one whose Nak leaves nothing to ask for. */
  function GivenUpAt(go: Options, opt: bytes, k: nat): set<Flag> {
    if opt == [] then {}
    else
      match k
      case 2 => AuthGivenUp(go, opt)
      case 3 => if ShortIn(opt) != PPP_LQR then {Lqr} else {}
      case 4 => {Cbcp}
      case 6 => {Pcomp}
      case 7 => {Accomp}
      case 9 => {Ssnhf}
      case 10 => {Endpoint}
      case _ => {}
  }

  function GivenUp(go: Options, p: bytes, k: nat): set<Flag>
    requires k <= PLACES
  {
    if k == 0 then {} else GivenUp(go, p, k - 1) + GivenUpAt(go, Taken(go, p, k - 1), k - 1)
  }

  /** The options a Nak adds that we did not ask about, one after another. Two octets or less are not looked at. */
  function Extras(q: bytes): seq<bytes>
    decreases |q|
  {
    if |q| <= 2 || q[1] < 2 || q[1] as int > |q| then [] else [q[..q[1]]] + Extras(q[q[1]..])
  }

  /** They do not end where an option ends. */
  predicate Ragged(q: bytes)
    decreases |q|
  {
    |q| > 2 && (q[1] < 2 || q[1] as int > |q| || Ragged(q[q[1]..]))
  }

  /** An extra option that makes a Nak bad: one we did ask about, or of a wrong length. */
  predicate Unwanted(go: Options, x: bytes) {
    |x| >= 2 && exists k | 0 <= k < PLACES && k != 4 :: x[0] == TypeAt(k) && (Asks(go, k) || (k != 2 && !Fits(k, |x|)))
  }

  /** The MRU some extra options settle on: the last one below the default. */
  function ExtraMru(xs: seq<bytes>, mru: u16): u16 {
    if xs == [] then mru
    else
      var x := xs[|xs| - 1];
      if |x| == 4 && x[0] == CI_MRU && GetShort(x[2..4]) < DEFMRU then GetShort(x[2..4])
      else ExtraMru(xs[..|xs| - 1], mru)
  }

  /** The options some extra ones ask us to ask for. */
  function ExtraFlags(xs: seq<bytes>): set<Flag> {
    (if exists k | 0 <= k < |xs| :: |xs[k]| == 4 && xs[k][0] == CI_MRU && GetShort(xs[k][2..4]) < DEFMRU
     then {Mru} else {})
    + (if exists k | 0 <= k < |xs| :: |xs[k]| >= 2 && xs[k][0] == CI_SSNHF then {Ssnhf} else {})
  }

  /** A good Nak. */
  ghost predicate GoodNak(go: Options, p: bytes) {
    var q := Rest(go, p, PLACES);
    && !AuthSpoils(go, Taken(go, p, 2)) && !Ragged(q)
    && forall k | 0 <= k < |Extras(q)| :: !Unwanted(go, Extras(q)[k])
  }

  /** The numbers in an option. */
  function ShortIn(opt: bytes): u16 {
    if |opt| >= 4 then GetShort(opt[2..4]) else 0
  }

  function LongIn(opt: bytes): u32 {
    if |opt| >= 6 then GetLong(opt[2..6]) else 0
  }

  function PeriodIn(opt: bytes): u32 {
    if |opt| >= 8 then GetLong(opt[4..8]) else 0
  }

  /** Field by field what is asked for after a good Nak: an MRU or MRRU suggested if it is within what is wanted, else
      the one asked for; the bits of both asyncmaps; a new magic number and a longer count of loops if there was one in
      the Nak; the quality period given; the next digest; and the flags without those given up, with those added. */
  predicate AskedNext(go: Options, wo: Options, p: bytes, newMagic: u32, o: Options) {
    var xs := Extras(Rest(go, p, PLACES));
    var mru, bits, lqr, mrru := Taken(go, p, 0), Taken(go, p, 1), Taken(go, p, 3), Taken(go, p, 8);
    && o.neg == go.neg - GivenUp(go, p, PLACES) + ExtraFlags(xs)
    && o.mru == (if mru == [] then ExtraMru(xs, go.mru)
                 else if ShortIn(mru) <= (if wo.mru >= DEFMRU then wo.mru else DEFMRU) then ShortIn(mru) else go.mru)
    && o.asyncmap == (if bits == [] then go.asyncmap else Or32(go.asyncmap, LongIn(bits)))
    && o.chapMd == (if TriesNext(go, Taken(go, p, 2)) then NextPreferred(go.chapMd) else go.chapMd)
    && o.lqrPeriod == (if lqr != [] && ShortIn(lqr) == PPP_LQR then PeriodIn(lqr) else go.lqrPeriod)
    && o.magic == (if Taken(go, p, 5) != [] then newMagic else go.magic)
    && o.numloops == (if Taken(go, p, 5) != [] then go.numloops + 1 else 0)
    && o.mrru == (if mrru != [] && ShortIn(mrru) <= wo.mrru then ShortIn(mrru) else go.mrru)
    && o.endpoint == go.endpoint
  }

  // ---- The walk, place by place ----

  /** What one option taken does. */
  function Took(go: Options, wo: Options, try: Options, opt: bytes, k: nat, newMagic: u32): Options {
    if opt == [] then try
    else
      match k
      case 0 => if ShortIn(opt) <= wo.mru || ShortIn(opt) <= DEFMRU then try.(mru := ShortIn(opt)) else try
      case 1 => try.(asyncmap := Or32(go.asyncmap, LongIn(opt)))
      case 2 => try.(neg := try.neg - AuthGivenUp(go, opt),
        chapMd := if TriesNext(go, opt) then NextPreferred(go.chapMd) else try.chapMd)
      case 3 => if ShortIn(opt) != PPP_LQR then try.(neg := try.neg - {Lqr}) else try.(lqrPeriod := PeriodIn(opt))
      case 4 => try.(neg := try.neg - {Cbcp})
      case 5 => try.(magic := newMagic)
      case 6 => try.(neg := try.neg - {Pcomp})
      case 7 => try.(neg := try.neg - {Accomp})
      case 8 => if ShortIn(opt) <= wo.mrru then try.(mrru := ShortIn(opt)) else try
      case 9 => try.(neg := try.neg - {Ssnhf})
      case _ => try.(neg := try.neg - {Endpoint})
  }

  /** Where the walk is before place k. */
  predicate At(go: Options, wo: Options, p: bytes, newMagic: u32, k: nat, w: Walk)
    requires k <= PLACES
  {
    w.p == Rest(go, p, k) && w.try == TryTo(go, wo, p, newMagic, k) && !w.bad
  }

  function TryTo(go: Options, wo: Options, p: bytes, newMagic: u32, k: nat): Options
    requires k <= PLACES
  {
    if k == 0 then go else Took(go, wo, TryTo(go, wo, p, newMagic, k - 1), Taken(go, p, k - 1), k - 1, newMagic)
  }

  lemma LeadsIs(q: bytes, k: nat, len: nat)
    requires k < PLACES && k != 2 && k != 10 && Fits(k, len)
    ensures Leads(q, k) <==> Heads(q, TypeAt(k), len)
  {
  }

  lemma MruPlace(go: Options, wo: Options, p: bytes, newMagic: u32, w: Walk)
    requires At(go, wo, p, newMagic, 0, w)
    ensures At(go, wo, p, newMagic, 1, NakMru(go, wo, w)) && NakMru(go, wo, w).looped == w.looped
  {
    hide GetShort, TypeAt;
    LeadsIs(w.p, 0, CILEN_SHORT);
    Types();
    if Asks(go, 0) && Leads(w.p, 0) {
      assert w.p[..4][2..4] == w.p[2..4];
    }
  }

  lemma Types()
    ensures TypeAt(0) == CI_MRU && TypeAt(1) == CI_ASYNCMAP && TypeAt(2) == CI_AUTHTYPE && TypeAt(3) == CI_QUALITY
    ensures TypeAt(4) == CI_CALLBACK && TypeAt(5) == CI_MAGICNUMBER && TypeAt(6) == CI_PCOMPRESSION
    ensures TypeAt(7) == CI_ACCOMPRESSION && TypeAt(8) == CI_MRRU && TypeAt(9) == CI_SSNHF && TypeAt(10) == CI_EPDISC
  {
  }

  lemma AsyncmapPlace(go: Options, wo: Options, p: bytes, newMagic: u32, w: Walk)
    requires At(go, wo, p, newMagic, 1, w)
    ensures At(go, wo, p, newMagic, 2, NakAsyncmap(go, w)) && NakAsyncmap(go, w).looped == w.looped
  {
    hide GetLong, TypeAt, TryTo, Or32, Rest;
    LeadsIs(w.p, 1, CILEN_LONG);
    Types();
    PlaceStep(go, wo, p, newMagic, 1);
    if Asks(go, 1) && Leads(w.p, 1) {
      assert w.p[..6][2..6] == w.p[2..6];
    }
  }

  lemma PlaceStep(go: Options, wo: Options, p: bytes, newMagic: u32, k: nat)
    requires k < PLACES
    ensures TryTo(go, wo, p, newMagic, k + 1) ==
              Took(go, wo, TryTo(go, wo, p, newMagic, k), Taken(go, p, k), k, newMagic)
    ensures Taken(go, p, k) == [] ==> Rest(go, p, k + 1) == Rest(go, p, k)
    ensures Taken(go, p, k) != [] ==> Rest(go, p, k + 1) == Rest(go, p, k)[|Taken(go, p, k)|..]
    ensures Taken(go, p, k) != [] <==> Asks(go, k) && Leads(Rest(go, p, k), k)
    ensures Taken(go, p, k) != [] ==> Taken(go, p, k) == Rest(go, p, k)[..Rest(go, p, k)[1]]
  {
    hide Took;
  }

  lemma AuthPlace(go: Options, wo: Options, p: bytes, newMagic: u32, w: Walk)
    requires At(go, wo, p, newMagic, 2, w) && w.try.chapMd == go.chapMd
    ensures var n := NakAuth(go, w);
            && (n.bad <==> AuthSpoils(go, Taken(go, p, 2))) && n.looped == w.looped
            && (!n.bad ==> At(go, wo, p, newMagic, 3, n))
  {
    hide GetShort, TypeAt, TryTo, Rest, TakenAsDifferent, CanDigest, MdOf, NextPreferred;
    Types();
    PlaceStep(go, wo, p, newMagic, 2);
    if Asks(go, 2) && Leads(w.p, 2) {
      var opt := w.p[..w.p[1]];
      assert opt[2..4] == w.p[2..4];
      assert |opt| == 5 ==> opt[4] == w.p[4];
      AuthTaken(go, w, opt);
    }
  }

  lemma AuthTaken(go: Options, w: Walk, opt: bytes)
    requires Asks(go, 2) && Leads(w.p, 2) && opt == w.p[..w.p[1]] && opt[2..4] == w.p[2..4]
    requires !w.bad && w.try.chapMd == go.chapMd
    ensures var n := NakAuth(go, w);
            && (n.bad <==> AuthSpoils(go, opt))
            && (!n.bad ==>
                  && n.p == w.p[w.p[1]..]
                  && n.try == w.try.(neg := w.try.neg - AuthGivenUp(go, opt),
                                     chapMd := if TriesNext(go, opt) then NextPreferred(go.chapMd) else w.try.chapMd))
  {
    hide GetShort, TakenAsDifferent, CanDigest, MdOf, NextPreferred;
    assert w.try.neg - {} == w.try.neg;
  }

  lemma LqrPlace(go: Options, wo: Options, p: bytes, newMagic: u32, w: Walk)
    requires At(go, wo, p, newMagic, 3, w)
    ensures At(go, wo, p, newMagic, 4, NakLqr(go, w)) && NakLqr(go, w).looped == w.looped
  {
    hide GetLong, GetShort, TypeAt, TryTo, Rest;
    LeadsIs(w.p, 3, CILEN_LQR);
    Types();
    PlaceStep(go, wo, p, newMagic, 3);
    if Asks(go, 3) && Leads(w.p, 3) {
      assert w.p[..8][2..4] == w.p[2..4] && w.p[..8][4..8] == w.p[4..8];
    }
  }

  lemma DropPlace(go: Options, wo: Options, p: bytes, newMagic: u32, w: Walk, k: nat, f: Flag, len: nat)
    requires k < PLACES && At(go, wo, p, newMagic, k, w) && len >= 2 && Fits(k, len)
    requires (k == 4 && f == Cbcp) || (k == 6 && f == Pcomp) || (k == 7 && f == Accomp) || (k == 9 && f == Ssnhf)
    ensures var n := NakDrops(go, w, f, TypeAt(k), len); At(go, wo, p, newMagic, k + 1, n) && n.looped == w.looped
  {
    hide TypeAt, TryTo, Rest;
    LeadsIs(w.p, k, len);
    PlaceStep(go, wo, p, newMagic, k);
  }

  lemma MagicPlace(go: Options, wo: Options, p: bytes, newMagic: u32, w: Walk)
    requires At(go, wo, p, newMagic, 5, w) && !w.looped
    ensures var n := NakMagic(go, w, newMagic);
            At(go, wo, p, newMagic, 6, n) && (n.looped <==> Taken(go, p, 5) != [])
  {
    hide TypeAt, TryTo, Rest;
    LeadsIs(w.p, 5, CILEN_LONG);
    Types();
    PlaceStep(go, wo, p, newMagic, 5);
  }

  lemma MrruPlace(go: Options, wo: Options, p: bytes, newMagic: u32, w: Walk)
    requires At(go, wo, p, newMagic, 8, w)
    ensures At(go, wo, p, newMagic, 9, NakMrru(go, wo, w)) && NakMrru(go, wo, w).looped == w.looped
  {
    hide GetShort, TypeAt, TryTo, Rest;
    LeadsIs(w.p, 8, CILEN_SHORT);
    Types();
    PlaceStep(go, wo, p, newMagic, 8);
    if Asks(go, 8) && Leads(w.p, 8) {
      assert w.p[..4][2..4] == w.p[2..4];
    }
  }

  lemma EndpointPlace(go: Options, wo: Options, p: bytes, newMagic: u32, w: Walk)
    requires At(go, wo, p, newMagic, 10, w)
    ensures At(go, wo, p, newMagic, 11, NakEndpoint(go, w)) && NakEndpoint(go, w).looped == w.looped
  {
    hide TypeAt, TryTo, Rest;
    Types();
    PlaceStep(go, wo, p, newMagic, 10);
  }

  lemma RestPlaces(go: Options, wo: Options, p: bytes, newMagic: u32, w: Walk)
    requires At(go, wo, p, newMagic, 3, w) && !w.looped
    ensures var n := NakRest(go, wo, w, newMagic);
            At(go, wo, p, newMagic, PLACES, n) && (n.looped <==> Taken(go, p, 5) != [])
  {
    hide At, Taken, NakLqr, NakDrops, NakMagic, NakMrru, NakEndpoint, TypeAt;
    Types();
    LqrPlace(go, wo, p, newMagic, w);
    var a := NakLqr(go, w);
    DropPlace(go, wo, p, newMagic, a, 4, Cbcp, CILEN_CHAR);
    var b := NakDrops(go, a, Cbcp, CI_CALLBACK, CILEN_CHAR);
    MagicPlace(go, wo, p, newMagic, b);
    var c := NakMagic(go, b, newMagic);
    DropPlace(go, wo, p, newMagic, c, 6, Pcomp, CILEN_VOID);
    var d := NakDrops(go, c, Pcomp, CI_PCOMPRESSION, CILEN_VOID);
    DropPlace(go, wo, p, newMagic, d, 7, Accomp, CILEN_VOID);
    var e := NakDrops(go, d, Accomp, CI_ACCOMPRESSION, CILEN_VOID);
    MrruPlace(go, wo, p, newMagic, e);
    var f := NakMrru(go, wo, e);
    DropPlace(go, wo, p, newMagic, f, 9, Ssnhf, CILEN_VOID);
    var g := NakDrops(go, f, Ssnhf, CI_SSNHF, CILEN_VOID);
    EndpointPlace(go, wo, p, newMagic, g);
  }

  // ---- The extra options ----

  /** Only options asked for have been seen. */
  predicate SeenAsked(go: Options, no: set<Flag>) {
    && no <= go.neg && (Mru in no ==> go.mru != DEFMRU) && (Asyncmap in no ==> go.asyncmap != ALL_ONES)
  }

  lemma SeenStart(go: Options, wo: Options, w: Walk)
    requires SeenAsked(go, w.no)
    ensures SeenAsked(go, NakMru(go, wo, w).no) && SeenAsked(go, NakAsyncmap(go, w).no)
  {
    hide GetShort, GetLong, Or32;
  }

  lemma SeenOne(go: Options, wo: Options, w: Walk, newMagic: u32, f: Flag, opt: byte, len: nat)
    requires SeenAsked(go, w.no) && len >= 2 && f != Mru && f != Asyncmap
    ensures SeenAsked(go, NakLqr(go, w).no) && SeenAsked(go, NakDrops(go, w, f, opt, len).no)
    ensures SeenAsked(go, NakMagic(go, w, newMagic).no) && SeenAsked(go, NakMrru(go, wo, w).no)
    ensures SeenAsked(go, NakEndpoint(go, w).no)
  {
    hide GetShort, GetLong, Heads;
    SeenFlag(go, w.no, Lqr);
    SeenFlag(go, w.no, f);
    SeenFlag(go, w.no, Magic);
    SeenFlag(go, w.no, Mrru);
    SeenFlag(go, w.no, Endpoint);
  }

  lemma SeenFlag(go: Options, no: set<Flag>, f: Flag)
    requires SeenAsked(go, no) && f != Mru && f != Asyncmap
    ensures f in go.neg ==> SeenAsked(go, no + {f})
  {
  }

  lemma SeenAuth(go: Options, w: Walk)
    requires SeenAsked(go, w.no)
    ensures SeenAsked(go, NakAuth(go, w).no)
  {
    hide GetShort, TakenAsDifferent, CanDigest, MdOf;
  }

  lemma SeenRest(go: Options, wo: Options, w: Walk, newMagic: u32)
    requires SeenAsked(go, w.no)
    ensures SeenAsked(go, NakRest(go, wo, w, newMagic).no)
  {
    hide SeenAsked, NakLqr, NakDrops, NakMagic, NakMrru, NakEndpoint;
    SeenOne(go, wo, w, newMagic, Cbcp, CI_CALLBACK, CILEN_CHAR);
    var a := NakLqr(go, w);
    SeenOne(go, wo, a, newMagic, Cbcp, CI_CALLBACK, CILEN_CHAR);
    var b := NakDrops(go, a, Cbcp, CI_CALLBACK, CILEN_CHAR);
    SeenOne(go, wo, b, newMagic, Cbcp, CI_CALLBACK, CILEN_CHAR);
    var c := NakMagic(go, b, newMagic);
    SeenOne(go, wo, c, newMagic, Pcomp, CI_PCOMPRESSION, CILEN_VOID);
    var d := NakDrops(go, c, Pcomp, CI_PCOMPRESSION, CILEN_VOID);
    SeenOne(go, wo, d, newMagic, Accomp, CI_ACCOMPRESSION, CILEN_VOID);
    var e := NakDrops(go, d, Accomp, CI_ACCOMPRESSION, CILEN_VOID);
    SeenOne(go, wo, e, newMagic, Ssnhf, CI_SSNHF, CILEN_VOID);
    var f := NakMrru(go, wo, e);
    SeenOne(go, wo, f, newMagic, Ssnhf, CI_SSNHF, CILEN_VOID);
    SeenOne(go, wo, NakDrops(go, f, Ssnhf, CI_SSNHF, CILEN_VOID), newMagic, Ssnhf, CI_SSNHF, CILEN_VOID);
  }

  lemma UnwantedIs(go: Options, no: set<Flag>, x: bytes)
    requires |x| >= 2 && SeenAsked(go, no)
    ensures ExtraAllowed(go, no, x[0], |x|) <==> !Unwanted(go, x)
  {
    hide TypeAt;
    Types();
    assert (go.neg + no) * {Chap, Upap, Eap} == {} <==> !Asks(go, 2) by {
      if Asks(go, 2) {
        assert Wanted(go) in (go.neg + no) * {Chap, Upap, Eap};
      }
      if (go.neg + no) * {Chap, Upap, Eap} != {} {
        var f :| f in (go.neg + no) * {Chap, Upap, Eap};
        assert f in go.neg;
      }
    }
    if !ExtraAllowed(go, no, x[0], |x|) {
      var k := PlaceOf(x[0]);
      assert x[0] == TypeAt(k);
    }
  }

  function PlaceOf(t: byte): nat
  {
    if t == CI_MRU then 0 else if t == CI_ASYNCMAP then 1 else if t == CI_AUTHTYPE then 2 else if t == CI_QUALITY then 3
    else if t == CI_MAGICNUMBER then 5 else if t == CI_PCOMPRESSION then 6 else if t == CI_ACCOMPRESSION then 7
    else if t == CI_MRRU then 8 else if t == CI_SSNHF then 9 else 10
  }

  lemma {:induction false} MruFrom(x: bytes, xs: seq<bytes>, mru: u16)
    ensures ExtraMru([x] + xs, mru) == ExtraMru(xs, ExtraMru([x], mru))
  {
    hide GetShort;
    var all := [x] + xs;
    if xs == [] {
      assert all == [x];
    } else {
      var n := |xs| - 1;
      assert all[..|all| - 1] == [x] + xs[..n] && all[|all| - 1] == xs[n];
      MruFrom(x, xs[..n], mru);
    }
  }

  lemma FlagsFrom(x: bytes, xs: seq<bytes>)
    ensures ExtraFlags([x] + xs) == ExtraFlags([x]) + ExtraFlags(xs)
  {
    hide GetShort;
    var all := [x] + xs;
    assert all[0] == x && forall k | 0 <= k < |xs| :: all[k + 1] == xs[k];
    assert forall k | 1 <= k < |all| :: all[k] == xs[k - 1];
    assert [x][0] == x;
  }

  lemma NoFlags()
    ensures ExtraFlags([]) == {}
  {
  }

  /** What one extra option adds. */
  lemma OneExtra(try: Options, p: bytes, x: bytes)
    requires |p| >= 2 && 2 <= p[1] as int <= |p| && x == p[..p[1]] && (p[0] == CI_MRU ==> |x| == 4)
    ensures ExtraAdds(try, p) == try.(neg := try.neg + ExtraFlags([x]), mru := ExtraMru([x], try.mru))
  {
    hide GetShort;
    assert [x][..0] == [] && [x][0] == x;
    if p[0] == CI_MRU {
      assert x[2..4] == p[2..4];
    }
    assert ExtraMru([x], try.mru) ==
           if |x| == 4 && x[0] == CI_MRU && GetShort(x[2..4]) < DEFMRU then GetShort(x[2..4]) else try.mru;
    assert try.neg + {} == try.neg;
  }

  ghost predicate SomeUnwanted(go: Options, xs: seq<bytes>) {
    exists k | 0 <= k < |xs| :: Unwanted(go, xs[k])
  }

  lemma UnwantedFrom(go: Options, x: bytes, xs: seq<bytes>)
    ensures SomeUnwanted(go, [x] + xs) <==> Unwanted(go, x) || SomeUnwanted(go, xs)
  {
    hide Unwanted;
    var all := [x] + xs;
    assert all[0] == x && forall k | 0 <= k < |xs| :: all[k + 1] == xs[k];
    if SomeUnwanted(go, xs) {
      var k :| 0 <= k < |xs| && Unwanted(go, xs[k]);
      assert Unwanted(go, all[k + 1]);
    }
    if SomeUnwanted(go, all) && !Unwanted(go, x) {
      var k :| 0 <= k < |all| && Unwanted(go, all[k]);
      assert Unwanted(go, xs[k - 1]);
    }
  }

  /** The extras are good exactly if they end where an option ends and none is unwanted, and then add what they do. */
  lemma {:induction false} ExtrasMean(go: Options, w: Walk)
    requires !w.bad && SeenAsked(go, w.no)
    ensures var n := NakExtras(go, w);
            var xs := Extras(w.p);
            && (n.bad <==> Ragged(w.p) || SomeUnwanted(go, xs)) && n.looped == w.looped
            && (!n.bad ==> n.try == w.try.(neg := w.try.neg + ExtraFlags(xs), mru := ExtraMru(xs, w.try.mru)))
    decreases |w.p|
  {
    hide Unwanted, ExtraAllowed, ExtraAdds, ExtraFlags, ExtraMru, SeenAsked, SomeUnwanted;
    if |w.p| <= CILEN_VOID || w.p[1] < 2 || w.p[1] as int > |w.p| {
      NoExtras(go, w.try);
    } else {
      var len := w.p[1] as int;
      var x, rest := w.p[..len], w.p[len..];
      assert x[0] == w.p[0] && |x| == len;
      UnwantedIs(go, w.no, x);
      UnwantedFrom(go, x, Extras(rest));
      if !Unwanted(go, x) {
        MruSized(go, x);
        OneExtra(w.try, w.p, x);
        var w1 := w.(p := rest, try := ExtraAdds(w.try, w.p));
        ExtrasMean(go, w1);
        MruFrom(x, Extras(rest), w.try.mru);
        FlagsFrom(x, Extras(rest));
        assert w.try.neg + ExtraFlags([x]) + ExtraFlags(Extras(rest)) == w.try.neg + ExtraFlags([x] + Extras(rest));
      }
    }
  }

  lemma NoExtras(go: Options, try: Options)
    ensures ExtraFlags([]) == {} && ExtraMru([], try.mru) == try.mru && !SomeUnwanted(go, [])
    ensures try.neg + ExtraFlags([]) == try.neg
  {
  }

  lemma MruSized(go: Options, x: bytes)
    requires |x| >= 2 && !Unwanted(go, x)
    ensures x[0] == CI_MRU ==> |x| == 4
  {
    hide TypeAt;
    Types();
    if x[0] == CI_MRU {
      assert x[0] == TypeAt(0);
    }
  }

  // ---- The whole ----

  lemma {:induction false} FlagsTo(go: Options, wo: Options, p: bytes, newMagic: u32, k: nat)
    requires k <= PLACES
    ensures TryTo(go, wo, p, newMagic, k).neg == go.neg - GivenUp(go, p, k)
  {
    hide TryTo, Rest, Taken, Took, GivenUpAt;
    if k == 0 {
      StartPlace(go, wo, p, newMagic);
    } else {
      FlagsTo(go, wo, p, newMagic, k - 1);
      PlaceStep(go, wo, p, newMagic, k - 1);
      TookFlags(go, wo, TryTo(go, wo, p, newMagic, k - 1), Taken(go, p, k - 1), k - 1, newMagic);
    }
  }

  lemma TookFlags(go: Options, wo: Options, try: Options, opt: bytes, k: nat, newMagic: u32)
    requires k < PLACES
    ensures Took(go, wo, try, opt, k, newMagic).neg == try.neg - GivenUpAt(go, opt, k)
  {
    hide ShortIn, LongIn, PeriodIn, Or32, AuthGivenUp, TriesNext, NextPreferred;
  }

  /** The fields after all places: each is changed in its own place only. */
  lemma AllPlaces(go: Options, wo: Options, p: bytes, newMagic: u32)
    ensures var t := TryTo(go, wo, p, newMagic, PLACES);
            var mru, bits, lqr, mrru := Taken(go, p, 0), Taken(go, p, 1), Taken(go, p, 3), Taken(go, p, 8);
            && t.mru == (if mru != [] && (ShortIn(mru) <= wo.mru || ShortIn(mru) <= DEFMRU)
                         then ShortIn(mru) else go.mru)
            && t.asyncmap == (if bits == [] then go.asyncmap else Or32(go.asyncmap, LongIn(bits)))
            && t.chapMd == (if TriesNext(go, Taken(go, p, 2)) then NextPreferred(go.chapMd) else go.chapMd)
            && t.lqrPeriod == (if lqr != [] && ShortIn(lqr) == PPP_LQR then PeriodIn(lqr) else go.lqrPeriod)
            && t.magic == (if Taken(go, p, 5) != [] then newMagic else go.magic) && t.numloops == go.numloops
            && t.mrru == (if mrru != [] && ShortIn(mrru) <= wo.mrru then ShortIn(mrru) else go.mrru)
            && t.endpoint == go.endpoint
  {
    hide TryTo, Rest, Taken, AuthGivenUp, TriesNext, ShortIn, LongIn, PeriodIn, Or32, NextPreferred, Took;
    FirstPlaces(go, wo, p, newMagic);
    OnlyIn(go, wo, p, newMagic, 3);
    OnlyIn(go, wo, p, newMagic, 4);
    OnlyIn(go, wo, p, newMagic, 5);
    OnlyIn(go, wo, p, newMagic, 6);
    OnlyIn(go, wo, p, newMagic, 7);
    OnlyIn(go, wo, p, newMagic, 8);
    OnlyIn(go, wo, p, newMagic, 9);
    OnlyIn(go, wo, p, newMagic, 10);
  }

  /** What a later place changes. */
  lemma OnlyIn(go: Options, wo: Options, p: bytes, newMagic: u32, k: nat)
    requires 3 <= k < PLACES
    ensures var t, n, opt := TryTo(go, wo, p, newMagic, k), TryTo(go, wo, p, newMagic, k + 1), Taken(go, p, k);
            && n.lqrPeriod == (if k == 3 && opt != [] && ShortIn(opt) == PPP_LQR then PeriodIn(opt) else t.lqrPeriod)
            && n.magic == (if k == 5 && opt != [] then newMagic else t.magic)
            && n.mrru == (if k == 8 && opt != [] && ShortIn(opt) <= wo.mrru then ShortIn(opt) else t.mrru)
            && n == t.(neg := n.neg, lqrPeriod := n.lqrPeriod, magic := n.magic, mrru := n.mrru)
  {
    hide TryTo, Rest, Taken, ShortIn, PeriodIn;
    PlaceStep(go, wo, p, newMagic, k);
  }

  lemma FirstPlaces(go: Options, wo: Options, p: bytes, newMagic: u32)
    ensures var t := TryTo(go, wo, p, newMagic, 3);
            var mru, bits, auth := Taken(go, p, 0), Taken(go, p, 1), Taken(go, p, 2);
            t == go.(
            neg := go.neg - AuthGivenUp(go, auth),
            mru := if mru != [] && (ShortIn(mru) <= wo.mru || ShortIn(mru) <= DEFMRU) then ShortIn(mru) else go.mru,
            asyncmap := if bits == [] then go.asyncmap else Or32(go.asyncmap, LongIn(bits)),
            chapMd := if TriesNext(go, auth) then NextPreferred(go.chapMd) else go.chapMd)
  {
    hide TryTo, Rest, Taken, ShortIn, LongIn, Or32, NextPreferred;
    StartPlace(go, wo, p, newMagic);
    PlaceStep(go, wo, p, newMagic, 0);
    PlaceStep(go, wo, p, newMagic, 1);
    PlaceStep(go, wo, p, newMagic, 2);
    assert go.neg - {} == go.neg;
  }

  lemma StartPlace(go: Options, wo: Options, p: bytes, newMagic: u32)
    ensures TryTo(go, wo, p, newMagic, 0) == go && Rest(go, p, 0) == p
  {
  }

  /** A walk that has got past the authentication protocol. */
  lemma WalkMeans(go: Options, wo: Options, p: bytes, newMagic: u32)
    ensures var w := NakWalk(go, wo, p, newMagic);
            && (w.bad <==> !GoodNak(go, p))
            && (!w.bad ==>
                  && (w.looped <==> Taken(go, p, 5) != [])
                  && AskedNext(go, wo, p, newMagic,
                               w.try.(numloops := if w.looped then go.numloops + 1 else 0))
                  && w.try.numloops == go.numloops)
  {
    hide NakMru, NakAsyncmap, NakAuth, NakRest, NakExtras, Taken, TryTo, AuthSpoils, SomeUnwanted, Ragged;
    hide GivenUp, ExtraFlags, ExtraMru, ShortIn, LongIn, PeriodIn, Or32, TriesNext, NextPreferred;
    var w := Walk(p, go, {}, false, false, go.chapMd);
    StartPlace(go, wo, p, newMagic);
    MruPlace(go, wo, p, newMagic, w);
    SeenStart(go, wo, w);
    var w1 := NakMru(go, wo, w);
    AsyncmapPlace(go, wo, p, newMagic, w1);
    SeenStart(go, wo, w1);
    var w2 := NakAsyncmap(go, w1);
    SameDigests(go, wo, p, newMagic);
    AuthPlace(go, wo, p, newMagic, w2);
    SeenAuth(go, w2);
    var w3 := NakAuth(go, w2);
    GoodNakIs(go, p);
    if !w3.bad {
      RestPlaces(go, wo, p, newMagic, w3);
      SeenRest(go, wo, w3, newMagic);
      var w4 := NakRest(go, wo, w3, newMagic);
      ExtrasMean(go, w4);
      AllPlaces(go, wo, p, newMagic);
      FlagsTo(go, wo, p, newMagic, PLACES);
      if !NakExtras(go, w4).bad && Taken(go, p, 0) != [] {
        NoExtraMru(go, p, TryTo(go, wo, p, newMagic, PLACES).mru);
      }
    }
  }

  lemma SameDigests(go: Options, wo: Options, p: bytes, newMagic: u32)
    ensures TryTo(go, wo, p, newMagic, 2).chapMd == go.chapMd
  {
    hide TryTo, Rest, Taken, ShortIn, LongIn, Or32;
    StartPlace(go, wo, p, newMagic);
    PlaceStep(go, wo, p, newMagic, 0);
    PlaceStep(go, wo, p, newMagic, 1);
  }

  lemma GoodNakIs(go: Options, p: bytes)
    ensures var q := Rest(go, p, PLACES);
            GoodNak(go, p) <==> !AuthSpoils(go, Taken(go, p, 2)) && !Ragged(q) && !SomeUnwanted(go, Extras(q))
  {
    hide AuthSpoils, Taken, Rest, Ragged, Unwanted;
  }

  /** Where an MRU was taken in its place there is no other. */
  lemma NoExtraMru(go: Options, p: bytes, mru: u16)
    requires Taken(go, p, 0) != [] && !SomeUnwanted(go, Extras(Rest(go, p, PLACES)))
    ensures ExtraMru(Extras(Rest(go, p, PLACES)), mru) == mru
  {
    hide Rest, Extras;
    NoneBelow(go, Extras(Rest(go, p, PLACES)), mru);
  }

  lemma AskedUnwanted(go: Options, x: bytes)
    requires Asks(go, 0)
    ensures |x| == 4 && x[0] == CI_MRU ==> Unwanted(go, x)
  {
    if |x| == 4 && x[0] == CI_MRU {
      assert x[0] == TypeAt(0);
    }
  }

  lemma {:induction false} NoneBelow(go: Options, xs: seq<bytes>, mru: u16)
    requires Asks(go, 0) && !SomeUnwanted(go, xs)
    ensures ExtraMru(xs, mru) == mru
  {
    hide GetShort, Unwanted;
    if xs != [] {
      var n := |xs| - 1;
      assert !Unwanted(go, xs[n]);
      AskedUnwanted(go, xs[n]);
      assert forall k | 0 <= k < n :: xs[..n][k] == xs[k];
      NoneBelow(go, xs[..n], mru);
    }
  }

  /** A Nak is good exactly if its authentication option, if any, does not suggest what we asked for and the options
      after ours are ones we did not ask about, of the right lengths. A good Nak outside Opened leads to exactly the
      options described, and to closing exactly if our magic number has come back as often as is allowed. */
  lemma NakMeans(go: Options, wo: Options, isOpen: bool, p: bytes, newMagic: u32, loopLimit: int)
    ensures var r := NakCi(go, wo, isOpen, p, newMagic, loopLimit);
            && r.ret == (if GoodNak(go, p) then 1 else 0)
            && (r.ret == 1 && !isOpen ==>
                  && AskedNext(go, wo, p, newMagic, r.go)
                  && (r.drew <==> Taken(go, p, 5) != [])
                  && (r.close <==> Taken(go, p, 5) != [] && go.numloops + 1 >= loopLimit))
  {
    hide NakWalk, GoodNak, Taken, AskedNext;
    WalkMeans(go, wo, p, newMagic);
  }

  /** The MRU suggested is the MRU asked for next. */
  lemma NakExample(newMagic: u32, loopLimit: int)
    ensures var go := NoOptions.(neg := {Mru}, mru := 1492);
            NakCi(go, go, false, [1, 4, 5, 0], newMagic, loopLimit) == NakResult(1, go.(mru := 1280), false, false)
  {
    var go := NoOptions.(neg := {Mru}, mru := 1492);
    var p: bytes := [1, 4, 5, 0];
    assert p[2..4] == [5, 0] && p[4..] == [];
  }
}
