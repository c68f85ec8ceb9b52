/** A Configure-Reject of our own options: which are accepted, and what is given up. */
module LcpReject {
  import opened Wire
  import opened LcpOptions

  const SLOTS := 13

  /** The option a Reject may name in each slot. An MRU or asyncmap at its
      default value was never sent but may still be rejected. */
  function SlotCi(o: Options, k: nat): bytes
    requires k < SLOTS
  {
    match k
    case 0 => Ci(Mru in o.neg, CI_MRU, PutShort(o.mru))
    case 1 => Ci(Asyncmap in o.neg, CI_ASYNCMAP, PutLong(o.asyncmap))
    case 2 => EapCi(o)
    case 3 => ChapCi(o)
    case 4 => PapCi(o)
    case 5 => LqrCi(o)
    case 6 => CbcpCi(o)
    case 7 => MagicCi(o)
    case 8 => PcompCi(o)
    case 9 => AccompCi(o)
    case 10 => MrruCi(o)
    case 11 => SsnhfCi(o)
    case _ => EndpointCi(o)
  }

  function Slots(o: Options): (r: seq<bytes>)
    ensures |r| == SLOTS
  {
    seq(SLOTS, k requires 0 <= k < SLOTS => SlotCi(o, k))
  }

  /** The flag and the option type of each slot. */
  function FlagOf(k: nat): Flag {
    match k
    case 0 => Mru
    case 1 => Asyncmap
    case 2 => Eap
    case 3 => Chap
    case 4 => Upap
    case 5 => Lqr
    case 6 => Cbcp
    case 7 => Magic
    case 8 => Pcomp
    case 9 => Accomp
    case 10 => Mrru
    case 11 => Ssnhf
    case _ => Endpoint
  }

  function TypeOf(k: nat): byte {
    match k
    case 0 => CI_MRU
    case 1 => CI_ASYNCMAP
    case 2 => CI_AUTHTYPE
    case 3 => CI_AUTHTYPE
    case 4 => CI_AUTHTYPE
    case 5 => CI_QUALITY
    case 6 => CI_CALLBACK
    case 7 => CI_MAGICNUMBER
    case 8 => CI_PCOMPRESSION
    case 9 => CI_ACCOMPRESSION
    case 10 => CI_MRRU
    case 11 => CI_SSNHF
    case _ => CI_EPDISC
  }

  /** What is given up with the option in one slot: CHAP takes every authentication protocol with it. */
  function GivesUp(k: nat): set<Flag>
    requires k < SLOTS
  {
    if k == 3 then {Chap, Eap, Upap} else {FlagOf(k)}
  }

  function Clear(o: Options, k: nat): Options
    requires k < SLOTS
  {
    o.(neg := o.neg - GivesUp(k))
  }

  datatype Rejected = Bad | Good(opts: Options)

  /** Whether the next option of p has the type and length of c. */
  predicate Heads(c: bytes, p: bytes) {
    |c| >= 2 && |p| >= |c| && p[0] == c[0] && p[1] == c[1]
  }

  /** Walk the slots from k on: an option with the right header must also have the right value. */
  function RejFrom(cs: seq<bytes>, k: nat, p: bytes, try: Options): Rejected
    requires k <= |cs| == SLOTS
    decreases |cs| - k
  {
    if k == |cs| then if p == [] then Good(try) else Bad
    else if Heads(cs[k], p) then
      if cs[k] <= p then RejFrom(cs, k + 1, p[|cs[k]|..], Clear(try, k)) else Bad
    else RejFrom(cs, k + 1, p, try)
  }

  function RejCi(o: Options, p: bytes): Rejected {
    RejFrom(Slots(o), 0, p, o)
  }

  // ---- Exactly the in-order sub-lists ----

  /** The chosen options from slot k on, run together. */
  function Chosen(cs: seq<bytes>, k: nat, pick: seq<bool>): bytes
    requires k <= |cs| == |pick|
    decreases |cs| - k
  {
    if k == |cs| then []
    else (if pick[k] then cs[k] else []) + Chosen(cs, k + 1, pick)
  }

  function ClearChosen(o: Options, k: nat, pick: seq<bool>): Options
    requires k <= |pick| == SLOTS
    decreases |pick| - k
  {
    if k == |pick| then o
    else ClearChosen(if pick[k] then Clear(o, k) else o, k + 1, pick)
  }

  /** A choice names only options that are there. */
  predicate Names(cs: seq<bytes>, pick: seq<bool>) {
    |pick| == |cs| && forall k | 0 <= k < |cs| :: pick[k] ==> |cs[k]| >= 2
  }

  /** No two slots share an option type. */
  predicate Distinct(cs: seq<bytes>) {
    && (forall i | 0 <= i < |cs| :: cs[i] == [] || |cs[i]| >= 2)
    && (forall i, j | 0 <= i < j < |cs| :: cs[i] != [] && cs[j] != [] ==> cs[i][0] != cs[j][0])
  }

  /** A slot that is not empty has its own type, and its flag is set. */
  lemma SlotHead(o: Options, k: nat)
    requires k < SLOTS && Slots(o)[k] != []
    ensures |Slots(o)[k]| >= 2 && Slots(o)[k][0] == TypeOf(k) && FlagOf(k) in o.neg
    ensures k == 3 ==> Eap !in o.neg
    ensures k == 4 ==> Eap !in o.neg && Chap !in o.neg
  {
    hide Ci, PutShort, PutLong, LenCi;
  }

  lemma SlotsDistinct(o: Options)
    ensures Distinct(Slots(o))
  {
    hide Slots;
    forall i | 0 <= i < SLOTS
      ensures Slots(o)[i] == [] || |Slots(o)[i]| >= 2
    {
      if Slots(o)[i] != [] {
        SlotHead(o, i);
      }
    }
    forall i, j | 0 <= i < j < SLOTS && Slots(o)[i] != [] && Slots(o)[j] != []
      ensures Slots(o)[i][0] != Slots(o)[j][0]
    {
      SlotHead(o, i);
      SlotHead(o, j);
    }
  }

  lemma {:induction false} ChosenHead(cs: seq<bytes>, k: nat, pick: seq<bool>)
    requires Names(cs, pick) && k <= |cs|
    ensures Chosen(cs, k, pick) != [] ==>
              exists j | k <= j < |cs| :: pick[j] && cs[j] <= Chosen(cs, k, pick)
    decreases |cs| - k
  {
    if k < |cs| {
      ChosenHead(cs, k + 1, pick);
      if pick[k] {
        assert cs[k] <= Chosen(cs, k, pick);
      } else {
        assert Chosen(cs, k, pick) == Chosen(cs, k + 1, pick);
      }
    }
  }

  /** Completeness: every choice of options, run together, is accepted and clears exactly that choice. */
  lemma {:induction false} RejComplete(cs: seq<bytes>, k: nat, pick: seq<bool>, try: Options)
    requires Distinct(cs) && Names(cs, pick) && k <= |cs| == SLOTS
    ensures RejFrom(cs, k, Chosen(cs, k, pick), try) == Good(ClearChosen(try, k, pick))
    decreases |cs| - k
  {
    if k < |cs| {
      var p, rest := Chosen(cs, k, pick), Chosen(cs, k + 1, pick);
      if pick[k] {
        assert p[|cs[k]|..] == rest;
        RejComplete(cs, k + 1, pick, Clear(try, k));
      } else {
        assert p == rest;
        ChosenHead(cs, k + 1, pick);
        RejComplete(cs, k + 1, pick, try);
      }
    }
  }

  /** Soundness: what is accepted is such a choice. */
  lemma {:induction false} RejSound(cs: seq<bytes>, k: nat, p: bytes, try: Options) returns (pick: seq<bool>)
    requires k <= |cs| == SLOTS && RejFrom(cs, k, p, try).Good?
    ensures Names(cs, pick) && Chosen(cs, k, pick) == p
    ensures RejFrom(cs, k, p, try).opts == ClearChosen(try, k, pick)
    ensures forall i | 0 <= i < k :: !pick[i]
    decreases |cs| - k
  {
    if k == |cs| {
      pick := seq(|cs|, i => false);
    } else if Heads(cs[k], p) {
      var rest := RejSound(cs, k + 1, p[|cs[k]|..], Clear(try, k));
      pick := rest[k := true];
      SameTail(cs, k + 1, rest, pick, Clear(try, k));
      assert p == cs[k] + p[|cs[k]|..];
    } else {
      pick := RejSound(cs, k + 1, p, try);
    }
  }

  lemma {:induction false} SameTail(cs: seq<bytes>, k: nat, a: seq<bool>, b: seq<bool>, o: Options)
    requires k <= |cs| == |a| == |b| == SLOTS && a[k..] == b[k..]
    ensures Chosen(cs, k, a) == Chosen(cs, k, b) && ClearChosen(o, k, a) == ClearChosen(o, k, b)
    decreases |cs| - k
  {
    if k < |cs| {
      assert a[k] == a[k..][0] && b[k] == b[k..][0];
      assert a[k + 1..] == a[k..][1..] && b[k + 1..] == b[k..][1..];
      SameTail(cs, k + 1, a, b, if a[k] then Clear(o, k) else o);
    }
  }

  /** A Reject is good exactly when it lists some of our options unchanged and in
      order, and then exactly those are given up. */
  lemma RejIff(o: Options, p: bytes, r: Options)
    ensures RejCi(o, p) == Good(r)
       <==> exists pick: seq<bool> ::
              Names(Slots(o), pick) && Chosen(Slots(o), 0, pick) == p && ClearChosen(o, 0, pick) == r
  {
    hide Slots;
    SlotsDistinct(o);
    if RejCi(o, p) == Good(r) {
      var pick := RejSound(Slots(o), 0, p, o);
    }
    forall pick | Names(Slots(o), pick) && Chosen(Slots(o), 0, pick) == p && ClearChosen(o, 0, pick) == r
      ensures RejCi(o, p) == Good(r)
    {
      RejComplete(Slots(o), 0, pick, o);
    }
  }

  /** The options as sent, one slot each: what AddCi runs together. */
  function SentSlots(o: Options): (r: seq<bytes>)
    ensures |r| == SLOTS
  {
    seq(SLOTS, k requires 0 <= k < SLOTS => if k == 0 then MruCi(o) else if k == 1 then AsyncmapCi(o) else SlotCi(o, k))
  }

  lemma AddCiIsSent(o: Options)
    ensures AddCi(o) == Flatten(SentSlots(o))
  {
    hide MruCi, AsyncmapCi, EapCi, ChapCi, PapCi, LqrCi, CbcpCi, MagicCi, PcompCi, AccompCi, MrruCi, SsnhfCi,
    EndpointCi, Flatten;
    var a := [MruCi(o), AsyncmapCi(o), EapCi(o), ChapCi(o)];
    var b := [PapCi(o), LqrCi(o), CbcpCi(o), MagicCi(o)];
    var c := [PcompCi(o), AccompCi(o), MrruCi(o), SsnhfCi(o)];
    assert SentSlots(o) == a + b + c + [EndpointCi(o)];
    FlattenSnoc(a + b + c, EndpointCi(o));
    FlattenAppend(a + b, c);
    FlattenAppend(a, b);
    Four(a);
    Four(b);
    Four(c);
    Join(AddAuth(o), LqrCi(o), CbcpCi(o), MagicCi(o));
    Join(Flatten(a), b[0], b[1] + b[2], b[3]);
    assert Flatten(a) + Flatten(b) == AddMagic(o);
    assert Flatten(a + b) + Flatten(c) == AddMagic(o) + PcompCi(o) + AccompCi(o) + MrruCi(o) + SsnhfCi(o);
  }

  lemma Join(a: bytes, b: bytes, c: bytes, d: bytes)
    ensures a + (b + c + d) == a + b + c + d
  {
  }

  lemma Four(a: seq<bytes>)
    requires |a| == 4
    ensures Flatten(a) == a[0] + a[1] + a[2] + a[3]
  {
    FlattenSnoc(a[..3], a[3]);
    FlattenSnoc(a[..2], a[2]);
    FlattenSnoc(a[..1], a[1]);
    assert a == a[..3] + [a[3]] && a[..3] == a[..2] + [a[2]] && a[..2] == a[..1] + [a[1]] && a[..1] == [a[0]];
  }

  lemma SentIsSlot(o: Options, k: nat)
    requires k < SLOTS
    ensures SentSlots(o)[k] == Slots(o)[k] || SentSlots(o)[k] == []
  {
    hide Ci, LenCi, PutShort, PutLong;
    assert Slots(o)[k] == SlotCi(o, k);
    if k >= 2 {
      assert SentSlots(o)[k] == SlotCi(o, k);
    }
  }

  /** Any in-order sub-list of the options actually sent is accepted. */
  lemma SentSublistAccepted(o: Options, pick: seq<bool>)
    requires Names(SentSlots(o), pick)
    ensures RejCi(o, Chosen(SentSlots(o), 0, pick)) == Good(ClearChosen(o, 0, pick))
  {
    hide SlotCi, PutShort, PutLong, LenCi;
    SlotsDistinct(o);
    forall k | 0 <= k < SLOTS
      ensures pick[k] ==> SentSlots(o)[k] == Slots(o)[k]
    {
      SentIsSlot(o, k);
    }
    SameChoice(SentSlots(o), Slots(o), 0, pick);
    RejComplete(Slots(o), 0, pick, o);
  }

  lemma {:induction false} SameChoice(a: seq<bytes>, b: seq<bytes>, k: nat, pick: seq<bool>)
    requires k <= |a| == |b| == |pick|
    requires forall i | 0 <= i < |a| :: pick[i] ==> a[i] == b[i]
    ensures Chosen(a, k, pick) == Chosen(b, k, pick)
    decreases |a| - k
  {
    if k < |a| {
      SameChoice(a, b, k + 1, pick);
    }
  }

  // ---- Rejects run out ----

  lemma SmallerSet(a: set<Flag>, b: set<Flag>)
    requires a < b
    ensures |a| < |b|
  {
    assert b == a + (b - a);
  }

  /** From slot k on, matches only remove flags, and a match removes at least one. */
  lemma {:induction false} RejFromLowers(o: Options, k: nat, p: bytes, try: Options)
    requires k <= SLOTS && RejFrom(Slots(o), k, p, try).Good?
    requires forall j | k <= j < SLOTS && Slots(o)[j] != [] :: FlagOf(j) in try.neg
    ensures RejFrom(Slots(o), k, p, try).opts.neg <= try.neg
    ensures p != [] ==> RejFrom(Slots(o), k, p, try).opts.neg < try.neg
    decreases SLOTS - k
  {
    hide Slots;
    if k < SLOTS {
      if Heads(Slots(o)[k], p) {
        SlotHead(o, k);
        forall j | k + 1 <= j < SLOTS && Slots(o)[j] != []
          ensures FlagOf(j) in Clear(try, k).neg
        {
          SlotHead(o, j);
        }
        assert FlagOf(k) in try.neg && FlagOf(k) !in Clear(try, k).neg;
        RejFromLowers(o, k + 1, p[|Slots(o)[k]|..], Clear(try, k));
      } else {
        RejFromLowers(o, k + 1, p, try);
      }
    }
  }

  /** Every good, non-empty Reject leaves strictly fewer options to ask for. */
  lemma RejLowers(o: Options, p: bytes)
    requires RejCi(o, p).Good? && p != []
    ensures |RejCi(o, p).opts.neg| < |o.neg|
  {
    hide Slots;
    forall j | 0 <= j < SLOTS && Slots(o)[j] != []
      ensures FlagOf(j) in o.neg
    {
      SlotHead(o, j);
    }
    RejFromLowers(o, 0, p, o);
    SmallerSet(RejCi(o, p).opts.neg, o.neg);
  }

  /** Rejects in a row, each good, each of something, each taken. */
  predicate GoodRejects(o: Options, ps: seq<bytes>)
    decreases |ps|
  {
    ps == [] || (ps[0] != [] && RejCi(o, ps[0]).Good? && GoodRejects(RejCi(o, ps[0]).opts, ps[1..]))
  }

  /** There can be no more of them than there are options asked for. */
  lemma {:induction false} RejectsRunOut(o: Options, ps: seq<bytes>)
    requires GoodRejects(o, ps)
    ensures |ps| <= |o.neg|
    decreases |ps|
  {
    hide RejCi;
    if ps != [] {
      RejLowers(o, ps[0]);
      RejectsRunOut(RejCi(o, ps[0]).opts, ps[1..]);
    }
  }

  /** A Reject changes nothing but the flags. */
  lemma {:induction false} RejKeepsValues(cs: seq<bytes>, k: nat, p: bytes, try: Options)
    requires k <= |cs| == SLOTS && RejFrom(cs, k, p, try).Good?
    ensures var r := RejFrom(cs, k, p, try).opts; r == try.(neg := r.neg)
    decreases |cs| - k
  {
    if k < |cs| {
      if Heads(cs[k], p) {
        RejKeepsValues(cs, k + 1, p[|cs[k]|..], Clear(try, k));
      } else {
        RejKeepsValues(cs, k + 1, p, try);
      }
    }
  }

  // ---- The pass over the packet ----

  /** Try to match one option at the cursor: a matching header with the wrong value spoils the packet. */
  method RejOption(p: bytes, i: nat, neg: bool, opt: byte, body: bytes) returns (hit: bool, bad: bool, j: nat)
    requires i <= |p| && |body| <= 253
    ensures hit || bad <==> Heads(Ci(neg, opt, body), p[i..])
    ensures hit ==> Ci(neg, opt, body) <= p[i..] && j == i + 2 + |body| <= |p|
    ensures bad ==> !hit && !(Ci(neg, opt, body) <= p[i..])
    ensures !hit ==> j == i
  {
    hit, bad, j := false, false, i;
    var cilen := 2 + |body|;
    if neg && |p| - i >= cilen && p[i + 1] == cilen && p[i] == opt {
      ghost var c := Ci(neg, opt, body);
      var k := 0;
      while k < |body|
        invariant 0 <= k <= |body|
        invariant p[i + 2..i + 2 + k] == body[..k]
      {
        if p[i + 2 + k] != body[k] {
          assert p[i..][2 + k] != c[2 + k];
          return false, true, i;
        }
        k := k + 1;
      }
      assert p[i..i + cilen] == [p[i], p[i + 1]] + p[i + 2..i + cilen];
      assert p[i..][..cilen] == c;
      hit, j := true, i + cilen;
    }
  }

  /** What is left to do once the slots before k have been passed. */
  ghost predicate At(o: Options, p: bytes, k: nat, bad: bool, i: nat, try: Options) {
    && k <= SLOTS
    && i <= |p|
    && RejCi(o, p) == if bad then Bad else RejFrom(Slots(o), k, p[i..], try)
  }

  /** One slot of the pass. */
  method RejSlot(o: Options, p: bytes, ghost k: nat, bad: bool, i: nat, try: Options,
                 neg: bool, opt: byte, body: bytes, clear: set<Flag>)
    returns (bad': bool, j: nat, try': Options)
    requires At(o, p, k, bad, i, try) && k < SLOTS && |body| <= 253
    requires Ci(neg, opt, body) == SlotCi(o, k) && clear == GivesUp(k)
    ensures At(o, p, k + 1, bad', j, try')
  {
    hide Ci, SlotCi;
    bad', j, try' := bad, i, try;
    if !bad {
      var hit;
      hit, bad', j := RejOption(p, i, neg, opt, body);
      if hit {
        try' := try.(neg := try.neg - clear);
        assert p[i..][2 + |body|..] == p[j..];
      }
    }
  }

  method RejAuth(o: Options, p: bytes) returns (bad: bool, i: nat, try: Options)
    ensures At(o, p, 5, bad, i, try)
  {
    hide At, RejFrom, Ci, LenCi, PutShort, PutLong;
    bad, i, try := false, 0, o;
    AtStart(o, p);
    bad, i, try := RejSlot(o, p, 0, bad, i, try, Mru in o.neg, CI_MRU, PutShort(o.mru), {Mru});
    bad, i, try := RejSlot(o, p, 1, bad, i, try, Asyncmap in o.neg, CI_ASYNCMAP, PutLong(o.asyncmap), {Asyncmap});
    bad, i, try := RejSlot(o, p, 2, bad, i, try, Eap in o.neg, CI_AUTHTYPE, PutShort(PPP_EAP), {Eap});
    bad, i, try := RejSlot(o, p, 3, bad, i, try, Eap !in o.neg && Chap in o.neg, CI_AUTHTYPE,
                           PutShort(PPP_CHAP) + [Digest(o.chapMd)], {Chap, Eap, Upap});
    bad, i, try := RejSlot(o, p, 4, bad, i, try, Eap !in o.neg && Chap !in o.neg && Upap in o.neg, CI_AUTHTYPE,
                           PutShort(PPP_PAP), {Upap});
  }

  lemma AtStart(o: Options, p: bytes)
    ensures At(o, p, 0, false, 0, o)
  {
    assert p[0..] == p;
  }

  lemma AtEnd(o: Options, p: bytes, bad: bool, i: nat, try: Options)
    requires At(o, p, SLOTS, bad, i, try)
    ensures RejCi(o, p) == if bad || i != |p| then Bad else Good(try)
  {
  }

  /** Take a Reject: the answer is RejCi's, and an opened machine keeps its options. */
  method RejectOptions(go: Options, isOpen: bool, p: bytes) returns (ret: int, go': Options)
    ensures ret == if RejCi(go, p).Good? then 1 else 0
    ensures go' == if ret == 1 && !isOpen then RejCi(go, p).opts else go
  {
    hide At, RejFrom, Ci, LenCi, PutShort, PutLong;
    var bad, i, try := RejAuth(go, p);
    bad, i, try := RejSlot(go, p, 5, bad, i, try, Lqr in go.neg, CI_QUALITY,
                           PutShort(PPP_LQR) + PutLong(go.lqrPeriod), {Lqr});
    bad, i, try := RejSlot(go, p, 6, bad, i, try, Cbcp in go.neg, CI_CALLBACK, [CBCP_OPT], {Cbcp});
    bad, i, try := RejSlot(go, p, 7, bad, i, try, Magic in go.neg, CI_MAGICNUMBER, PutLong(go.magic), {Magic});
    bad, i, try := RejSlot(go, p, 8, bad, i, try, Pcomp in go.neg, CI_PCOMPRESSION, [], {Pcomp});
    bad, i, try := RejSlot(go, p, 9, bad, i, try, Accomp in go.neg, CI_ACCOMPRESSION, [], {Accomp});
    bad, i, try := RejSlot(go, p, 10, bad, i, try, Mrru in go.neg, CI_MRRU, PutShort(go.mrru), {Mrru});
    bad, i, try := RejSlot(go, p, 11, bad, i, try, Ssnhf in go.neg, CI_SSNHF, [], {Ssnhf});
    bad, i, try := RejSlot(go, p, 12, bad, i, try, Endpoint in go.neg, CI_EPDISC,
                           [go.endpoint.cls] + go.endpoint.value, {Endpoint});
    AtEnd(go, p, bad, i, try);
    if bad || i != |p| {
      return 0, go;
    }
    ret, go' := 1, if isOpen then go else try;
  }
}
