/** A Configure-Nak of our own options: what is asked for next time. */
module LcpNak {
  import opened Wire
  import opened Bits
  import opened LcpOptions
  import opened LcpRequest

  /** Where the walk over a Nak stands: the octets left, the options to try next,
      the options seen, whether the packet is spoilt, whether our magic number came
      back, and the algorithm set written straight into the live record. */
  datatype Walk = Walk(p: bytes, try: Options, no: set<Flag>, bad: bool, looped: bool, md: byte)

  predicate Heads(p: bytes, opt: byte, len: nat)
    requires len >= 2
  {
    |p| >= len && p[1] as int == len && p[0] == opt
  }

  function Drop(o: Options, f: Flag): Options {
    o.(neg := o.neg - {f})
  }

  function Spoilt(w: Walk): Walk {
    w.(bad := true)
  }

  function NakMru(go: Options, wo: Options, w: Walk): Walk {
    if Mru in go.neg && go.mru != DEFMRU && Heads(w.p, CI_MRU, CILEN_SHORT) then
      var v: u16 := GetShort(w.p[2..4]);
      w.(p := w.p[CILEN_SHORT..], no := w.no + {Mru},
      try := if v <= wo.mru || v <= DEFMRU then w.try.(mru := v) else w.try)
    else w
  }

  function NakAsyncmap(go: Options, w: Walk): Walk {
    if Asyncmap in go.neg && go.asyncmap != ALL_ONES && Heads(w.p, CI_ASYNCMAP, CILEN_LONG) then
      w.(p := w.p[CILEN_LONG..], no := w.no + {Asyncmap},
      try := w.try.(asyncmap := Or32(go.asyncmap, GetLong(w.p[2..6]))))
    else w
  }

  /** A set of algorithms without its most preferred one. */
  function NextPreferred(md: byte): (r: byte)
    ensures r <= md
  {
    if md == 0 then 0 else if md % 2 == 1 then md - 1 else 2 * NextPreferred(md / 2)
  }

  /** The test meant to ask whether a digest differs from the preferred one. The
      conditional in the macro it uses binds looser than the comparison, so it
      compares with the lowest bit of the set instead. */
  predicate TakenAsDifferent(digest: byte, md: byte) {
    digest as int != md % 2 || md / 2 % 2 == 1 || md / 4 % 2 == 1
  }

  /** A suggestion of CHAP with some digest. */
  function NakToChap(go: Options, w: Walk, digest: byte): Walk {
    if Eap in go.neg then
      w.(try := Drop(w.try, Eap), md := if CanDigest(go.chapMd, digest) then MdOf(digest) else w.md)
    else if Chap in go.neg then
      if !TakenAsDifferent(digest, go.chapMd) then Spoilt(w)
      else if CanDigest(go.chapMd, digest) then w.(md := MdOf(digest))
      else
        var next := NextPreferred(w.try.chapMd);
        w.(try := if next == 0 then Drop(w.try.(chapMd := next), Chap) else w.try.(chapMd := next))
    else w.(try := Drop(w.try, Upap))
  }

  /** The protocol currently asked for is given up. */
  function DropAsked(go: Options, try: Options): Options {
    Drop(try, if Eap in go.neg then Eap else if Chap in go.neg then Chap else Upap)
  }

  function NakAuth(go: Options, w: Walk): Walk {
    if (Chap in go.neg || Upap in go.neg || Eap in go.neg) && |w.p| >= CILEN_SHORT && w.p[0] == CI_AUTHTYPE
       && CILEN_SHORT <= w.p[1] as int <= |w.p|
    then
      var cilen := w.p[1] as int;
      var proto := GetShort(w.p[2..4]);
      var n := w.(p := w.p[cilen..], no := w.no + ({Chap, Upap, Eap} * go.neg));
      if proto == PPP_PAP && cilen == CILEN_SHORT then
        if Eap in go.neg || Chap in go.neg then n.(try := DropAsked(go, n.try)) else Spoilt(n)
      else if proto == PPP_CHAP && cilen == CILEN_CHAP then NakToChap(go, n, w.p[4])
      else n.(try := DropAsked(go, n.try))
    else w
  }

  function NakLqr(go: Options, w: Walk): Walk {
    if Lqr in go.neg && Heads(w.p, CI_QUALITY, CILEN_LQR) then
      w.(p := w.p[CILEN_LQR..], no := w.no + {Lqr},
      try := if GetShort(w.p[2..4]) != PPP_LQR then Drop(w.try, Lqr)
             else w.try.(lqrPeriod := GetLong(w.p[4..8])))
    else w
  }

  /** An option whose Nak is taken as a Reject. */
  function NakDrops(go: Options, w: Walk, f: Flag, opt: byte, len: nat): Walk
    requires len >= 2
  {
    if f in go.neg && Heads(w.p, opt, len) then
      w.(p := w.p[len..], no := w.no + {f}, try := Drop(w.try, f))
    else w
  }

  /** Our own magic number coming back means a looped line; a new one is drawn. */
  function NakMagic(go: Options, w: Walk, newMagic: u32): Walk {
    if Magic in go.neg && Heads(w.p, CI_MAGICNUMBER, CILEN_LONG) then
      w.(p := w.p[CILEN_LONG..], no := w.no + {Magic}, try := w.try.(magic := newMagic), looped := true)
    else w
  }

  function NakMrru(go: Options, wo: Options, w: Walk): Walk {
    if Mrru in go.neg && Heads(w.p, CI_MRRU, CILEN_SHORT) then
      var v: u16 := GetShort(w.p[2..4]);
      w.(p := w.p[CILEN_SHORT..], no := w.no + {Mrru}, try := if v <= wo.mrru then w.try.(mrru := v) else w.try)
    else w
  }

  function NakEndpoint(go: Options, w: Walk): Walk {
    if Endpoint in go.neg && |w.p| >= CILEN_CHAR && w.p[0] == CI_EPDISC && CILEN_CHAR <= w.p[1] as int <= |w.p| then
      w.(p := w.p[w.p[1]..], no := w.no + {Endpoint}, try := Drop(w.try, Endpoint))
    else w
  }

  /** Whether an option left over may be there: not one we asked for, not one
      already seen, and of the right length. */
  predicate ExtraAllowed(go: Options, no: set<Flag>, opt: byte, len: nat) {
    if opt == CI_MRU then !(Mru in go.neg && go.mru != DEFMRU) && Mru !in no && len == CILEN_SHORT
    else if opt == CI_ASYNCMAP then
      !(Asyncmap in go.neg && go.asyncmap != ALL_ONES) && Asyncmap !in no && len == CILEN_LONG
    else if opt == CI_AUTHTYPE then (go.neg + no) * {Chap, Upap, Eap} == {}
    else if opt == CI_MAGICNUMBER then Magic !in go.neg + no && len == CILEN_LONG
    else if opt == CI_PCOMPRESSION then Pcomp !in go.neg + no && len == CILEN_VOID
    else if opt == CI_ACCOMPRESSION then Accomp !in go.neg + no && len == CILEN_VOID
    else if opt == CI_QUALITY then Lqr !in go.neg + no && len == CILEN_LQR
    else if opt == CI_MRRU then Mrru !in go.neg + no && len == CILEN_SHORT
    else if opt == CI_SSNHF then Ssnhf !in go.neg + no && len == CILEN_VOID
    else if opt == CI_EPDISC then Endpoint !in go.neg + no && len >= CILEN_CHAR
    else true
  }

  /** What an extra option adds to the next request. */
  function ExtraAdds(try: Options, p: bytes): Options
    requires |p| >= 2 && (p[0] == CI_MRU ==> |p| >= CILEN_SHORT)
  {
    if p[0] == CI_MRU && GetShort(p[2..4]) < DEFMRU then
      try.(neg := try.neg + {Mru}, mru := GetShort(p[2..4]))
    else if p[0] == CI_SSNHF then try.(neg := try.neg + {Ssnhf})
    else try
  }

  /** The options left over, which the peer would like us to negotiate. */
  function NakExtras(go: Options, w: Walk): Walk
    decreases |w.p|
  {
    if w.bad || |w.p| <= CILEN_VOID then w
    else
      var len := w.p[1] as int;
      if len < CILEN_VOID || len > |w.p| || !ExtraAllowed(go, w.no, w.p[0], len) then Spoilt(w)
      else NakExtras(go, w.(p := w.p[len..], try := ExtraAdds(w.try, w.p)))
  }

  /** The walk over the options we asked for, in order, then the extras. */
  function NakWalk(go: Options, wo: Options, p: bytes, newMagic: u32): Walk {
    var w1 := NakAuth(go, NakAsyncmap(go, NakMru(go, wo, Walk(p, go, {}, false, false, go.chapMd))));
    if w1.bad then w1 else NakExtras(go, NakRest(go, wo, w1, newMagic))
  }

  function NakRest(go: Options, wo: Options, w: Walk, newMagic: u32): Walk {
    var w2 := NakMagic(go, NakDrops(go, NakLqr(go, w), Cbcp, CI_CALLBACK, CILEN_CHAR), newMagic);
    var w3 := NakDrops(go, NakDrops(go, w2, Pcomp, CI_PCOMPRESSION, CILEN_VOID), Accomp, CI_ACCOMPRESSION, CILEN_VOID);
    NakEndpoint(go, NakDrops(go, NakMrru(go, wo, w3), Ssnhf, CI_SSNHF, CILEN_VOID))
  }

  datatype NakResult = NakResult(ret: int, go: Options, close: bool, drew: bool)

  /** The whole: a good Nak outside Opened replaces the options. */
  function NakCi(go: Options, wo: Options, isOpen: bool, p: bytes, newMagic: u32, loopLimit: int): NakResult {
    var w := NakWalk(go, wo, p, newMagic);
    if w.bad then NakResult(0, go.(chapMd := w.md), false, w.looped)
    else if isOpen then NakResult(1, go.(chapMd := w.md), false, w.looped)
    else if w.looped then
      NakResult(1, w.try.(numloops := w.try.numloops + 1), w.try.numloops + 1 >= loopLimit, true)
    else NakResult(1, w.try.(numloops := 0), false, false)
  }

  // ---- What a Nak may and may not do ----

  /** The requests that Naks can lead to from some wanted options. */
  predicate WithinWishes(wo: Options, o: Options) {
    && (o.mru <= wo.mru || o.mru <= DEFMRU)
    && o.mrru <= wo.mrru
    && BitsIn(wo.asyncmap, o.asyncmap)
  }

  /** What one Nak or Reject may change: bits are only added to the asyncmap and
      the limits on the other two hold if they held. */
  predicate Yields(wo: Options, o: Options, o': Options) {
    && BitsIn(o.asyncmap, o'.asyncmap)
    && (o'.mru == o.mru || o'.mru <= wo.mru || o'.mru <= DEFMRU)
    && (o'.mrru == o.mrru || o'.mrru <= wo.mrru)
  }

  lemma YieldsAuth(go: Options, wo: Options, w: Walk)
    requires Yields(wo, go, w.try)
    ensures Yields(wo, go, NakAuth(go, w).try)
  {
    hide BitsIn, GetShort, TakenAsDifferent, CanDigest, MdOf;
  }

  lemma YieldsStart(go: Options, wo: Options, p: bytes)
    ensures Yields(wo, go, NakAsyncmap(go, NakMru(go, wo, Walk(p, go, {}, false, false, go.chapMd))).try)
  {
    InItself(go.asyncmap);
    var w := NakMru(go, wo, Walk(p, go, {}, false, false, go.chapMd));
    if Heads(w.p, CI_ASYNCMAP, CILEN_LONG) {
      OrGains(go.asyncmap, GetLong(w.p[2..6]));
    }
  }

  lemma YieldsOne(go: Options, wo: Options, w: Walk, newMagic: u32, f: Flag, opt: byte, len: nat)
    requires Yields(wo, go, w.try) && len >= 2
    ensures Yields(wo, go, NakLqr(go, w).try) && Yields(wo, go, NakDrops(go, w, f, opt, len).try)
    ensures Yields(wo, go, NakMagic(go, w, newMagic).try) && Yields(wo, go, NakMrru(go, wo, w).try)
    ensures Yields(wo, go, NakEndpoint(go, w).try)
  {
    hide BitsIn, GetShort, GetLong;
  }

  lemma YieldsRest(go: Options, wo: Options, w: Walk, newMagic: u32)
    requires Yields(wo, go, w.try)
    ensures Yields(wo, go, NakRest(go, wo, w, newMagic).try)
  {
    hide Yields, NakLqr, NakDrops, NakMagic, NakMrru, NakEndpoint;
    YieldsOne(go, wo, w, newMagic, Cbcp, CI_CALLBACK, CILEN_CHAR);
    var a := NakLqr(go, w);
    YieldsOne(go, wo, a, newMagic, Cbcp, CI_CALLBACK, CILEN_CHAR);
    var b := NakDrops(go, a, Cbcp, CI_CALLBACK, CILEN_CHAR);
    YieldsOne(go, wo, b, newMagic, Cbcp, CI_CALLBACK, CILEN_CHAR);
    var c := NakMagic(go, b, newMagic);
    YieldsOne(go, wo, c, newMagic, Pcomp, CI_PCOMPRESSION, CILEN_VOID);
    var d := NakDrops(go, c, Pcomp, CI_PCOMPRESSION, CILEN_VOID);
    YieldsOne(go, wo, d, newMagic, Accomp, CI_ACCOMPRESSION, CILEN_VOID);
    var e := NakDrops(go, d, Accomp, CI_ACCOMPRESSION, CILEN_VOID);
    YieldsOne(go, wo, e, newMagic, Ssnhf, CI_SSNHF, CILEN_VOID);
    var f := NakMrru(go, wo, e);
    YieldsOne(go, wo, f, newMagic, Ssnhf, CI_SSNHF, CILEN_VOID);
    YieldsOne(go, wo, NakDrops(go, f, Ssnhf, CI_SSNHF, CILEN_VOID), newMagic, Ssnhf, CI_SSNHF, CILEN_VOID);
  }

  lemma {:induction false} YieldsExtras(go: Options, wo: Options, w: Walk)
    requires Yields(wo, go, w.try)
    ensures Yields(wo, go, NakExtras(go, w).try)
    decreases |w.p|
  {
    hide BitsIn, GetShort;
    if !w.bad && |w.p| > CILEN_VOID {
      var len := w.p[1] as int;
      if CILEN_VOID <= len <= |w.p| && ExtraAllowed(go, w.no, w.p[0], len) {
        YieldsExtras(go, wo, w.(p := w.p[len..], try := ExtraAdds(w.try, w.p)));
      }
    }
  }

  /** One Nak, good or bad, in any state. */
  lemma NakYields(go: Options, wo: Options, isOpen: bool, p: bytes, newMagic: u32, loopLimit: int)
    ensures Yields(wo, go, NakCi(go, wo, isOpen, p, newMagic, loopLimit).go)
  {
    hide BitsIn, NakMru, NakAsyncmap, NakAuth, NakRest, NakExtras;
    InItself(go.asyncmap);
    YieldsStart(go, wo, p);
    var w0 := NakAsyncmap(go, NakMru(go, wo, Walk(p, go, {}, false, false, go.chapMd)));
    YieldsAuth(go, wo, w0);
    var w1 := NakAuth(go, w0);
    YieldsRest(go, wo, w1, newMagic);
    YieldsExtras(go, wo, NakRest(go, wo, w1, newMagic));
  }

  /** Limits once met stay met. */
  lemma YieldsKeeps(wo: Options, o: Options, o': Options)
    requires WithinWishes(wo, o) && Yields(wo, o, o')
    ensures WithinWishes(wo, o')
  {
    InTransitive(wo.asyncmap, o.asyncmap, o'.asyncmap);
  }

  /** What is left of a Nak once its MRU and asyncmap have been taken. */
  function AfterMaps(go: Options, wo: Options, p: bytes): bytes {
    NakAsyncmap(go, NakMru(go, wo, Walk(p, go, {}, false, false, go.chapMd))).p
  }

  /** A suggestion of CHAP with a digest we can do, other than the only one we
      can, where it is looked at: this is written straight into the live record. */
  predicate Writes(go: Options, q: bytes) {
    && (Chap in go.neg || Eap in go.neg)
    && Heads(q, CI_AUTHTYPE, CILEN_CHAP) && GetShort(q[2..4]) == PPP_CHAP as int
    && CanDigest(go.chapMd, q[4]) && MdOf(q[4]) != go.chapMd
    && (Eap in go.neg || TakenAsDifferent(q[4], go.chapMd))
  }

  lemma {:induction false} ExtrasKeepMd(go: Options, w: Walk)
    ensures NakExtras(go, w).md == w.md && NakExtras(go, w).looped == w.looped
    ensures NakExtras(go, w).try.chapMd == w.try.chapMd
    decreases |w.p|
  {
    if !w.bad && |w.p| > CILEN_VOID {
      var len := w.p[1] as int;
      if CILEN_VOID <= len <= |w.p| && ExtraAllowed(go, w.no, w.p[0], len) {
        ExtrasKeepMd(go, w.(p := w.p[len..], try := ExtraAdds(w.try, w.p)));
      }
    }
  }

  predicate SameMd(w: Walk, w': Walk) {
    w'.md == w.md && w'.try.chapMd == w.try.chapMd && w'.bad == w.bad
  }

  lemma OneKeepsMd(go: Options, wo: Options, w: Walk, newMagic: u32, f: Flag, opt: byte, len: nat)
    requires len >= 2
    ensures SameMd(w, NakLqr(go, w)) && SameMd(w, NakDrops(go, w, f, opt, len)) && SameMd(w, NakMagic(go, w, newMagic))
    ensures SameMd(w, NakMrru(go, wo, w)) && SameMd(w, NakEndpoint(go, w))
  {
    hide GetShort, GetLong, Heads;
  }

  lemma RestKeepsMd(go: Options, wo: Options, w: Walk, newMagic: u32)
    ensures SameMd(w, NakRest(go, wo, w, newMagic))
  {
    hide NakLqr, NakDrops, NakMagic, NakMrru, NakEndpoint;
    OneKeepsMd(go, wo, w, newMagic, Cbcp, CI_CALLBACK, CILEN_CHAR);
    var a := NakLqr(go, w);
    OneKeepsMd(go, wo, a, newMagic, Cbcp, CI_CALLBACK, CILEN_CHAR);
    var b := NakDrops(go, a, Cbcp, CI_CALLBACK, CILEN_CHAR);
    OneKeepsMd(go, wo, b, newMagic, Cbcp, CI_CALLBACK, CILEN_CHAR);
    var c := NakMagic(go, b, newMagic);
    OneKeepsMd(go, wo, c, newMagic, Pcomp, CI_PCOMPRESSION, CILEN_VOID);
    var d := NakDrops(go, c, Pcomp, CI_PCOMPRESSION, CILEN_VOID);
    OneKeepsMd(go, wo, d, newMagic, Accomp, CI_ACCOMPRESSION, CILEN_VOID);
    var e := NakDrops(go, d, Accomp, CI_ACCOMPRESSION, CILEN_VOID);
    OneKeepsMd(go, wo, e, newMagic, Ssnhf, CI_SSNHF, CILEN_VOID);
    var f := NakMrru(go, wo, e);
    OneKeepsMd(go, wo, f, newMagic, Ssnhf, CI_SSNHF, CILEN_VOID);
    OneKeepsMd(go, wo, NakDrops(go, f, Ssnhf, CI_SSNHF, CILEN_VOID), newMagic, Ssnhf, CI_SSNHF, CILEN_VOID);
  }

  lemma MapsKeepMd(go: Options, wo: Options, p: bytes)
    ensures var w := NakAsyncmap(go, NakMru(go, wo, Walk(p, go, {}, false, false, go.chapMd)));
            w.md == go.chapMd && w.try.chapMd == go.chapMd && !w.bad
  {
  }

  lemma AuthMd(go: Options, w: Walk)
    requires w.md == go.chapMd && w.try.chapMd == go.chapMd
    ensures NakAuth(go, w).md != go.chapMd <==> Writes(go, w.p)
    ensures NakAuth(go, w).try.chapMd == go.chapMd || NakAuth(go, w).try.chapMd == NextPreferred(go.chapMd)
  {
    hide GetShort;
  }

  lemma WalkMd(go: Options, wo: Options, p: bytes, newMagic: u32)
    ensures var w := NakWalk(go, wo, p, newMagic);
            && (w.md != go.chapMd <==> Writes(go, AfterMaps(go, wo, p)))
            && (w.try.chapMd == go.chapMd || w.try.chapMd == NextPreferred(go.chapMd))
  {
    hide NakMru, NakAsyncmap, NakAuth, NakRest, NakExtras, Writes;
    MapsKeepMd(go, wo, p);
    var w0 := NakAsyncmap(go, NakMru(go, wo, Walk(p, go, {}, false, false, go.chapMd)));
    AuthMd(go, w0);
    var w1 := NakAuth(go, w0);
    RestKeepsMd(go, wo, w1, newMagic);
    ExtrasKeepMd(go, NakRest(go, wo, w1, newMagic));
  }

  /** A bad Nak, or any Nak while opened, leaves all options as they were, if and
      only if it does not suggest another CHAP digest that we can do. Even then
      nothing but the set of algorithms changes. */
  lemma BadNakFrame(go: Options, wo: Options, isOpen: bool, p: bytes, newMagic: u32, loopLimit: int)
    requires isOpen || NakCi(go, wo, isOpen, p, newMagic, loopLimit).ret == 0
    ensures var r := NakCi(go, wo, isOpen, p, newMagic, loopLimit);
            && r.go == go.(chapMd := r.go.chapMd) && !r.close
            && (r.go == go <==> !Writes(go, AfterMaps(go, wo, p)))
  {
    hide NakWalk, Writes, AfterMaps;
    WalkMd(go, wo, p, newMagic);
  }

  /** A bad Nak after which a machine that could do MD5 and the newer Microsoft
      digest is left with MD5 alone. */
  lemma BadNakWrites(wo: Options, newMagic: u32, loopLimit: int)
    ensures var go := NoOptions.(neg := {Chap}, chapMd := 5);
            var r := NakCi(go, wo, false, [3, 5, 0xc2, 0x23, 5, 3, 9, 0], newMagic, loopLimit);
            r.ret == 0 && r.go == go.(chapMd := 4)
  {
    var go := NoOptions.(neg := {Chap}, chapMd := 5);
    var p: bytes := [3, 5, 0xc2, 0x23, 5, 3, 9, 0];
    assert p[2..4] == [0xc2, 0x23] && p[5..] == [3, 9, 0];
    var w := Walk(p, go, {}, false, false, 5);
    assert NakAsyncmap(go, NakMru(go, wo, w)) == w;
    var w1 := NakAuth(go, w);
    assert w1 == Walk([3, 9, 0], go, {Chap}, false, false, 4);
    assert NakRest(go, wo, w1, newMagic) == w1;
    assert NakExtras(go, w1).bad;
  }

  /** The other half: a good Nak outside Opened never leads to the suggested set. The
      set asked from next time is the old one, or the old one without its first choice. */
  lemma GoodNakForgets(go: Options, wo: Options, p: bytes, newMagic: u32, loopLimit: int)
    requires NakCi(go, wo, false, p, newMagic, loopLimit).ret == 1
    ensures var r := NakCi(go, wo, false, p, newMagic, loopLimit);
            r.go.chapMd == go.chapMd || r.go.chapMd == NextPreferred(go.chapMd)
  {
    hide NakWalk;
    WalkMd(go, wo, p, newMagic);
  }

  /** The broken comparison asks what it is meant to ask, if and only if the digest
      is not the one we asked for (or we can do none) and it is not the digest 1
      while the newer Microsoft one is all we can do. */
  lemma ComparisonIff(d: byte, md: byte)
    ensures (TakenAsDifferent(d, md) <==> d != Digest(md)) <==>
              (d != Digest(md) || Digest(md) == 0) && !(md % 8 == 1 && d == 1)
  {
  }

  /** A Nak that is one CHAP option with some digest, while CHAP is asked for. */
  function ChapNak(d: byte): bytes {
    [CI_AUTHTYPE, CILEN_CHAP] + PutShort(PPP_CHAP) + [d]
  }

  lemma ChapNakWalk(go: Options, wo: Options, d: byte, newMagic: u32)
    requires Chap in go.neg && Eap !in go.neg
    ensures var w := NakToChap(go, Walk([], go, {Chap, Upap} * go.neg, false, false, go.chapMd), d);
            NakWalk(go, wo, ChapNak(d), newMagic) == w
  {
    hide GetLong, NakToChap;
    var p := ChapNak(d);
    assert p == [CI_AUTHTYPE, CILEN_CHAP, 0xc2, 0x23, d];
    assert p[2..4] == PutShort(PPP_CHAP) && p[5..] == [];
    ShortRoundTrip(PPP_CHAP, p[2..4]);
    var w0 := Walk(p, go, {}, false, false, go.chapMd);
    assert NakAsyncmap(go, NakMru(go, wo, w0)) == w0;
    assert {} + ({Chap, Upap, Eap} * go.neg) == {Chap, Upap} * go.neg;
    var n := Walk([], go, {Chap, Upap} * go.neg, false, false, go.chapMd);
    assert NakAuth(go, w0) == NakToChap(go, n, d);
    ToChapEnds(go, n, d);
    assert NakRest(go, wo, NakToChap(go, n, d), newMagic) == NakToChap(go, n, d);
  }

  lemma ToChapEnds(go: Options, n: Walk, d: byte)
    ensures NakToChap(go, n, d).p == n.p
  {
  }

  /** A lone CHAP option is called bad exactly if its digest is taken for ours. */
  lemma ChapNakBadIff(go: Options, wo: Options, d: byte, newMagic: u32, loopLimit: int)
    requires Chap in go.neg && Eap !in go.neg
    ensures NakCi(go, wo, false, ChapNak(d), newMagic, loopLimit).ret == 0 <==> !TakenAsDifferent(d, go.chapMd)
  {
    hide NakWalk, ChapNak, TakenAsDifferent;
    ChapNakWalk(go, wo, d, newMagic);
  }

  /** So a Nak that suggests the very digest we asked for is taken as good and answered
      with the same request, octet for octet. */
  lemma EchoedDigestPasses(go: Options, wo: Options, newMagic: u32, loopLimit: int)
    requires Chap in go.neg && Eap !in go.neg && Digest(go.chapMd) != 0
    ensures var r := NakCi(go, wo, false, ChapNak(Digest(go.chapMd)), newMagic, loopLimit);
            r.ret == 1 && AddCi(r.go) == AddCi(go)
  {
    hide NakWalk, ChapNak, TakenAsDifferent, CanDigest, AddCi, Digest;
    EchoTaken(go.chapMd);
    ChapNakWalk(go, wo, Digest(go.chapMd), newMagic);
    SameRequest(go, go.(numloops := 0));
  }

  lemma EchoTaken(md: byte)
    requires Digest(md) != 0
    ensures TakenAsDifferent(Digest(md), md) && CanDigest(md, Digest(md))
  {
  }

  lemma SameRequest(o: Options, o': Options)
    requires o' == o.(numloops := o'.numloops)
    ensures AddCi(o') == AddCi(o)
  {
    hide Ci, PutShort, PutLong, Digest;
    assert AddAuth(o') == AddAuth(o);
    hide AddAuth;
    assert AddMagic(o') == AddMagic(o);
    hide AddMagic;
  }

  /** And a Nak that suggests another digest, the number 1, is called bad when the
      newer Microsoft digest is all we can do. */
  lemma OtherDigestBad(go: Options, wo: Options, newMagic: u32, loopLimit: int)
    requires Chap in go.neg && Eap !in go.neg && go.chapMd % 8 == 1
    ensures Digest(go.chapMd) == CHAP_MICROSOFT_V2
    ensures NakCi(go, wo, false, ChapNak(1), newMagic, loopLimit).ret == 0
  {
    hide NakCi;
    ChapNakBadIff(go, wo, 1, newMagic, loopLimit);
  }

  // ---- The pass over the packet ----

  /** The header test at a cursor. */
  method HeadsAt(p: bytes, i: nat, opt: byte, len: nat) returns (b: bool)
    requires i <= |p| && len >= 2
    ensures b == Heads(p[i..], opt, len)
  {
    b := |p| - i >= len && p[i + 1] as int == len && p[i] == opt;
  }

  method TakeMruAsyncmap(go: Options, wo: Options, p: bytes) returns (i: nat, try: Options, no: set<Flag>)
    ensures i <= |p|
    ensures Walk(p[i..], try, no, false, false, go.chapMd)
         == NakAsyncmap(go, NakMru(go, wo, Walk(p, go, {}, false, false, go.chapMd)))
  {
    hide GetShort, GetLong, Or32;
    i, try, no := 0, go, {};
    assert p[0..] == p;
    var hit := HeadsAt(p, i, CI_MRU, CILEN_SHORT);
    if Mru in go.neg && go.mru != DEFMRU && hit {
      var v := GetShort(p[i + 2..i + 4]);
      no := no + {Mru};
      if v <= wo.mru || v <= DEFMRU {
        try := try.(mru := v);
      }
      i := i + CILEN_SHORT;
    }
    hit := HeadsAt(p, i, CI_ASYNCMAP, CILEN_LONG);
    if Asyncmap in go.neg && go.asyncmap != ALL_ONES && hit {
      assert p[i..][2..6] == p[i + 2..i + 6] && p[i..][CILEN_LONG..] == p[i + CILEN_LONG..];
      no := no + {Asyncmap};
      try := try.(asyncmap := Or32(go.asyncmap, GetLong(p[i + 2..i + 6])));
      i := i + CILEN_LONG;
    }
  }

  method TakeChapHint(go: Options, digest: byte, try0: Options, md0: byte, ghost w: Walk)
    returns (bad: bool, try: Options, md: byte)
    requires !w.bad && w.try == try0 && w.md == md0
    ensures w.(bad := bad, try := try, md := md) == NakToChap(go, w, digest)
  {
    bad, try, md := false, try0, md0;
    if Eap in go.neg {
      try := Drop(try, Eap);
      if CanDigest(go.chapMd, digest) {
        md := MdOf(digest);
      }
    } else if Chap in go.neg {
      if TakenAsDifferent(digest, go.chapMd) {
        if CanDigest(go.chapMd, digest) {
          md := MdOf(digest);
        } else {
          try := try.(chapMd := NextPreferred(try.chapMd));
          if try.chapMd == 0 {
            try := Drop(try, Chap);
          }
        }
      } else {
        bad := true;
      }
    } else {
      try := Drop(try, Upap);
    }
  }

  method TakeAuth(go: Options, p: bytes, i: nat, try0: Options, no0: set<Flag>)
    returns (bad: bool, j: nat, try: Options, no: set<Flag>, md: byte)
    requires i <= |p|
    ensures j <= |p|
    ensures Walk(p[j..], try, no, bad, false, md) == NakAuth(go, Walk(p[i..], try0, no0, false, false, go.chapMd))
  {
    hide GetShort, NakToChap;
    bad, j, try, no, md := false, i, try0, no0, go.chapMd;
    if (Chap in go.neg || Upap in go.neg || Eap in go.neg) && |p| - i >= CILEN_SHORT && p[i] == CI_AUTHTYPE
       && CILEN_SHORT <= p[i + 1] as int <= |p| - i
    {
      var cilen := p[i + 1] as int;
      no := no + ({Chap, Upap, Eap} * go.neg);
      assert p[i..][2..4] == p[i + 2..i + 4] && p[i..][cilen..] == p[i + cilen..];
      var proto := GetShort(p[i + 2..i + 4]);
      j := i + cilen;
      if proto == PPP_PAP && cilen == CILEN_SHORT {
        if Eap in go.neg {
          try := Drop(try, Eap);
        } else if Chap in go.neg {
          try := Drop(try, Chap);
        } else {
          bad := true;
        }
      } else if proto == PPP_CHAP && cilen == CILEN_CHAP {
        bad, try, md := TakeChapHint(go, p[i + 4], try, md, Walk(p[j..], try, no, false, false, md));
      } else {
        try := DropAsked(go, try);
      }
    }
  }

  /** An option whose Nak is taken as a Reject, at a cursor. */
  method TakeDrop(go: Options, p: bytes, i: nat, try0: Options, no0: set<Flag>, f: Flag, opt: byte, len: nat,
                  ghost looped: bool, ghost md: byte)
    returns (j: nat, try: Options, no: set<Flag>)
    requires i <= |p| && len >= 2
    ensures j <= |p|
    ensures Walk(p[j..], try, no, false, looped, md)
         == NakDrops(go, Walk(p[i..], try0, no0, false, looped, md), f, opt, len)
  {
    j, try, no := i, try0, no0;
    var hit := HeadsAt(p, i, opt, len);
    if f in go.neg && hit {
      j, no, try := i + len, no + {f}, Drop(try, f);
      assert p[i..][len..] == p[j..];
    }
  }

  method TakeLqr(go: Options, p: bytes, i: nat, try0: Options, no0: set<Flag>, ghost md: byte)
    returns (j: nat, try: Options, no: set<Flag>)
    requires i <= |p|
    ensures j <= |p|
    ensures Walk(p[j..], try, no, false, false, md) == NakLqr(go, Walk(p[i..], try0, no0, false, false, md))
  {
    hide GetShort, GetLong;
    j, try, no := i, try0, no0;
    var hit := HeadsAt(p, i, CI_QUALITY, CILEN_LQR);
    if Lqr in go.neg && hit {
      assert p[i..][2..4] == p[i + 2..i + 4] && p[i..][4..8] == p[i + 4..i + 8];
      assert p[i..][CILEN_LQR..] == p[i + CILEN_LQR..];
      no := no + {Lqr};
      if GetShort(p[i + 2..i + 4]) != PPP_LQR {
        try := Drop(try, Lqr);
      } else {
        try := try.(lqrPeriod := GetLong(p[i + 4..i + 8]));
      }
      j := i + CILEN_LQR;
    }
  }

  method TakeMagic(go: Options, p: bytes, i: nat, try0: Options, no0: set<Flag>, newMagic: u32, ghost md: byte)
    returns (j: nat, try: Options, no: set<Flag>, looped: bool)
    requires i <= |p|
    ensures j <= |p|
    ensures Walk(p[j..], try, no, false, looped, md)
         == NakMagic(go, Walk(p[i..], try0, no0, false, false, md), newMagic)
  {
    j, try, no, looped := i, try0, no0, false;
    var hit := HeadsAt(p, i, CI_MAGICNUMBER, CILEN_LONG);
    if Magic in go.neg && hit {
      assert p[i..][CILEN_LONG..] == p[i + CILEN_LONG..];
      j, no, try, looped := i + CILEN_LONG, no + {Magic}, try.(magic := newMagic), true;
    }
  }

  method TakeMrru(go: Options, wo: Options, p: bytes, i: nat, try0: Options, no0: set<Flag>,
                  ghost looped: bool, ghost md: byte)
    returns (j: nat, try: Options, no: set<Flag>)
    requires i <= |p|
    ensures j <= |p|
    ensures Walk(p[j..], try, no, false, looped, md) == NakMrru(go, wo, Walk(p[i..], try0, no0, false, looped, md))
  {
    hide GetShort;
    j, try, no := i, try0, no0;
    var hit := HeadsAt(p, i, CI_MRRU, CILEN_SHORT);
    if Mrru in go.neg && hit {
      assert p[i..][2..4] == p[i + 2..i + 4] && p[i..][CILEN_SHORT..] == p[i + CILEN_SHORT..];
      var v := GetShort(p[i + 2..i + 4]);
      no := no + {Mrru};
      if v <= wo.mrru {
        try := try.(mrru := v);
      }
      j := i + CILEN_SHORT;
    }
  }

  method TakeEndpoint(go: Options, p: bytes, i: nat, try0: Options, no0: set<Flag>, ghost looped: bool, ghost md: byte)
    returns (j: nat, try: Options, no: set<Flag>)
    requires i <= |p|
    ensures j <= |p|
    ensures Walk(p[j..], try, no, false, looped, md) == NakEndpoint(go, Walk(p[i..], try0, no0, false, looped, md))
  {
    j, try, no := i, try0, no0;
    if Endpoint in go.neg && |p| - i >= CILEN_CHAR && p[i] == CI_EPDISC && CILEN_CHAR <= p[i + 1] as int <= |p| - i {
      j, no, try := i + p[i + 1], no + {Endpoint}, Drop(try, Endpoint);
      assert p[i..][p[i + 1]..] == p[j..];
    }
  }

  method TakeRest(go: Options, wo: Options, p: bytes, i: nat, try0: Options, no0: set<Flag>, newMagic: u32,
                  ghost md: byte)
    returns (j: nat, try: Options, no: set<Flag>, looped: bool)
    requires i <= |p|
    ensures j <= |p|
    ensures Walk(p[j..], try, no, false, looped, md)
         == NakRest(go, wo, Walk(p[i..], try0, no0, false, false, md), newMagic)
  {
    hide NakLqr, NakDrops, NakMagic, NakMrru, NakEndpoint;
    j, try, no := TakeLqr(go, p, i, try0, no0, md);
    j, try, no := TakeDrop(go, p, j, try, no, Cbcp, CI_CALLBACK, CILEN_CHAR, false, md);
    j, try, no, looped := TakeMagic(go, p, j, try, no, newMagic, md);
    j, try, no := TakeDrop(go, p, j, try, no, Pcomp, CI_PCOMPRESSION, CILEN_VOID, looped, md);
    j, try, no := TakeDrop(go, p, j, try, no, Accomp, CI_ACCOMPRESSION, CILEN_VOID, looped, md);
    j, try, no := TakeMrru(go, wo, p, j, try, no, looped, md);
    j, try, no := TakeDrop(go, p, j, try, no, Ssnhf, CI_SSNHF, CILEN_VOID, looped, md);
    j, try, no := TakeEndpoint(go, p, j, try, no, looped, md);
  }

  method TakeExtra(p: bytes, j: nat, try0: Options) returns (try: Options)
    requires j + 2 <= |p| && (p[j] == CI_MRU ==> j + CILEN_SHORT <= |p|)
    ensures try == ExtraAdds(try0, p[j..])
  {
    hide GetShort;
    try := try0;
    if p[j] == CI_MRU {
      assert p[j..][2..4] == p[j + 2..j + 4];
      if GetShort(p[j + 2..j + 4]) < DEFMRU {
        try := try.(neg := try.neg + {Mru}, mru := GetShort(p[j + 2..j + 4]));
      }
    } else if p[j] == CI_SSNHF {
      try := try.(neg := try.neg + {Ssnhf});
    }
  }

  /** The loop over what is left. */
  method TakeExtras(go: Options, p: bytes, i: nat, try0: Options, no: set<Flag>, ghost looped: bool, ghost md: byte)
    returns (bad: bool, try: Options)
    requires i <= |p|
    ensures var w := NakExtras(go, Walk(p[i..], try0, no, false, looped, md));
            bad == w.bad && try == w.try && w.looped == looped && w.md == md
  {
    hide ExtraAllowed, ExtraAdds;
    bad, try := false, try0;
    var j := i;
    while |p| - j > CILEN_VOID
      invariant i <= j <= |p|
      invariant NakExtras(go, Walk(p[i..], try0, no, false, looped, md))
             == NakExtras(go, Walk(p[j..], try, no, false, looped, md))
      decreases |p| - j
    {
      var citype, cilen := p[j], p[j + 1] as int;
      if cilen < CILEN_VOID || cilen > |p| - j || !ExtraAllowed(go, no, citype, cilen) {
        return true, try;
      }
      ExtraMru(go, no, citype, cilen);
      try := TakeExtra(p, j, try);
      assert p[j..][cilen..] == p[j + cilen..];
      j := j + cilen;
    }
  }

  lemma ExtraMru(go: Options, no: set<Flag>, opt: byte, len: nat)
    requires ExtraAllowed(go, no, opt, len)
    ensures opt == CI_MRU ==> len == CILEN_SHORT
  {
  }

  /** Take a Nak of our options. */
  method NakOptions(go: Options, wo: Options, isOpen: bool, p: bytes, newMagic: u32, loopLimit: int)
    returns (r: NakResult)
    ensures r == NakCi(go, wo, isOpen, p, newMagic, loopLimit)
  {
    hide NakMru, NakAsyncmap, NakAuth, NakRest, NakExtras;
    var i, try, no := TakeMruAsyncmap(go, wo, p);
    var bad, md;
    bad, i, try, no, md := TakeAuth(go, p, i, try, no);
    if bad {
      NakAuthLoop(go, wo, p);
      return NakResult(0, go.(chapMd := md), false, false);
    }
    var looped;
    i, try, no, looped := TakeRest(go, wo, p, i, try, no, newMagic, md);
    bad, try := TakeExtras(go, p, i, try, no, looped, md);
    if bad {
      return NakResult(0, go.(chapMd := md), false, looped);
    }
    if isOpen {
      return NakResult(1, go.(chapMd := md), false, looped);
    }
    var close := false;
    if looped {
      try := try.(numloops := try.numloops + 1);
      close := try.numloops >= loopLimit;
    } else {
      try := try.(numloops := 0);
    }
    return NakResult(1, try, close, looped);
  }

  lemma NakAuthLoop(go: Options, wo: Options, p: bytes)
    ensures !NakAuth(go, NakAsyncmap(go, NakMru(go, wo, Walk(p, go, {}, false, false, go.chapMd)))).looped
  {
  }
}
