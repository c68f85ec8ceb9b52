/** Judging a peer's Configure-Request: the meaning of each option, the answer
    to a whole request, and the one pass that computes it in the packet buffer. */
module LcpRequest {
  import opened Wire
  import opened LcpOptions
  import opened Bits
  import opened Fsm

  /** What the judgement depends on besides the request: the options allowed to
      the peer, our own, whether multilink is on, and the source of magic numbers. */
  datatype Context = Context(ao: Options, go: Options, multilink: bool, magic: nat -> u32)

  /** The peer's options recorded so far, and how many magic numbers have been drawn. */
  datatype Seen = Seen(ho: Options, drawn: nat)

  datatype Ruling = Accept | Counter(nak: bytes) | Refuse

  datatype Judged = Judged(ruling: Ruling, seen: Seen)

  function Or32(a: u32, b: u32): (r: u32)
    ensures r as nat == BitOr(a, b)
  {
    Exp2Of32();
    OrWidth(a, b, 32);
    BitOr(a, b)
  }

  function Offer(opt: byte, body: bytes): bytes
    requires |body| <= 253
  {
    [opt, 2 + |body|] + body
  }

  function Recorded(s: Seen, f: Flag): Seen {
    s.(ho := s.ho.(neg := s.ho.neg + {f}))
  }

  function JudgeMru(c: Context, s: Seen, opt: bytes): Judged
    requires |opt| >= 2
  {
    if Mru !in c.ao.neg || |opt| != CILEN_SHORT then Judged(Refuse, s)
    else
      var v: u16 := GetShort(opt[2..4]);
      if v < MINMRU then Judged(Counter(Offer(CI_MRU, PutShort(MINMRU))), s)
      else Judged(Accept, Recorded(s.(ho := s.ho.(mru := v)), Mru))
  }

  function JudgeAsyncmap(c: Context, s: Seen, opt: bytes): Judged
    requires |opt| >= 2
  {
    if Asyncmap !in c.ao.neg || |opt| != CILEN_LONG then Judged(Refuse, s)
    else
      var v: u32 := GetLong(opt[2..6]);
      if !BitsIn(c.ao.asyncmap, v) then
        Judged(Counter(Offer(CI_ASYNCMAP, PutLong(Or32(c.ao.asyncmap, v)))), s)
      else Judged(Accept, Recorded(s.(ho := s.ho.(asyncmap := v)), Asyncmap))
  }

  function OfferChap(digest: byte): bytes {
    Offer(CI_AUTHTYPE, PutShort(PPP_CHAP) + [digest])
  }

  function OfferShort(proto: u16): bytes {
    Offer(CI_AUTHTYPE, PutShort(proto))
  }

  function JudgePap(c: Context, s: Seen, opt: bytes): Judged {
    if Chap in s.ho.neg || Eap in s.ho.neg || |opt| != CILEN_SHORT then Judged(Refuse, s)
    else if Upap !in c.ao.neg then
      Judged(Counter(if Eap in c.ao.neg then OfferShort(PPP_EAP) else OfferChap(Digest(c.ao.chapMd))), s)
    else Judged(Accept, Recorded(s, Upap))
  }

  function JudgeChap(c: Context, s: Seen, opt: bytes): Judged {
    if Upap in s.ho.neg || Eap in s.ho.neg || |opt| != CILEN_CHAP then Judged(Refuse, s)
    else if Chap !in c.ao.neg then
      Judged(Counter(OfferShort(if Eap in c.ao.neg then PPP_EAP else PPP_PAP)), s)
    else if !CanDigest(c.ao.chapMd, opt[4]) then Judged(Counter(OfferChap(Digest(c.ao.chapMd))), s)
    else Judged(Accept, Recorded(s.(ho := s.ho.(chapMd := MdOf(opt[4]))), Chap))
  }

  /** The counter-offer of CHAP to a request for EAP carries the set of
      algorithms where the others carry the digest id. */
  function JudgeEap(c: Context, s: Seen, opt: bytes): Judged {
    if Chap in s.ho.neg || Upap in s.ho.neg || |opt| != CILEN_SHORT then Judged(Refuse, s)
    else if Eap !in c.ao.neg then
      Judged(Counter(if Chap in c.ao.neg then OfferChap(c.ao.chapMd) else OfferShort(PPP_PAP)), s)
    else Judged(Accept, Recorded(s, Eap))
  }

  function JudgeAuth(c: Context, s: Seen, opt: bytes): Judged
    requires |opt| >= 2
  {
    if |opt| < CILEN_SHORT || !(Upap in c.ao.neg || Chap in c.ao.neg || Eap in c.ao.neg) then Judged(Refuse, s)
    else
      var proto := GetShort(opt[2..4]);
      if proto == PPP_PAP then JudgePap(c, s, opt)
      else if proto == PPP_CHAP then JudgeChap(c, s, opt)
      else if proto == PPP_EAP then JudgeEap(c, s, opt)
      else
        Judged(Counter(if Eap in c.ao.neg then OfferShort(PPP_EAP)
                       else if Chap in c.ao.neg then OfferChap(Digest(c.ao.chapMd))
                       else OfferShort(PPP_PAP)), s)
  }

  /** An acceptable quality protocol is accepted but not recorded. */
  function JudgeQuality(c: Context, s: Seen, opt: bytes): Judged
    requires |opt| >= 2
  {
    if Lqr !in c.ao.neg || |opt| != CILEN_LQR then Judged(Refuse, s)
    else if GetShort(opt[2..4]) != PPP_LQR then
      Judged(Counter(Offer(CI_QUALITY, PutShort(PPP_LQR) + PutLong(c.ao.lqrPeriod))), s)
    else Judged(Accept, s)
  }

  function JudgeMagic(c: Context, s: Seen, opt: bytes): Judged
    requires |opt| >= 2
  {
    if !(Magic in c.ao.neg || Magic in c.go.neg) || |opt| != CILEN_LONG then Judged(Refuse, s)
    else
      var v: u32 := GetLong(opt[2..6]);
      if Magic in c.go.neg && v == c.go.magic then
        Judged(Counter(Offer(CI_MAGICNUMBER, PutLong(c.magic(s.drawn)))), s.(drawn := s.drawn + 1))
      else Judged(Accept, Recorded(s.(ho := s.ho.(magic := v)), Magic))
  }

  function JudgeVoid(allowed: bool, s: Seen, opt: bytes, f: Flag): Judged {
    if !allowed || |opt| != CILEN_VOID then Judged(Refuse, s)
    else Judged(Accept, Recorded(s, f))
  }

  function JudgeMrru(c: Context, s: Seen, opt: bytes): Judged
    requires |opt| >= 2
  {
    if Mrru !in c.ao.neg || !c.multilink || |opt| != CILEN_SHORT then Judged(Refuse, s)
    else Judged(Accept, Recorded(s.(ho := s.ho.(mrru := GetShort(opt[2..4]))), Mrru))
  }

  function JudgeEndpoint(c: Context, s: Seen, opt: bytes): Judged
    requires |opt| >= 2
  {
    if Endpoint !in c.ao.neg || |opt| < CILEN_CHAR || |opt| > CILEN_CHAR + MAX_ENDP_LEN then Judged(Refuse, s)
    else Judged(Accept, Recorded(s.(ho := s.ho.(endpoint := Epdisc(opt[2], opt[3..]))), Endpoint))
  }

  /** The meaning of one well-formed option. */
  function JudgeOption(c: Context, s: Seen, opt: bytes): Judged
    requires |opt| >= 2
  {
    if opt[0] == CI_MRU then JudgeMru(c, s, opt)
    else if opt[0] == CI_ASYNCMAP then JudgeAsyncmap(c, s, opt)
    else if opt[0] == CI_AUTHTYPE then JudgeAuth(c, s, opt)
    else if opt[0] == CI_QUALITY then JudgeQuality(c, s, opt)
    else if opt[0] == CI_MAGICNUMBER then JudgeMagic(c, s, opt)
    else if opt[0] == CI_PCOMPRESSION then JudgeVoid(Pcomp in c.ao.neg, s, opt, Pcomp)
    else if opt[0] == CI_ACCOMPRESSION then JudgeVoid(Accomp in c.ao.neg, s, opt, Accomp)
    else if opt[0] == CI_MRRU then JudgeMrru(c, s, opt)
    else if opt[0] == CI_SSNHF then JudgeVoid(Ssnhf in c.ao.neg && c.multilink, s, opt, Ssnhf)
    else if opt[0] == CI_EPDISC then JudgeEndpoint(c, s, opt)
    else Judged(Refuse, s)
  }

  /** Whether a counter-offer is one this side would itself accept. For a request for
      EAP answered with CHAP it is, exactly if the set of algorithms, read as a digest
      id, is one of its own members. */
  lemma EapCounterIff(c: Context, s: Seen, opt: bytes)
    requires |opt| == CILEN_SHORT && opt[0] == CI_AUTHTYPE && GetShort(opt[2..4]) == PPP_EAP
    requires Chap in c.ao.neg && Eap !in c.ao.neg && Chap !in s.ho.neg && Upap !in s.ho.neg && Eap !in s.ho.neg
    ensures var r := JudgeOption(c, s, opt).ruling;
            && r == Counter(OfferChap(c.ao.chapMd))
            && (JudgeOption(c, s, r.nak).ruling.Accept? <==> CanDigest(c.ao.chapMd, c.ao.chapMd))
  {
    hide PutShort, GetShort;
    var offer := OfferChap(c.ao.chapMd);
    assert offer[2..4] == PutShort(PPP_CHAP) && offer[4] == c.ao.chapMd;
    ShortRoundTrip(PPP_CHAP, offer[2..4]);
    ShortRoundTrip(PPP_EAP, opt[2..4]);
  }

  /** Of all sets of the three algorithms only MD5 with the newer Microsoft digest is. */
  lemma SelfDigestIff(md: byte)
    requires md < 8
    ensures CanDigest(md, md) <==> md == 5
  {
  }

  /** A side that can do MD5 offers CHAP with digest 4 to a request for EAP, and refuses
      to take that up itself. */
  lemma EapCounterExample(c: Context, s: Seen)
    requires c.ao.neg == {Chap} && c.ao.chapMd == 4 && s.ho.neg == {}
    ensures var r := JudgeOption(c, s, [3, 4, 0xc2, 0x27]).ruling;
            && r == Counter([3, 5, 0xc2, 0x23, 4])
            && JudgeOption(c, s, [3, 5, 0xc2, 0x23, 4]).ruling == Counter([3, 5, 0xc2, 0x23, 5])
  {
    var opt: bytes := [3, 4, 0xc2, 0x27];
    assert opt[2..4] == [0xc2, 0x27];
    var offer: bytes := [3, 5, 0xc2, 0x23, 4];
    assert offer[2..4] == [0xc2, 0x23];
    assert OfferChap(4) == offer;
  }

  // ---- Parse, classify, filter ----

  /** A request cut into options; octets that do not parse are one last piece. */
  datatype Piece = Piece(octets: bytes, whole: bool)

  predicate Cut(p: bytes) {
    |p| >= 2 && 2 <= p[1] as int <= |p|
  }

  function Pieces(p: bytes): (r: seq<Piece>)
  {
    if p == [] then []
    else if !Cut(p) then [Piece(p, false)]
    else [Piece(p[..p[1]], true)] + Pieces(p[p[1]..])
  }

  function JudgePiece(c: Context, s: Seen, x: Piece): Judged {
    if !x.whole || |x.octets| < 2 then Judged(Refuse, s) else JudgeOption(c, s, x.octets)
  }

  /** Once told to get tough, a counter-offer becomes a refusal, but not for the magic number. */
  function Toughened(r: Ruling, x: Piece, tough: bool): Ruling {
    if r.Counter? && tough && (|x.octets| == 0 || x.octets[0] != CI_MAGICNUMBER) then Refuse else r
  }

  function SeenAfter(c: Context, s: Seen, xs: seq<Piece>): Seen {
    if xs == [] then s
    else JudgePiece(c, SeenAfter(c, s, xs[..|xs| - 1]), xs[|xs| - 1]).seen
  }

  function RulingOn(c: Context, s: Seen, xs: seq<Piece>, tough: bool): Ruling
    requires xs != []
  {
    var x := xs[|xs| - 1];
    Toughened(JudgePiece(c, SeenAfter(c, s, xs[..|xs| - 1]), x).ruling, x, tough)
  }

  /** All rulings, in order. */
  function Rulings(c: Context, s: Seen, xs: seq<Piece>, tough: bool): (r: seq<Ruling>)
    ensures |r| == |xs|
  {
    if xs == [] then []
    else Rulings(c, s, xs[..|xs| - 1], tough) + [RulingOn(c, s, xs, tough)]
  }

  /** A ruling depends on the options up to its own. */
  lemma {:induction false} RulingAt(c: Context, s: Seen, xs: seq<Piece>, tough: bool, k: nat)
    requires k < |xs|
    ensures Rulings(c, s, xs, tough)[k] == RulingOn(c, s, xs[..k + 1], tough)
    decreases |xs|
  {
    hide RulingOn;
    var n := |xs| - 1;
    if k < n {
      RulingAt(c, s, xs[..n], tough, k);
      assert xs[..n][..k + 1] == xs[..k + 1];
    } else {
      assert xs[..k + 1] == xs;
    }
  }

  /** The refused options, verbatim and in order. */
  function RefusedPart(xs: seq<Piece>, rs: seq<Ruling>): bytes
    requires |xs| == |rs|
  {
    if xs == [] then []
    else
      var n := |xs| - 1;
      RefusedPart(xs[..n], rs[..n]) + (if rs[n].Refuse? then xs[n].octets else [])
  }

  /** The counter-offers, in order. */
  function CounterPart(rs: seq<Ruling>): bytes {
    if rs == [] then []
    else
      var n := |rs| - 1;
      CounterPart(rs[..n]) + (if rs[n].Counter? then rs[n].nak else [])
  }

  /** The answer to a request: all refusals if there is one, else all
      counter-offers if there is one, else the request itself. */
  function Answer(p: bytes, xs: seq<Piece>, rs: seq<Ruling>): (r: (byte, bytes))
    requires |xs| == |rs|
  {
    if exists k | 0 <= k < |rs| :: rs[k].Refuse? then (CONFREJ, RefusedPart(xs, rs))
    else if exists k | 0 <= k < |rs| :: rs[k].Counter? then (CONFNAK, CounterPart(rs))
    else (CONFACK, p)
  }

  function ReqCi(c: Context, drawn: nat, p: bytes, tough: bool): (byte, bytes) {
    var xs := Pieces(p);
    Answer(p, xs, Rulings(c, Seen(NoOptions, drawn), xs, tough))
  }

  function ReqSeen(c: Context, drawn: nat, p: bytes): Seen {
    SeenAfter(c, Seen(NoOptions, drawn), Pieces(p))
  }

  // ---- The pass in the packet buffer ----

  /** A counter-offer is at most a quarter longer than the option it answers. */
  lemma CounterSize(c: Context, s: Seen, x: Piece)
    requires JudgePiece(c, s, x).ruling.Counter?
    ensures 4 * |JudgePiece(c, s, x).ruling.nak| <= 5 * |x.octets|
  {
    hide PutShort, PutLong, GetShort, GetLong, BitsIn, Digest, CanDigest;
  }

  lemma PieceSteps(p: bytes, i: nat)
    requires i < |p|
    ensures Cut(p[i..]) ==> Pieces(p[i..]) == [Piece(p[i..i + p[i + 1]], true)] + Pieces(p[i + p[i + 1]..])
    ensures !Cut(p[i..]) ==> Pieces(p[i..]) == [Piece(p[i..], false)]
  {
    if Cut(p[i..]) {
      assert p[i..][..p[i + 1]] == p[i..i + p[i + 1]];
      assert p[i..][p[i + 1]..] == p[i + p[i + 1]..];
    }
  }

  /** The strongest ruling so far is the code so far. */
  ghost predicate Summary(rc: byte, rs: seq<Ruling>) {
    && (rc == CONFACK || rc == CONFNAK || rc == CONFREJ)
    && (rc == CONFREJ <==> exists k | 0 <= k < |rs| :: rs[k].Refuse?)
    && (rc == CONFACK ==> forall k | 0 <= k < |rs| :: rs[k].Accept?)
    && (rc == CONFNAK ==> exists k | 0 <= k < |rs| :: rs[k].Counter?)
  }

  lemma SummaryStep(rc: byte, rs: seq<Ruling>, r: Ruling, rc': byte)
    requires Summary(rc, rs)
    requires rc' == if r.Refuse? then CONFREJ else if r.Counter? && rc == CONFACK then CONFNAK else rc
    ensures Summary(rc', rs + [r])
  {
    var all := rs + [r];
    assert all[|rs|] == r;
    assert forall k | 0 <= k < |rs| :: all[k] == rs[k];
  }

  lemma PartsStep(xs: seq<Piece>, rs: seq<Ruling>, x: Piece, r: Ruling)
    requires |xs| == |rs|
    ensures RefusedPart(xs + [x], rs + [r]) == RefusedPart(xs, rs) + (if r.Refuse? then x.octets else [])
    ensures CounterPart(rs + [r]) == CounterPart(rs) + (if r.Counter? then r.nak else [])
  {
    assert (xs + [x])[..|xs|] == xs && (rs + [r])[..|rs|] == rs;
  }

  /** What has been established when `done` pieces have been judged. */
  ghost predicate Progress(c: Context, drawn: nat, tough: bool, done: seq<Piece>,
                           rc: byte, seen: Seen, rejected: bytes, naks: bytes)
  {
    var rs := Rulings(c, Seen(NoOptions, drawn), done, tough);
    && seen == SeenAfter(c, Seen(NoOptions, drawn), done)
    && Summary(rc, rs)
    && rejected == RefusedPart(done, rs)
    && (rc != CONFREJ ==> naks == CounterPart(rs))
  }

  /** The code and the counter-offers that some rulings lead to. */
  ghost predicate Decided(rc: byte, naks: bytes, rs: seq<Ruling>) {
    Summary(rc, rs) && (rc != CONFREJ ==> naks == CounterPart(rs))
  }

  /** The bookkeeping after one option: keep, refuse or counter. */
  lemma ProgressStep(c: Context, drawn: nat, tough: bool, done: seq<Piece>,
                     rc: byte, seen: Seen, rejected: bytes, naks: bytes, x: Piece,
                     rc': byte, naks': bytes)
    requires Progress(c, drawn, tough, done, rc, seen, rejected, naks)
    requires var r := Toughened(JudgePiece(c, seen, x).ruling, x, tough);
             Decided(rc', naks', Rulings(c, Seen(NoOptions, drawn), done, tough) + [r])
    ensures var j := JudgePiece(c, seen, x);
            var r := Toughened(j.ruling, x, tough);
            Progress(c, drawn, tough, done + [x], rc', j.seen,
                     rejected + (if r.Refuse? then x.octets else []), naks')
  {
    hide JudgePiece, Summary, RefusedPart, CounterPart, Toughened;
    var s := Seen(NoOptions, drawn);
    var all := done + [x];
    assert all[..|done|] == done;
    var rs := Rulings(c, s, done, tough);
    var r := Toughened(JudgePiece(c, seen, x).ruling, x, tough);
    assert Rulings(c, s, all, tough) == rs + [r];
    PartsStep(done, rs, x, r);
  }

  lemma ToughenedKeeps(r: Ruling, x: Piece, tough: bool)
    ensures Toughened(r, x, tough).Refuse? || Toughened(r, x, tough) == r
  {
  }

  /** A code that is no Reject means no refusal, now or before. */
  lemma NoneRefused(rc: byte, naks: bytes, rs: seq<Ruling>, r: Ruling, rc': byte, naks': bytes)
    requires Decided(rc, naks, rs) && Decided(rc', naks', rs + [r]) && rc' != CONFREJ
    ensures !r.Refuse? && rc != CONFREJ
  {
    var all := rs + [r];
    assert all[|rs|] == r;
    assert forall k | 0 <= k < |rs| :: all[k] == rs[k];
  }

  lemma RejStays(rc: byte, rs: seq<Ruling>)
    requires Summary(rc, rs)
    ensures rc == CONFACK || rc == CONFNAK || rc == CONFREJ
  {
  }

  /** One option judged: given the code and the counter-offers that the rulings so far lead to, those that they
      lead to with one ruling more, and whether the option is refused. */
  method Decide(j: Judged, ghost x: Piece, citype: byte, tough: bool, rc: byte, naks: bytes, ghost rs: seq<Ruling>)
    returns (rc': byte, refuse: bool, naks': bytes)
    requires Decided(rc, naks, rs) && (j.ruling.Counter? ==> |x.octets| > 0 && x.octets[0] == citype)
    ensures var r := Toughened(j.ruling, x, tough);
            refuse == r.Refuse? && Decided(rc', naks', rs + [r])
  {
    hide Summary, CounterPart;
    naks' := if j.ruling.Counter? then naks + j.ruling.nak else naks;
    rc', refuse := rc, j.ruling.Refuse?;
    if j.ruling.Counter? {
      if tough && citype != CI_MAGICNUMBER {
        refuse := true;
      } else if rc != CONFREJ {
        rc' := CONFNAK;
      }
    }
    if refuse {
      rc' := CONFREJ;
    }
    ghost var r := Toughened(j.ruling, x, tough);
    RejStays(rc, rs);
    SummaryStep(rc, rs, r, rc');
    PartsStep(seq(|rs|, i => x), rs, x, r);
    assert CounterPart(rs) + [] == CounterPart(rs);
  }

  /** Move a refused option down to the end of those already refused. */
  method MoveDown(buf: array<byte>, from: nat, to: nat, n: nat)
    requires to <= from && from + n <= buf.Length
    modifies buf
    ensures buf[..][..to + n] == old(buf[..])[..to] + old(buf[..])[from..from + n]
    ensures buf[..][from + n..] == old(buf[..])[from + n..]
  {
    ghost var was := buf[..];
    forall k | 0 <= k < n {
      buf[to + k] := buf[from + k];
    }
    Moved(was, buf[..], from, to, n);
  }

  lemma Moved(was: bytes, now: bytes, from: nat, to: nat, n: nat)
    requires to <= from && from + n <= |was| == |now|
    requires forall i | 0 <= i < to :: now[i] == was[i]
    requires forall i | to <= i < to + n :: now[i] == was[from + (i - to)]
    requires forall i | to + n <= i < |now| :: now[i] == was[i]
    ensures now[..to + n] == was[..to] + was[from..from + n]
    ensures now[from + n..] == was[from + n..]
  {
  }

  /** Gather an option if it is refused. */
  method Gather(buf: array<byte>, refuse: bool, from: nat, to: nat, n: nat) returns (end: nat)
    requires to <= from && from + n <= buf.Length
    modifies buf
    ensures !refuse ==> buf[..] == old(buf[..]) && end == to
    ensures refuse ==> end == to + n && buf[..][..end] == old(buf[..])[..to] + old(buf[..])[from..from + n]
    ensures buf[..][from + n..] == old(buf[..])[from + n..]
  {
    end := to;
    if refuse {
      MoveDown(buf, from, to, n);
      end := to + n;
    }
  }

  /** Where the pass stands, given what the buffer holds: the options judged, the
      code, the refused octets gathered at the front, and the rest untouched. */
  datatype Cursor = Cursor(next: nat, rejp: nat, rc: byte, naks: bytes, seen: Seen)

  ghost predicate Passing(c: Context, drawn: nat, tough: bool, req: bytes, buf: bytes, k: Cursor, done: seq<Piece>) {
    && k.rejp <= k.next <= |req| <= |buf|
    && buf[k.next..|req|] == req[k.next..]
    && (k.rc != CONFREJ ==> k.rejp == 0 && buf[..|req|] == req)
    && Pieces(req) == done + Pieces(req[k.next..])
    && Progress(c, drawn, tough, done, k.rc, k.seen, buf[..k.rejp], k.naks)
  }

  /** The next piece, judged. */
  method JudgeNext(c: Context, buf: array<byte>, len: nat, next: nat, seen: Seen, ghost req: bytes)
    returns (j: Judged, cilen: nat, citype: byte, ghost x: Piece)
    requires next < len <= buf.Length && |req| == len && buf[next..len] == req[next..]
    ensures j == JudgePiece(c, seen, x)
    ensures 0 < cilen && next + cilen <= len && x.octets == buf[next..next + cilen]
    ensures j.ruling.Counter? ==> x.octets[0] == citype
    ensures Pieces(req[next..]) == [x] + Pieces(req[next + cilen..])
  {
    hide JudgeOption, Pieces;
    PieceSteps(req, next);
    assert req[next..] == buf[next..len];
    if len - next < 2 || buf[next + 1] < 2 || buf[next + 1] as int > len - next {
      cilen, citype, j := len - next, 0, Judged(Refuse, seen);
      x := Piece(buf[next..len], false);
      assert req[len..] == [];
      NoPieces();
    } else {
      assert req[next..][1] == req[next + 1] == buf[next + 1];
      cilen, citype := buf[next + 1], buf[next];
      j := JudgeOption(c, seen, buf[next..next + cilen]);
      x := Piece(buf[next..next + cilen], true);
      assert req[next..next + cilen] == req[next..][..cilen];
      assert buf[next..next + cilen] == buf[next..len][..cilen];
    }
  }

  /** The buffer after one option: a refused one has joined the others at the front. */
  lemma PassStep(c: Context, drawn: nat, tough: bool, req: bytes, buf: bytes, k: Cursor, done: seq<Piece>,
                 x: Piece, cilen: nat, refuse: bool, buf': bytes, k': Cursor)
    requires Passing(c, drawn, tough, req, buf, k, done)
    requires 0 < cilen && k.next + cilen <= |req| && x.octets == buf[k.next..k.next + cilen]
    requires Pieces(req[k.next..]) == [x] + Pieces(req[k.next + cilen..])
    requires |buf'| == |buf| && buf'[k.next + cilen..] == buf[k.next + cilen..]
    requires refuse == Toughened(JudgePiece(c, k.seen, x).ruling, x, tough).Refuse?
    requires !refuse ==> buf' == buf && k'.rejp == k.rejp
    requires refuse ==> k'.rejp == k.rejp + cilen && buf'[..k'.rejp] == buf[..k.rejp] + x.octets
    requires k'.next == k.next + cilen && k'.seen == JudgePiece(c, k.seen, x).seen
    requires var r := Toughened(JudgePiece(c, k.seen, x).ruling, x, tough);
             Decided(k'.rc, k'.naks, Rulings(c, Seen(NoOptions, drawn), done, tough) + [r])
    ensures Passing(c, drawn, tough, req, buf', k', done + [x])
  {
    hide JudgePiece, Progress, Toughened, Pieces, Decided, Rulings;
    ProgressDecided(c, drawn, tough, done, k.rc, k.seen, buf[..k.rejp], k.naks);
    if k'.rc != CONFREJ {
      NoneRefused(k.rc, k.naks, Rulings(c, Seen(NoOptions, drawn), done, tough),
                  Toughened(JudgePiece(c, k.seen, x).ruling, x, tough), k'.rc, k'.naks);
    }
    ProgressStep(c, drawn, tough, done, k.rc, k.seen, buf[..k.rejp], k.naks, x, k'.rc, k'.naks);
    assert buf'[k'.next..|req|] == buf'[k'.next..][..|req| - k'.next];
    assert buf[k'.next..|req|] == buf[k'.next..][..|req| - k'.next];
    assert buf[k'.next..|req|] == buf[k.next..|req|][cilen..];
    assert req[k'.next..] == req[k.next..][cilen..];
    assert done + ([x] + Pieces(req[k'.next..])) == done + [x] + Pieces(req[k'.next..]);
    assert buf[..k.rejp] + [] == buf[..k.rejp];
  }

  method OneOption(c: Context, drawn: nat, tough: bool, ghost req: bytes, buf: array<byte>, len: nat, k: Cursor,
                   ghost done: seq<Piece>)
    returns (k': Cursor, ghost x: Piece)
    requires len == |req| && Passing(c, drawn, tough, req, buf[..], k, done) && k.next < len
    modifies buf
    ensures Passing(c, drawn, tough, req, buf[..], k', done + [x]) && k'.next > k.next
  {
    hide JudgePiece, JudgeOption, Progress, Pieces, Toughened, Decided, Rulings;
    ghost var was := buf[..];
    assert was[k.next..len] == buf[k.next..len];
    var j, cilen, citype;
    j, cilen, citype, x := JudgeNext(c, buf, len, k.next, k.seen, req);
    ProgressDecided(c, drawn, tough, done, k.rc, k.seen, buf[..k.rejp], k.naks);
    var rc, refuse, naks := Decide(j, x, citype, tough, k.rc, k.naks, Rulings(c, Seen(NoOptions, drawn), done, tough));
    assert was[..k.rejp] == buf[..k.rejp];
    assert was[k.next..k.next + cilen] == x.octets;
    var rejp := Gather(buf, refuse, k.next, k.rejp, cilen);
    k' := Cursor(k.next + cilen, rejp, rc, naks, j.seen);
    PassStep(c, drawn, tough, req, was, k, done, x, cilen, refuse, buf[..], k');
  }

  lemma ProgressDecided(c: Context, drawn: nat, tough: bool, done: seq<Piece>,
                        rc: byte, seen: Seen, rejected: bytes, naks: bytes)
    requires Progress(c, drawn, tough, done, rc, seen, rejected, naks)
    ensures Decided(rc, naks, Rulings(c, Seen(NoOptions, drawn), done, tough))
  {
  }

  /** Answer the request held in the first len octets of the buffer, in the
      buffer. Options not yet judged are never overwritten. The buffer has room
      for the answer, which is all that copying counter-offers back into it needs. */
  method AnswerInPlace(c: Context, drawn: nat, buf: array<byte>, len: nat, tough: bool)
    returns (code: byte, outLen: nat, seen: Seen)
    requires len <= buf.Length && |ReqCi(c, drawn, buf[..len], tough).1| <= buf.Length
    modifies buf
    ensures outLen <= buf.Length
    ensures (code, buf[..outLen]) == ReqCi(c, drawn, old(buf[..len]), tough)
    ensures seen == ReqSeen(c, drawn, old(buf[..len]))
  {
    hide Pieces, Progress, Rulings, SeenAfter, Answer;
    ghost var req := buf[..len];
    ghost var done: seq<Piece> := [];
    var k := Cursor(0, 0, CONFACK, [], Seen(NoOptions, drawn));
    ProgressStart(c, drawn, tough);
    assert req[0..] == req && buf[..][..len] == req && buf[..][0..len] == req;
    while k.next < len
      invariant Passing(c, drawn, tough, req, buf[..], k, done)
      decreases len - k.next
    {
      ghost var x;
      k, x := OneOption(c, drawn, tough, req, buf, len, k, done);
      done := done + [x];
    }
    NoPieces();
    assert req[len..] == [];
    assert done == Pieces(req);
    ProgressEnd(c, drawn, tough, req, k.rc, k.seen, buf[..][..k.rejp], k.naks);
    code, seen := k.rc, k.seen;
    if k.rc == CONFACK {
      outLen := len;
      assert buf[..outLen] == req;
    } else if k.rc == CONFNAK {
      outLen := |k.naks|;
      forall i | 0 <= i < outLen {
        buf[i] := k.naks[i];
      }
      assert buf[..outLen] == k.naks;
    } else {
      outLen := k.rejp;
      assert buf[..outLen] == buf[..][..k.rejp];
    }
  }

  lemma ProgressEnd(c: Context, drawn: nat, tough: bool, req: bytes, rc: byte, seen: Seen, rejected: bytes, naks: bytes)
    requires Progress(c, drawn, tough, Pieces(req), rc, seen, rejected, naks)
    ensures ReqCi(c, drawn, req, tough)
         == (rc, if rc == CONFREJ then rejected else if rc == CONFNAK then naks else req)
    ensures seen == ReqSeen(c, drawn, req)
    ensures rc == CONFACK || rc == CONFNAK || rc == CONFREJ
  {
  }

  lemma ProgressStart(c: Context, drawn: nat, tough: bool)
    ensures Progress(c, drawn, tough, [], CONFACK, Seen(NoOptions, drawn), [], [])
  {
  }

  lemma NoPieces()
    ensures Pieces([]) == []
  {
  }

  /** An answer is at most a quarter longer than the request. */
  lemma AnswerSize(c: Context, drawn: nat, p: bytes, tough: bool)
    ensures |ReqCi(c, drawn, p, tough).1| <= |p| + |p| / 4
  {
    hide Pieces, Rulings, RefusedPart, CounterPart;
    var xs := Pieces(p);
    PartSizes(c, Seen(NoOptions, drawn), xs, tough);
    TotalOf(p);
  }

  /** The octets of some pieces. */
  function Total(xs: seq<Piece>): nat {
    if xs == [] then 0 else Total(xs[..|xs| - 1]) + |xs[|xs| - 1].octets|
  }

  lemma {:induction false} TotalFront(x: Piece, xs: seq<Piece>)
    ensures Total([x] + xs) == |x.octets| + Total(xs)
  {
    if xs == [] {
      assert [x] + xs == [x] && [x][..0] == [];
    } else {
      var n := |xs| - 1;
      TotalFront(x, xs[..n]);
      assert ([x] + xs)[..n + 1] == [x] + xs[..n];
    }
  }

  lemma {:induction false} TotalOf(p: bytes)
    ensures Total(Pieces(p)) == |p|
  {
    if p != [] && Cut(p) {
      TotalOf(p[p[1]..]);
      TotalFront(Piece(p[..p[1]], true), Pieces(p[p[1]..]));
    } else if p != [] {
      assert [Piece(p, false)][..0] == [];
    }
  }

  lemma {:induction false} PartSizes(c: Context, s: Seen, xs: seq<Piece>, tough: bool)
    ensures var rs := Rulings(c, s, xs, tough);
            |RefusedPart(xs, rs)| <= Total(xs) && 4 * |CounterPart(rs)| <= 5 * Total(xs)
  {
    hide JudgePiece, SeenAfter, Toughened;
    if xs != [] {
      var n := |xs| - 1;
      var rs := Rulings(c, s, xs, tough);
      PartSizes(c, s, xs[..n], tough);
      assert rs[..n] == Rulings(c, s, xs[..n], tough);
      var t := SeenAfter(c, s, xs[..n]);
      ToughenedKeeps(JudgePiece(c, t, xs[n]).ruling, xs[n], tough);
      if JudgePiece(c, t, xs[n]).ruling.Counter? {
        CounterSize(c, t, xs[n]);
      }
    }
  }
}
