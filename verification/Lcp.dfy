/** LCP as a protocol on the automaton: its callbacks, that they are faithful,
    and what that gives two LCP machines on one line. */
module Lcp {
  import opened Wire
  import opened Bits
  import opened Fsm
  import opened LcpOptions
  import opened LcpReject
  import opened LcpRequest
  import opened LcpNak
  import LcpMirror
  import Agreement
  import FsmRuns
  import FsmTable

  const PROTREJ: byte := 8
  const ECHOREQ: byte := 9
  const ECHOREP: byte := 10
  const DISCREQ: byte := 11

  /** What looking up the secrets says: the protocols we can be asked for, and
      those we must stop asking for. */
  datatype Secrets = Secrets(offers: set<Flag>, drops: set<Flag>)

  /** What LCP takes from outside: random numbers, the secrets at each reset,
      configuration, and whether coming up leads to closing at once. */
  datatype Env = Env(
    magic: nat -> u32,
    secrets: nat -> Secrets,
    multilink: bool,
    noEndpoint: bool,
    loopLimit: int,
    loopReason: bytes,
    refuseLink: LcpState -> Option<bytes>)

  /** Wanted, current, allowed and peer's options, the packet size limit, and
      how many random numbers and resets there have been. */
  datatype LcpState = LcpState(
    wo: Options, go: Options, ao: Options, ho: Options, peerMru: int, drawn: nat, resets: nat)

  const AUTH: set<Flag> := {Chap, Eap, Upap}

  function ResetCi(env: Env, s: LcpState): LcpState {
    var wo := s.wo.(magic := env.magic(s.drawn), numloops := 0);
    var secrets := env.secrets(s.resets);
    var go := wo.(neg := wo.neg - (if env.multilink then {} else {Mrru, Ssnhf, Endpoint}) - secrets.drops * AUTH);
    var ao := s.ao.(neg := (s.ao.neg - (if env.noEndpoint then {Endpoint} else {}) - AUTH) + secrets.offers * AUTH);
    s.(wo := wo, go := go, ao := ao, peerMru := PPP_MRU, drawn := s.drawn + 1, resets := s.resets + 1)
  }

  function NakCallback(env: Env, s: LcpState, isOpen: bool, p: bytes): Refusal<LcpState> {
    var r := NakCi(s.go, s.wo, isOpen, p, env.magic(s.drawn), env.loopLimit);
    Refusal(s.(go := r.go, drawn := if r.drew then s.drawn + 1 else s.drawn), r.ret,
            if r.close then Some(env.loopReason) else None)
  }

  function RejCallback(s: LcpState, isOpen: bool, p: bytes): Refusal<LcpState> {
    match RejCi(s.go, p)
    case Bad => Refusal(s, 0, None)
    case Good(o) => Refusal(if isOpen then s else s.(go := o), 1, None)
  }

  function ReqCallback(env: Env, s: LcpState, p: bytes, tough: bool): Verdict<LcpState> {
    var c := Context(s.ao, s.go, env.multilink, env.magic);
    var r := ReqCi(c, s.drawn, p, tough);
    var seen := ReqSeen(c, s.drawn, p);
    Verdict(s.(ho := seen.ho, drawn := seen.drawn), r.0, r.1)
  }

  function Unmagic(o: Options): Options {
    if Magic in o.neg then o else o.(magic := 0)
  }

  function UpCallback(env: Env, s: LcpState): Raised<LcpState> {
    var u := s.(go := Unmagic(s.go), ho := Unmagic(s.ho),
                peerMru := if Mru in s.ho.neg then s.ho.mru else s.peerMru);
    Raised(u, env.refuseLink(u))
  }

  /** An echo is answered with our magic number in front, and only while opened. */
  function ExtCallback(s: LcpState, isOpen: bool, pk: Packet): Handled {
    if pk.code == ECHOREQ && isOpen then
      var m := PutLong(s.go.magic);
      var data := if |pk.data| >= 4 then m + pk.data[4..] else m[..|pk.data|];
      Handled(true, [Packet(ECHOREP, pk.id, data)])
    else Handled(PROTREJ <= pk.code <= DISCREQ, [])
  }

  function LcpCallbacks(env: Env): Callbacks<LcpState> {
    Callbacks(
      s => ResetCi(env, s),
      (s: LcpState, room: int) => (s, Clip(AddCi(s.go), room)),
      (s: LcpState, p: bytes) => p == AddCi(s.go),
      (s: LcpState, isOpen: bool, p: bytes) => NakCallback(env, s, isOpen, p),
      (s: LcpState, isOpen: bool, p: bytes) => RejCallback(s, isOpen, p),
      (s: LcpState, p: bytes, tough: bool) => ReqCallback(env, s, p, tough),
      s => UpCallback(env, s),
      (s: LcpState) => s.(peerMru := PPP_MRU),
      (s: LcpState, isOpen: bool, pk: Packet) => ExtCallback(s, isOpen, pk),
      (s: LcpState) => s.peerMru,
      true)
  }

  /** What every LCP state keeps: a packet limit no peer can push below the
      smallest allowed, and requests within what was wanted. */
  predicate Kept(s: LcpState) {
    && MINMRU as int <= s.peerMru < 0x1_0000
    && (Mru in s.ho.neg ==> s.ho.mru >= MINMRU)
    && (s.resets > 0 ==> WithinWishes(s.wo, s.go))
  }

  function LcpProto(env: Env): Agreement.Proto<LcpState> {
    Agreement.Proto(LcpCallbacks(env), (s: LcpState) => AddCi(s.go), (s: LcpState) => Kept(s))
  }

  // ---- What the callbacks do ----

  /** What a reset leaves wanted, asked for and allowed: a new magic number and no loops counted; asked for what is
      wanted, but multilink only if it is on and no protocol we have no secrets for; allowed as before, but an endpoint
      only if we may and just the protocols we can be asked for. */
  lemma ResetMeans(env: Env, s: LcpState)
    ensures var t := ResetCi(env, s);
            && t.wo == s.wo.(magic := env.magic(s.drawn), numloops := 0) && t.go == t.wo.(neg := t.go.neg)
            && (forall f :: f in t.go.neg <==>
                  && f in s.wo.neg && (f in {Mrru, Ssnhf, Endpoint} ==> env.multilink)
                  && !(f in AUTH && f in env.secrets(s.resets).drops))
            && t.ao == s.ao.(neg := t.ao.neg) && t.ho == s.ho && t.peerMru == 1500
            && (forall f :: f in t.ao.neg <==>
                  if f in AUTH then f in env.secrets(s.resets).offers
                  else f in s.ao.neg && !(f == Endpoint && env.noEndpoint))
  {
  }

  /** Once opened, packets are as large as the peer asked for, 1500 octets if it did not, and a magic number not
      negotiated is zero. */
  lemma UpMeans(env: Env, s: LcpState)
    ensures var t := UpCallback(env, s).opts;
            && t.peerMru == (if Mru in s.ho.neg then s.ho.mru else s.peerMru)
            && t.go.magic == (if Magic in s.go.neg then s.go.magic else 0)
            && t.ho.magic == (if Magic in s.ho.neg then s.ho.magic else 0)
            && t == s.(peerMru := t.peerMru, go := s.go.(magic := t.go.magic), ho := s.ho.(magic := t.ho.magic))
  {
  }

  /** An Echo-Request that reaches an opened machine draws exactly one packet, an Echo-Reply with its id and its
      contents, our magic number in place of the first four octets as far as they go; in any other state it draws
      none. */
  lemma EchoAnswered(env: Env, m: Machine<LcpState>, id: byte, data: bytes, padding: bytes)
    requires !FsmTable.Early(m.state) && |data| + HEADERLEN < 0x1_0000
    ensures var n := Step(LcpCallbacks(env), m, EvInput(Format(Packet(ECHOREQ, id, data)) + padding));
            var magic := PutLong(m.opts.go.magic);
            var body := if |data| >= 4 then magic + data[4..] else magic[..|data|];
            n == m.(sent := m.sent + if m.state.Opened?
                                     then [Packet(ECHOREP, id, Clip(body, m.opts.peerMru - HEADERLEN))] else [])
  {
    hide Parse, Format, PutLong, Clip;
    var pk := Packet(ECHOREQ, id, data);
    ParseFormat(pk, padding);
    var cb := LcpCallbacks(env);
    var h := cb.extcode(m.opts, m.state.Opened?, pk);
    if m.state.Opened? {
      var r := h.reply[0];
      assert h.reply == [r] && [r][1..] == [];
      assert SendAll(cb, m, [r]) == SendAll(cb, Send(cb, m, r.code, r.id, r.data), []);
    }
  }

  // ---- The callbacks are faithful ----

  lemma UnmagicSame(o: Options)
    ensures AddCi(Unmagic(o)) == AddCi(o)
  {
    hide Ci, LenCi, PutShort, PutLong, Digest;
    if Magic !in o.neg {
      var u := o.(magic := 0);
      assert AddAuth(u) == AddAuth(o);
      NoMagicCi(u, o);
      assert AddMagic(u) == AddMagic(o);
    }
  }

  lemma NoMagicCi(u: Options, o: Options)
    requires Magic !in o.neg && Magic !in u.neg
    ensures MagicCi(u) == MagicCi(o)
  {
  }

  lemma JudgeKeepsMru(c: Context, s: Seen, x: Piece)
    requires Mru in s.ho.neg ==> s.ho.mru >= MINMRU
    ensures var t := JudgePiece(c, s, x).seen; Mru in t.ho.neg ==> t.ho.mru >= MINMRU
  {
    hide GetShort, GetLong, BitsIn, CanDigest, MdOf, Digest;
  }

  lemma {:induction false} SeenKeepsMru(c: Context, s: Seen, xs: seq<Piece>)
    requires Mru in s.ho.neg ==> s.ho.mru >= MINMRU
    ensures var t := SeenAfter(c, s, xs); Mru in t.ho.neg ==> t.ho.mru >= MINMRU
  {
    hide JudgePiece;
    if xs != [] {
      SeenKeepsMru(c, s, xs[..|xs| - 1]);
      JudgeKeepsMru(c, SeenAfter(c, s, xs[..|xs| - 1]), xs[|xs| - 1]);
    }
  }

  lemma ResetKept(env: Env, s: LcpState)
    requires Kept(s)
    ensures Kept(ResetCi(env, s))
  {
    hide BitsIn;
    InItself(s.wo.asyncmap);
  }

  lemma RefusalsKept(env: Env, s: LcpState, isOpen: bool, p: bytes)
    requires Kept(s)
    ensures Kept(NakCallback(env, s, isOpen, p).opts) && Kept(RejCallback(s, isOpen, p).opts)
  {
    hide WithinWishes, NakCi, RejFrom;
    NakYields(s.go, s.wo, isOpen, p, env.magic(s.drawn), env.loopLimit);
    var n := NakCi(s.go, s.wo, isOpen, p, env.magic(s.drawn), env.loopLimit);
    if s.resets > 0 {
      YieldsKeeps(s.wo, s.go, n.go);
      RejYields(s.go, s.wo, p);
      if RejCi(s.go, p).Good? {
        YieldsKeeps(s.wo, s.go, RejCi(s.go, p).opts);
      }
    }
  }

  lemma RejYields(o: Options, wo: Options, p: bytes)
    ensures RejCi(o, p).Good? ==> Yields(wo, o, RejCi(o, p).opts)
  {
    hide Slots, RejFrom, BitsIn;
    InItself(o.asyncmap);
    if RejCi(o, p).Good? {
      RejKeepsValues(Slots(o), 0, p, o);
    }
  }

  lemma AnswersKept(env: Env, s: LcpState, p: bytes, tough: bool)
    requires Kept(s)
    ensures var v := ReqCallback(env, s, p, tough);
            && Kept(v.opts) && v.opts.go == s.go
            && CONFACK <= v.code <= CONFREJ && (v.code == CONFACK ==> v.reply == p)
  {
    hide Pieces, Rulings, SeenAfter, RefusedPart, CounterPart, WithinWishes;
    SeenKeepsMru(Context(s.ao, s.go, env.multilink, env.magic), Seen(NoOptions, s.drawn), Pieces(p));
  }

  lemma UpKept(env: Env, s: LcpState)
    ensures Kept(s) ==> Kept(UpCallback(env, s).opts)
    ensures AddCi(UpCallback(env, s).opts.go) == AddCi(s.go)
  {
    hide AddCi, BitsIn;
    UnmagicSame(s.go);
  }

  /** LCP sends its current options, accepts as Ack only their exact octets, and
      Acks only by returning a request unchanged. */
  lemma LcpFaithful(env: Env)
    ensures Agreement.Faithful(LcpProto(env))
  {
    hide Kept, AddCi, ResetCi, NakCallback, RejCallback, ReqCallback, UpCallback, Clip, Agreement.FaithfulSizes,
    Agreement.FaithfulRequests, Agreement.FaithfulRefusals, Agreement.FaithfulAnswers, Agreement.FaithfulCalls,
    Agreement.FaithfulExtras;
    LcpSizes(env);
    LcpRequests(env);
    LcpRefusals(env);
    LcpAnswers(env);
    LcpCalls(env);
    LcpExtras(env);
  }

  lemma LcpSizes(env: Env)
    ensures Agreement.FaithfulSizes(LcpProto(env))
  {
    hide AddCi, WithinWishes;
    forall s: LcpState
      ensures |AddCi(s.go)| <= MINMRU - 4
    {
      CiLenExact(s.go);
    }
  }

  lemma LcpRequests(env: Env)
    ensures Agreement.FaithfulRequests(LcpProto(env))
  {
    hide Kept, AddCi, ResetCi, WithinWishes;
    forall s: LcpState | Kept(s)
      ensures Kept(ResetCi(env, s))
    {
      ResetKept(env, s);
    }
  }

  lemma LcpRefusals(env: Env)
    ensures Agreement.FaithfulRefusals(LcpProto(env))
  {
    hide Kept, NakCallback, RejCallback;
    forall s: LcpState, b: bool, p: bytes | Kept(s)
      ensures Kept(NakCallback(env, s, b, p).opts) && Kept(RejCallback(s, b, p).opts)
    {
      RefusalsKept(env, s, b, p);
    }
  }

  lemma LcpAnswers(env: Env)
    ensures Agreement.FaithfulAnswers(LcpProto(env))
  {
    hide Kept, AddCi, ReqCallback;
    forall s: LcpState, p: bytes, tough: bool | Kept(s)
      ensures var v := ReqCallback(env, s, p, tough);
              && Kept(v.opts) && v.opts.go == s.go
              && CONFACK <= v.code <= CONFREJ && (v.code == CONFACK ==> v.reply == p)
    {
      AnswersKept(env, s, p, tough);
    }
  }

  lemma LcpCalls(env: Env)
    ensures Agreement.FaithfulCalls(LcpProto(env))
  {
    hide AddCi, UpCallback, WithinWishes;
    forall s: LcpState | Kept(s)
      ensures Kept(UpCallback(env, s).opts)
    {
      UpKept(env, s);
    }
  }

  lemma LcpExtras(env: Env)
    ensures Agreement.FaithfulExtras(LcpProto(env))
  {
    hide Kept, AddCi, PutLong;
  }

  /** A unit as it starts: nothing negotiated yet, the default packet limit. */
  function StartState(wo: Options, ao: Options): LcpState {
    LcpState(wo, NoOptions, ao, NoOptions, PPP_MRU, 0, 0)
  }

  lemma UpStands(env: Env, s: LcpState)
    ensures AddCi(Agreement.AfterUp(LcpCallbacks(env), s).go) == AddCi(s.go)
  {
    hide AddCi, UpCallback;
    UpKept(env, s);
  }

  /** Two LCP machines on a line that loses, repeats, delays and reorders but does
      not forge: whenever one opens, the other has Acked exactly the octets its
      current options stand for, and it has itself Acked, unchanged, the last
      request it answered. */
  lemma LcpOpensInAgreement(ea: Env, eb: Env, woa: Options, aoa: Options, wob: Options, aob: Options,
                            la: Limits, lb: Limits, mvs: seq<Agreement.Move>, mv: Agreement.Move)
    requires Agreement.AllowedRun(LcpProto(ea), LcpProto(eb),
                                  Agreement.Start(StartState(woa, aoa), StartState(wob, aob), la, lb), mvs + [mv])
    ensures var s0 := Agreement.Start(StartState(woa, aoa), StartState(wob, aob), la, lb);
            var s := Agreement.RunPair(LcpProto(ea), LcpProto(eb), s0, mvs);
            var t := Agreement.RunPair(LcpProto(ea), LcpProto(eb), s0, mvs + [mv]);
            match mv
            case ByA(e) => t.b == s.b && Agreement.StandsInAgreement(LcpProto(ea), s.a, e, t.a, t.b.sent)
            case ByB(e) => t.a == s.a && Agreement.StandsInAgreement(LcpProto(eb), s.b, e, t.b, t.a.sent)
  {
    hide Agreement.Faithful, Agreement.RunPair, Agreement.AllowedRun, Agreement.Ups, Agreement.Entering,
    Agreement.AfterUp, LcpCallbacks, AddCi;
    LcpFaithful(ea);
    LcpFaithful(eb);
    var s0 := Agreement.Start(StartState(woa, aoa), StartState(wob, aob), la, lb);
    Agreement.OpensInAgreement(LcpProto(ea), LcpProto(eb), StartState(woa, aoa), StartState(wob, aob), la, lb, mvs, mv);
    var s := Agreement.RunPair(LcpProto(ea), LcpProto(eb), s0, mvs);
    match mv
    case ByA(e) => EnteringStands(ea, s.a, e);
    case ByB(e) => EnteringStands(eb, s.b, e);
  }

  lemma EnteringStands(env: Env, m: Machine<LcpState>, e: Event)
    ensures var opens := Agreement.Entering(LcpCallbacks(env), m, e);
            opens.Some? ==> AddCi(Agreement.AfterUp(LcpCallbacks(env), opens.value).go) == AddCi(opens.value.go)
  {
    hide Agreement.Entering, Agreement.AfterUp, LcpCallbacks, AddCi;
    var opens := Agreement.Entering(LcpCallbacks(env), m, e);
    if opens.Some? {
      UpStands(env, opens.value);
    }
  }

  /** The machine that sends that Ack has, at that moment, recorded exactly the options the request asked for,
      and all their flags if it does not allow the quality protocol. */
  lemma AckRecordsRequest(env: Env, s: LcpState, o: Options, tough: bool)
    requires ReqCallback(env, s, AddCi(o), tough).code == CONFACK
    ensures var ho := ReqCallback(env, s, AddCi(o), tough).opts.ho;
            LcpMirror.Mirrors(o, ho, SLOTS) && (Lqr !in s.ao.neg ==> ho.neg == LcpMirror.SentFlags(o))
  {
    hide LcpMirror.Mirrors, LcpMirror.SentFlags, ReqCi, ReqSeen, AddCi;
    LcpMirror.AckMirrors(Context(s.ao, s.go, env.multilink, env.magic), s.drawn, o, tough);
  }

  /** A machine's record mirrors the options a request stands for. */
  ghost predicate Records(s: LcpState, data: bytes) {
    exists o: Options ::
      && data == AddCi(o) && LcpMirror.Mirrors(o, s.ho, SLOTS)
      && (Lqr !in s.ao.neg ==> s.ho.neg == LcpMirror.SentFlags(o))
  }

  lemma UpMirrors(env: Env, s: LcpState, o: Options)
    requires LcpMirror.Mirrors(o, s.ho, SLOTS)
    ensures var t := Agreement.AfterUp(LcpCallbacks(env), s);
            t.ao == s.ao && t.ho.neg == s.ho.neg && LcpMirror.Mirrors(o, t.ho, SLOTS)
  {
    hide AddCi, SentSlots;
  }

  lemma AckRecords(env: Env, eb: Env, m: Machine<LcpState>, e: Event, n: Machine<LcpState>, pk: Packet)
    requires Agreement.AnswersRequest(LcpProto(env), m, e, n, pk) && Agreement.Asked(LcpProto(eb), pk.data)
    ensures Records(n.opts, pk.data)
  {
    hide LcpMirror.Mirrors, LcpMirror.SentFlags, AddCi, ReqCi, ReqSeen, Parse, FsmRuns.Judged, Agreement.Entering,
    Agreement.AfterUp;
    var s: LcpState :| LcpProto(eb).ok(s) && pk.data == LcpProto(eb).ci(s);
    var o := s.go;
    var j := FsmRuns.Judged(LcpCallbacks(env), m);
    var v := ReqCallback(env, j.opts, pk.data, j.nakloops >= j.limits.maxNak);
    AckRecordsRequest(env, j.opts, o, j.nakloops >= j.limits.maxNak);
    UpMirrors(env, v.opts, o);
    assert Records(n.opts, AddCi(o));
  }

  /** Every Ack that a step of one machine sends answers a request the other sent, and the machine's record of the
      other then mirrors the options that request stands for. */
  ghost predicate AcksRecord(m: Machine<LcpState>, n: Machine<LcpState>, theirs: seq<Packet>) {
    forall i | |m.sent| <= i < |n.sent| && n.sent[i].code == CONFACK ::
      Packet(CONFREQ, n.sent[i].id, n.sent[i].data) in theirs && Records(n.opts, n.sent[i].data)
  }

  lemma StepAcksRecord(env: Env, eb: Env, m: Machine<LcpState>, e: Event, n: Machine<LcpState>, theirs: seq<Packet>)
    requires Agreement.AcksAnswer(LcpProto(env), LcpProto(eb), m, e, n, theirs)
    ensures AcksRecord(m, n, theirs)
  {
    hide Records, Agreement.AnswersRequest, Agreement.Asked, LcpProto;
    forall i | |m.sent| <= i < |n.sent| && n.sent[i].code == CONFACK
      ensures Records(n.opts, n.sent[i].data)
    {
      AckRecords(env, eb, m, e, n, n.sent[i]);
    }
  }

  /** Two LCP machines on such a line: whenever one sends an Ack, it returns a request the other sent, and its
      record of the other mirrors the options asked for, value for value. */
  lemma LcpAcksRecord(ea: Env, eb: Env, woa: Options, aoa: Options, wob: Options, aob: Options,
                      la: Limits, lb: Limits, mvs: seq<Agreement.Move>, mv: Agreement.Move)
    requires Agreement.AllowedRun(LcpProto(ea), LcpProto(eb),
                                  Agreement.Start(StartState(woa, aoa), StartState(wob, aob), la, lb), mvs + [mv])
    ensures var s0 := Agreement.Start(StartState(woa, aoa), StartState(wob, aob), la, lb);
            var s := Agreement.RunPair(LcpProto(ea), LcpProto(eb), s0, mvs);
            var t := Agreement.RunPair(LcpProto(ea), LcpProto(eb), s0, mvs + [mv]);
            if mv.ByA? then AcksRecord(s.a, t.a, t.b.sent) else AcksRecord(s.b, t.b, t.a.sent)
  {
    hide Agreement.Faithful, Agreement.RunPair, Agreement.AllowedRun, Agreement.AcksAnswer, AcksRecord, LcpCallbacks,
    AddCi;
    LcpFaithful(ea);
    LcpFaithful(eb);
    var s0 := Agreement.Start(StartState(woa, aoa), StartState(wob, aob), la, lb);
    Agreement.RunAcksAnswer(LcpProto(ea), LcpProto(eb), StartState(woa, aoa), StartState(wob, aob), la, lb, mvs, mv);
    var s := Agreement.RunPair(LcpProto(ea), LcpProto(eb), s0, mvs);
    var t := Agreement.RunPair(LcpProto(ea), LcpProto(eb), s0, mvs + [mv]);
    match mv
    case ByA(e) => StepAcksRecord(ea, eb, s.a, e, t.a, t.b.sent);
    case ByB(e) => StepAcksRecord(eb, ea, s.b, e, t.b, t.a.sent);
  }

  /** No callback ever allows the quality protocol, or stops allowing it. */
  lemma QualityHeld(env: Env, s: LcpState, room: int, isOpen: bool, p: bytes, tough: bool)
    ensures var cb := LcpCallbacks(env);
            forall t | t in [cb.resetci(s), cb.addci(s, room).0, cb.nakci(s, isOpen, p).opts,
                             cb.rejci(s, isOpen, p).opts, cb.reqci(s, p, tough).opts, cb.up(s).opts, cb.down(s)] ::
              Lqr in t.ao.neg <==> Lqr in s.ao.neg
  {
    hide AddCi, NakCi, RejCi, ReqCi, ReqSeen;
  }

  /** While a machine stays in AckRcvd the options it asked for, and so the request that was Acked, stand. */
  lemma RequestHeldWhileAcked(env: Env, s: LcpState, limits: Limits, es: seq<Event>, e: Event)
    requires Run(LcpCallbacks(env), Fresh(s, limits), es).state.AckRcvd?
    requires Step(LcpCallbacks(env), Run(LcpCallbacks(env), Fresh(s, limits), es), e).state.AckRcvd?
    ensures var m := Run(LcpCallbacks(env), Fresh(s, limits), es);
            Step(LcpCallbacks(env), m, e).opts.go == m.opts.go
  {
    hide Run, Step, Fresh, ReqCi, ReqSeen, AddCi;
    hide ResetCi, NakCallback, RejCallback, UpCallback, ExtCallback, Clip, Parse;
    FsmRuns.OptionsHeldWhileAcked(LcpCallbacks(env), s, limits, es, e);
  }

  // ---- Naks and Rejects within one negotiation ----

  datatype Reply = NakOf(p: bytes, isOpen: bool, newMagic: u32) | RejOf(p: bytes)

  function AfterReply(go: Options, wo: Options, loopLimit: int, r: Reply): Options {
    match r
    case NakOf(p, isOpen, newMagic) => NakCi(go, wo, isOpen, p, newMagic, loopLimit).go
    case RejOf(p) => if RejCi(go, p).Good? then RejCi(go, p).opts else go
  }

  function AfterReplies(go: Options, wo: Options, loopLimit: int, rs: seq<Reply>): Options {
    if rs == [] then go
    else AfterReply(AfterReplies(go, wo, loopLimit, rs[..|rs| - 1]), wo, loopLimit, rs[|rs| - 1])
  }

  lemma ReplyYields(go: Options, wo: Options, loopLimit: int, r: Reply)
    ensures Yields(wo, go, AfterReply(go, wo, loopLimit, r))
  {
    hide NakCi, RejFrom, BitsIn;
    InItself(go.asyncmap);
    match r
    case NakOf(p, isOpen, newMagic) => NakYields(go, wo, isOpen, p, newMagic, loopLimit);
    case RejOf(p) => RejYields(go, wo, p);
  }

  /** Whatever Naks and Rejects follow one another, good or bad: the asyncmap asked
      for only gains bits, the MRU asked for never exceeds the larger of the one
      wanted and 1500, and the MRRU asked for never exceeds the one wanted. */
  lemma {:induction false} RepliesBounded(go: Options, wo: Options, loopLimit: int, rs: seq<Reply>)
    requires WithinWishes(wo, go)
    ensures WithinWishes(wo, AfterReplies(go, wo, loopLimit, rs))
    ensures BitsIn(go.asyncmap, AfterReplies(go, wo, loopLimit, rs).asyncmap)
  {
    hide AfterReply, BitsIn;
    if rs == [] {
      InItself(go.asyncmap);
    } else {
      var n := |rs| - 1;
      RepliesBounded(go, wo, loopLimit, rs[..n]);
      var o := AfterReplies(go, wo, loopLimit, rs[..n]);
      ReplyYields(o, wo, loopLimit, rs[n]);
      var o' := AfterReply(o, wo, loopLimit, rs[n]);
      YieldsKeeps(wo, o, o');
      InTransitive(go.asyncmap, o.asyncmap, o'.asyncmap);
    }
  }

  /** The same taken one reply after another, stopping for nothing: what is left is what the replies call for,
      within what was wanted. */
  method TakeReplies(go: Options, wo: Options, loopLimit: int, rs: seq<Reply>) returns (go': Options)
    ensures go' == AfterReplies(go, wo, loopLimit, rs)
    ensures WithinWishes(wo, go) ==> WithinWishes(wo, go') && BitsIn(go.asyncmap, go'.asyncmap)
  {
    hide NakCi, RejCi, WithinWishes, BitsIn;
    go' := go;
    for i := 0 to |rs|
      invariant go' == AfterReplies(go, wo, loopLimit, rs[..i])
    {
      assert rs[..i + 1][..i] == rs[..i];
      match rs[i] {
        case NakOf(p, isOpen, newMagic) =>
          var r := NakOptions(go', wo, isOpen, p, newMagic, loopLimit);
          go' := r.go;
        case RejOf(p) =>
          var ret;
          ret, go' := RejectOptions(go', false, p);
      }
    }
    assert rs[..|rs|] == rs;
    if WithinWishes(wo, go) {
      RepliesBounded(go, wo, loopLimit, rs);
    }
  }

  // ---- The Nak counter of LCP ----

  /** An option carrying our own magic number. */
  predicate EchoesOurMagic(c: Context, x: Piece) {
    && x.whole && |x.octets| == CILEN_LONG && x.octets[0] == CI_MAGICNUMBER
    && Magic in c.go.neg && GetLong(x.octets[2..6]) == c.go.magic
  }

  lemma ToughCounter(c: Context, s: Seen, x: Piece)
    ensures Toughened(JudgePiece(c, s, x).ruling, x, true).Counter? <==> EchoesOurMagic(c, x)
  {
    hide GetLong, GetShort, PutLong, PutShort, BitsIn, CanDigest, Digest, MdOf;
  }

  /** A request in which our own magic number comes back and nothing is refused even by one told to get tough. */
  predicate OnlyEchoed(c: Context, drawn: nat, p: bytes) {
    && (exists k | 0 <= k < |Pieces(p)| :: EchoesOurMagic(c, Pieces(p)[k]))
    && (forall r | r in Rulings(c, Seen(NoOptions, drawn), Pieces(p), true) :: !r.Refuse?)
  }

  /** Told to get tough, LCP still Naks exactly those requests. */
  lemma ToughNakIff(c: Context, drawn: nat, p: bytes)
    ensures ReqCi(c, drawn, p, true).0 == CONFNAK <==> OnlyEchoed(c, drawn, p)
  {
    hide JudgePiece, EchoesOurMagic, Pieces, Rulings, RefusedPart, CounterPart;
    var xs := Pieces(p);
    var s := Seen(NoOptions, drawn);
    var rs := Rulings(c, s, xs, true);
    forall k | 0 <= k < |xs|
      ensures rs[k].Counter? <==> EchoesOurMagic(c, xs[k])
    {
      RulingAt(c, s, xs, true, k);
      ToughCounter(c, SeenAfter(c, s, xs[..k]), xs[k]);
      assert xs[..k + 1][..k] == xs[..k];
    }
  }

  lemma OnlyMagicNaks(c: Context, drawn: nat, tough: bool)
    requires Magic in c.go.neg
    ensures ReqCi(c, drawn, Ci(true, CI_MAGICNUMBER, PutLong(c.go.magic)), tough).0 == CONFNAK
  {
    hide PutLong, GetLong, PutShort, GetShort;
    var p := Ci(true, CI_MAGICNUMBER, PutLong(c.go.magic));
    LongRoundTrip(c.go.magic, PutLong(c.go.magic));
    assert p[2..6] == PutLong(c.go.magic);
    assert p[..6] == p && p[6..] == [];
    var x := Piece(p, true);
    assert Pieces(p) == [x] + Pieces(p[6..]);
    assert Pieces(p) == [x];
    var s := Seen(NoOptions, drawn);
    RulingAt(c, s, [x], tough, 0);
    assert [x][..1] == [x] && [x][..0] == [];
    assert JudgePiece(c, s, x).ruling.Counter?;
  }

  /** A request holding nothing but a magic number. */
  function MagicRequest(id: byte, magic: u32): Packet {
    Packet(CONFREQ, id, Ci(true, CI_MAGICNUMBER, PutLong(magic)))
  }

  lemma MagicNakStep(env: Env, m: Machine<LcpState>, id: byte)
    requires m.state.ReqSent? && Magic in m.opts.go.neg
    ensures var n := Step(LcpCallbacks(env), m, EvInput(Format(MagicRequest(id, m.opts.go.magic))));
            n.state.ReqSent? && n.nakloops == m.nakloops + 1 && n.opts.go == m.opts.go
  {
    hide ReqCi, ReqSeen, PutLong, Clip, Format, Parse;
    var pk := MagicRequest(id, m.opts.go.magic);
    assert Format(pk) + [] == Format(pk);
    ParseFormat(pk, []);
    OnlyMagicNaks(Context(m.opts.ao, m.opts.go, env.multilink, env.magic), m.opts.drawn, m.nakloops >= m.limits.maxNak);
  }

  /** A machine opened over a line that returns n requests with its own magic number. */
  function LoopedBack(env: Env, id: byte, n: nat): seq<Event> {
    if n == 0 then [EvOpen(Flags(false, false, false)), EvUp]
    else LoopedBack(env, id, n - 1) + [EvInput(Format(MagicRequest(id, env.magic(0))))]
  }

  lemma StartsAsking(env: Env, wo: Options, ao: Options, limits: Limits)
    ensures var m := Run(LcpCallbacks(env), Fresh(StartState(wo, ao), limits),
                         [EvOpen(Flags(false, false, false)), EvUp]);
            m.state.ReqSent? && m.nakloops == 0 && m.opts.go.magic == env.magic(0) && m.opts.wo.neg == wo.neg &&
            (Magic in wo.neg ==> Magic in m.opts.go.neg)
  {
    hide AddCi, Clip;
    var cb := LcpCallbacks(env);
    var e0, e1 := EvOpen(Flags(false, false, false)), EvUp;
    var m0 := Fresh(StartState(wo, ao), limits);
    var es := [e0, e1];
    assert es[..1] == [e0] && [e0][..0] == [];
    assert Run(cb, m0, []) == m0;
    assert Run(cb, m0, [e0]) == Step(cb, m0, e0);
    assert Run(cb, m0, es) == Step(cb, Run(cb, m0, es[..1]), e1);
  }

  /** A request holding nothing but our own magic number is Nak'd however often that has happened before, so
      from the start of a machine that wants a magic number the Nak counter reaches every number. */
  lemma {:induction false} MagicNakPassesLimit(env: Env, wo: Options, ao: Options, limits: Limits, id: byte, n: nat)
    requires Magic in wo.neg
    ensures var m := Run(LcpCallbacks(env), Fresh(StartState(wo, ao), limits), LoopedBack(env, id, n));
            m.state.ReqSent? && m.nakloops == n && m.opts.go.magic == env.magic(0) && Magic in m.opts.go.neg
  {
    hide LcpCallbacks, Step, Fresh, Format;
    if n == 0 {
      StartsAsking(env, wo, ao, limits);
    } else {
      MagicNakPassesLimit(env, wo, ao, limits, id, n - 1);
      var es := LoopedBack(env, id, n);
      assert es[..|es| - 1] == LoopedBack(env, id, n - 1);
      MagicNakStep(env, Run(LcpCallbacks(env), Fresh(StartState(wo, ao), limits), es[..|es| - 1]), id);
    }
  }

  /** Past the limit a request comes that carries our own magic number and holds nothing to refuse. */
  predicate EchoedWhileTough(env: Env, m: Machine<LcpState>, e: Event) {
    && e.EvInput? && Parse(e.frame).Some? && Parse(e.frame).value.code == CONFREQ && FsmRuns.Judges(m.state)
    && var j := FsmRuns.Judged(LcpCallbacks(env), m);
    && j.nakloops >= j.limits.maxNak
    && OnlyEchoed(Context(j.opts.ao, j.opts.go, env.multilink, env.magic), j.opts.drawn, Parse(e.frame).value.data)
  }

  lemma EchoedIffNaks(env: Env, m: Machine<LcpState>, e: Event)
    ensures EchoedWhileTough(env, m, e) <==> FsmRuns.NaksWhileTough(LcpCallbacks(env), m, e)
  {
    hide ReqCi, ReqSeen, Parse, OnlyEchoed, FsmRuns.Judged;
    if e.EvInput? && Parse(e.frame).Some? {
      var j := FsmRuns.Judged(LcpCallbacks(env), m);
      ToughNakIff(Context(j.opts.ao, j.opts.go, env.multilink, env.magic), j.opts.drawn, Parse(e.frame).value.data);
    }
  }

  /** On every run LCP's Nak counter stays within its limit exactly if, once the limit is reached, no request
      returns our own magic number without something to refuse. */
  lemma LcpNakBoundedIff(env: Env, s: LcpState, limits: Limits, es: seq<Event>)
    ensures FsmRuns.NakBoundedThroughout(LcpCallbacks(env), Fresh(s, limits), es) <==>
              forall k | 0 <= k < |es| ::
                !EchoedWhileTough(env, Run(LcpCallbacks(env), Fresh(s, limits), es[..k]), es[k])
  {
    hide FsmRuns.NakBoundedThroughout, EchoedWhileTough, FsmRuns.NaksWhileTough, LcpCallbacks, Run, Fresh;
    FsmRuns.RunNakBoundedIff(LcpCallbacks(env), s, limits, es);
    forall k | 0 <= k < |es|
      ensures var m := Run(LcpCallbacks(env), Fresh(s, limits), es[..k]);
              EchoedWhileTough(env, m, es[k]) <==> FsmRuns.NaksWhileTough(LcpCallbacks(env), m, es[k])
    {
      EchoedIffNaks(env, Run(LcpCallbacks(env), Fresh(s, limits), es[..k]), es[k]);
    }
  }
}
