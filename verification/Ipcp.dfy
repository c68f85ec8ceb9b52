/** IPCP as a protocol on the automaton: its callbacks, the Nak limit, and agreement of two IPCP machines. */
module Ipcp {
  import opened Wire
  import opened Fsm
  import opened IpcpOptions
  import FsmRuns
  import L = LcpOptions
  import Q = IpcpRequest
  import R = LcpRequest
  import Agreement
  import IpcpMirror

  /** What IPCP takes from outside. The handling of Naks and Rejects of our own request and the rest of
      coming up are parameters: each may be any function. */
  datatype Env = Env(
    askForLocal: bool,
    usePeerDns: bool,
    usePeerWins: bool,
    ignoreLocal: bool,
    choosePeer: Option<L.u32 -> L.u32>,
    nakci: (Options, Options, bool, bytes) -> (Options, int),
    rejci: (Options, Options, bool, bytes) -> (Options, int),
    settle: IpState -> Settled)

  /** What coming up makes of our wishes and the peer's options, and why it closes at once, if it does. */
  datatype Settled = Settled(wo: Options, ho: Options, close: Option<bytes>)

  datatype IpState = IpState(wo: Options, go: Options, ao: Options, ho: Options, mru: int)

  function With(neg: set<Flag>, fs: set<Flag>, on: bool): set<Flag> {
    if on then neg + fs else neg - fs
  }

  predicate Addressed(o: Options) {
    NegAddr in o.neg || OldAddrs in o.neg
  }

  function ResetCi(env: Env, s: IpState): IpState {
    var n1 := With(s.wo.neg, {ReqAddr}, Addressed(s.wo) && Addressed(s.ao));
    var n2 := if s.wo.ouraddr == 0 then n1 + {AcceptLocal} else n1;
    var n3 := if s.wo.hisaddr == 0 then n2 + {AcceptRemote} else n2;
    var n4 := With(n3, {ReqDns1, ReqDns2}, env.usePeerDns);
    var wo := s.wo.(neg := With(n4, {ReqWins1, ReqWins2}, env.usePeerWins));
    var go := if env.askForLocal then wo else wo.(ouraddr := 0);
    var wo' := if env.choosePeer.None? then wo
               else
                 var his := env.choosePeer.value(wo.hisaddr);
                 wo.(hisaddr := his, neg := if his != 0 then wo.neg - {AcceptRemote} else wo.neg);
    s.(wo := wo', go := go)
  }

  /** What a reset leaves wanted and asked for. An address nobody has set will be taken from the peer, a peer
      address chosen by the hook is fixed, the peer is asked for its address if both sides can speak of one,
      name servers are asked for as configured, and everything else is asked for as it is wanted. */
  ghost predicate ResetTo(env: Env, s: IpState, wo: Options, go: Options) {
    && (AcceptLocal in wo.neg <==> AcceptLocal in s.wo.neg || s.wo.ouraddr == 0)
    && (AcceptRemote in wo.neg <==>
          (AcceptRemote in s.wo.neg || s.wo.hisaddr == 0) && !(env.choosePeer.Some? && wo.hisaddr != 0))
    && (AcceptRemote in go.neg <==> AcceptRemote in s.wo.neg || s.wo.hisaddr == 0)
    && (ReqAddr in wo.neg <==> Addressed(s.wo) && Addressed(s.ao))
    && wo.hisaddr == (if env.choosePeer.Some? then env.choosePeer.value(s.wo.hisaddr) else s.wo.hisaddr)
    && (forall f | f in {ReqDns1, ReqDns2} :: f in go.neg <==> env.usePeerDns)
    && (forall f | f in {ReqWins1, ReqWins2} :: f in go.neg <==> env.usePeerWins)
    && (forall f | f in {NegAddr, OldAddrs, NegVj, OldVj} :: f in go.neg <==> f in s.wo.neg)
    && go.ouraddr == (if env.askForLocal then s.wo.ouraddr else 0)
    && go == s.wo.(neg := go.neg, ouraddr := go.ouraddr)
    && (forall f | f != AcceptRemote :: f in wo.neg <==> f in go.neg)
    && wo == s.wo.(neg := wo.neg, hisaddr := wo.hisaddr)
  }

  /** Start a negotiation from the options wanted. */
  method ResetOptions(env: Env, s: IpState) returns (wo: Options, go: Options)
    ensures ResetTo(env, s, wo, go)
    ensures ResetCi(env, s) == s.(wo := wo, go := go)
  {
    wo := s.wo;
    wo := wo.(neg := With(wo.neg, {ReqAddr}, Addressed(wo) && Addressed(s.ao)));
    if wo.ouraddr == 0 {
      wo := wo.(neg := wo.neg + {AcceptLocal});
    }
    if wo.hisaddr == 0 {
      wo := wo.(neg := wo.neg + {AcceptRemote});
    }
    wo := wo.(neg := With(wo.neg, {ReqDns1, ReqDns2}, env.usePeerDns));
    wo := wo.(neg := With(wo.neg, {ReqWins1, ReqWins2}, env.usePeerWins));
    go := wo;
    if !env.askForLocal {
      go := go.(ouraddr := 0);
    }
    if env.choosePeer.Some? {
      wo := wo.(hisaddr := env.choosePeer.value(wo.hisaddr));
      if wo.hisaddr != 0 {
        wo := wo.(neg := wo.neg - {AcceptRemote});
      }
    }
    ResetMeans(env, s, wo, go);
  }

  lemma ResetDoes(env: Env, s: IpState)
    ensures var t := ResetCi(env, s); ResetTo(env, s, t.wo, t.go) && t == s.(wo := t.wo, go := t.go)
  {
  }

  /** The reset of the reference model does that, and the meaning determines it. */
  lemma ResetMeans(env: Env, s: IpState, wo: Options, go: Options)
    ensures ResetTo(env, s, wo, go) <==> ResetCi(env, s) == s.(wo := wo, go := go)
  {
    hide ResetCi;
    var t := ResetCi(env, s);
    ResetDoes(env, s);
    if ResetTo(env, s, wo, go) {
      ResetAlike(env, s, wo, go, t.wo, t.go);
    }
  }

  lemma ResetAlike(env: Env, s: IpState, wo: Options, go: Options, wo': Options, go': Options)
    requires ResetTo(env, s, wo, go) && ResetTo(env, s, wo', go')
    ensures wo == wo' && go == go'
  {
    forall f: Flag
      ensures f in go.neg <==> f in go'.neg
      ensures f in wo.neg <==> f in wo'.neg
    {
      match f {
        case AcceptRemote => assert f in go.neg <==> f in go'.neg;
        case AcceptLocal | ReqAddr | NegAddr | OldAddrs | NegVj | OldVj | ReqDns1 | ReqDns2 | ReqWins1 | ReqWins2 =>
          assert f in wo.neg <==> f in go.neg;
      }
    }
    SameFlags(go.neg, go'.neg);
    SameFlags(wo.neg, wo'.neg);
  }

  lemma SameFlags(a: set<Flag>, b: set<Flag>)
    requires forall f: Flag :: f in a <==> f in b
    ensures a == b
  {
  }

  /** The request built: older forms first, then what fits. */
  function AddCallback(s: IpState, room: int): (IpState, bytes) {
    var go := Fallback(s.wo, s.ho, s.go);
    var b := AddCi(go, if CiLen(go) < room then CiLen(go) else room);
    (s.(go := b.o), b.out)
  }

  function NakCallback(env: Env, s: IpState, isOpen: bool, p: bytes): Refusal<IpState> {
    var r := env.nakci(s.go, s.wo, isOpen, p);
    Refusal(s.(go := r.0), r.1, None)
  }

  function RejCallback(env: Env, s: IpState, isOpen: bool, p: bytes): Refusal<IpState> {
    var r := env.rejci(s.go, s.wo, isOpen, p);
    Refusal(s.(go := r.0), r.1, None)
  }

  function ReqCallback(s: IpState, p: bytes, tough: bool): Verdict<IpState> {
    var r := Q.ReqCi(s.ao, s.wo, p, tough);
    Verdict(s.(wo := r.known.wo, ho := r.known.ho), r.code, r.out)
  }

  function UpCallback(env: Env, s: IpState): Raised<IpState> {
    var u := if env.ignoreLocal then s.(go := s.go.(ouraddr := s.wo.ouraddr)) else s;
    var t := env.settle(u);
    Raised(u.(wo := t.wo, ho := t.ho), t.close)
  }

  function IpcpCallbacks(env: Env): Callbacks<IpState> {
    Callbacks(
      s => ResetCi(env, s),
      (s: IpState, room: int) => AddCallback(s, room),
      (s: IpState, p: bytes) => p == Full(s.go),
      (s: IpState, isOpen: bool, p: bytes) => NakCallback(env, s, isOpen, p),
      (s: IpState, isOpen: bool, p: bytes) => RejCallback(env, s, isOpen, p),
      (s: IpState, p: bytes, tough: bool) => ReqCallback(s, p, tough),
      s => UpCallback(env, s),
      (s: IpState) => s,
      (s: IpState, isOpen: bool, pk: Packet) => Handled(false, []),
      (s: IpState) => s.mru,
      false)
  }

  // ---- The Nak limit ----

  /** Told to get tough, IPCP does not Nak; so on no run does the count of Naks pass its limit. */
  lemma IpcpNakBounded(env: Env, s: IpState, limits: Limits, es: seq<Event>)
    ensures FsmRuns.NakBounded(Run(IpcpCallbacks(env), Fresh(s, limits), es))
    ensures Run(IpcpCallbacks(env), Fresh(s, limits), es).limits == limits
  {
    hide Run, Fresh, FsmRuns.NakBounded;
    assert FsmRuns.GetsTough(IpcpCallbacks(env)) by {
      hide Q.ReqCi;
      forall o: IpState, data: bytes
        ensures ReqCallback(o, data, true).code != CONFNAK
      {
        Q.ToughNeverNaks(o.ao, o.wo, data);
      }
    }
    FsmRuns.RunNakBounded(IpcpCallbacks(env), s, limits, es);
  }

  // ---- Agreement ----

  function IpcpProto(env: Env): Agreement.Proto<IpState> {
    Agreement.Proto(IpcpCallbacks(env), (s: IpState) => Full(s.go), (s: IpState) => 128 <= s.mru < 0x1_0000)
  }

  lemma AddSound(s: IpState, room: int)
    ensures var r := AddCallback(s, room);
            r.0.mru == s.mru && (|Full(r.0.go)| <= room ==> r.1 == Full(r.0.go))
  {
    hide AddCi, Full, CiLen, Fallback;
    var go := Fallback(s.wo, s.ho, s.go);
    CiLenExact(go);
    if CiLen(go) < room {
      AddedInFull(go, CiLen(go));
    } else {
      AskedFitsThenPut(go, room);
    }
  }

  /** To any peer this daemon talks to, the request sent is all that the options ask for, the older forms put in
      where the peer wants them. */
  lemma SendsAllAsked(s: IpState)
    requires 128 <= s.mru
    ensures var r := AddCallback(s, s.mru - HEADERLEN);
            r.0 == s.(go := Fallback(s.wo, s.ho, s.go)) && r.1 == Full(r.0.go)
  {
    hide AddCi, Full, CiLen, Fallback;
    var go := Fallback(s.wo, s.ho, s.go);
    CiLenExact(go);
    AddedInFull(go, CiLen(go));
  }

  lemma IpcpSizes(env: Env)
    ensures Agreement.FaithfulSizes(IpcpProto(env))
  {
    hide Full;
    forall s: IpState
      ensures |Full(s.go)| <= 124
    {
      CiLenExact(s.go);
    }
  }

  lemma IpcpRequests(env: Env)
    ensures Agreement.FaithfulRequests(IpcpProto(env))
  {
    hide Full, AddCallback;
    forall s: IpState, room: int
      ensures var r := AddCallback(s, room); r.0.mru == s.mru && (|Full(r.0.go)| <= room ==> r.1 == Full(r.0.go))
    {
      AddSound(s, room);
    }
  }

  lemma AnswerSound(s: IpState, p: bytes, tough: bool)
    ensures var v := ReqCallback(s, p, tough);
            && v.opts.go == s.go && v.opts.mru == s.mru
            && CONFACK <= v.code <= CONFREJ && (v.code == CONFACK ==> v.reply == p)
  {
    hide Q.ReqCi;
    Q.AckIsRequest(s.ao, s.wo, p, tough);
  }

  lemma IpcpAnswers(env: Env)
    ensures Agreement.FaithfulAnswers(IpcpProto(env))
  {
    hide Full, ReqCallback;
    forall s: IpState, p: bytes, tough: bool
      ensures var v := ReqCallback(s, p, tough);
              && v.opts.go == s.go && v.opts.mru == s.mru
              && CONFACK <= v.code <= CONFREJ && (v.code == CONFACK ==> v.reply == p)
    {
      AnswerSound(s, p, tough);
    }
  }

  lemma IpcpRefusals(env: Env)
    ensures Agreement.FaithfulRefusals(IpcpProto(env))
  {
    hide Full, NakCallback, RejCallback;
    forall s: IpState, b: bool, p: bytes
      ensures NakCallback(env, s, b, p).opts.mru == s.mru && RejCallback(env, s, b, p).opts.mru == s.mru
    {
      RefusalsKeepMru(env, s, b, p);
    }
  }

  lemma RefusalsKeepMru(env: Env, s: IpState, b: bool, p: bytes)
    ensures NakCallback(env, s, b, p).opts.mru == s.mru && RejCallback(env, s, b, p).opts.mru == s.mru
  {
  }

  lemma IpcpCalls(env: Env)
    ensures Agreement.FaithfulCalls(IpcpProto(env)) && Agreement.FaithfulExtras(IpcpProto(env))
  {
    hide Full;
  }

  /** IPCP sends its current options, accepts as Ack only their exact octets, and Acks only by returning a
      request unchanged. */
  lemma IpcpFaithful(env: Env)
    ensures Agreement.Faithful(IpcpProto(env))
  {
    hide Full, Agreement.FaithfulSizes, Agreement.FaithfulRequests, Agreement.FaithfulRefusals,
    Agreement.FaithfulAnswers, Agreement.FaithfulCalls, Agreement.FaithfulExtras;
    IpcpSizes(env);
    IpcpRequests(env);
    IpcpAnswers(env);
    IpcpRefusals(env);
    IpcpCalls(env);
  }

  // ---- Ignoring the negotiated address ----

  lemma SlotWithAddr(o: Options, a: L.u32, k: nat)
    requires k < SLOTS
    ensures |CiOf(o.(ouraddr := a), k)| == |CiOf(o, k)|
    ensures k != 0 && k != 2 ==> CiOf(o.(ouraddr := a), k) == CiOf(o, k)
  {
    hide PutLong, PutShort;
  }

  lemma AddressSlots(o: Options, a: L.u32)
    ensures CiOf(o.(ouraddr := a), 0) == CiOf(o, 0) && CiOf(o.(ouraddr := a), 2) == CiOf(o, 2) <==>
              a == o.ouraddr || !Addressed(o)
  {
    hide PutLong, PutShort;
    var d := o.(ouraddr := a);
    LongRoundTrip(a, PutLong(o.ouraddr));
    LongRoundTrip(o.ouraddr, PutLong(o.ouraddr));
    if NegAddr in o.neg {
      assert CiOf(d, 2)[2..] == PutLong(a) && CiOf(o, 2)[2..] == PutLong(o.ouraddr);
    } else if OldAddrs in o.neg {
      assert CiOf(d, 0)[2..6] == PutLong(a) && CiOf(o, 0)[2..6] == PutLong(o.ouraddr);
    }
  }

  lemma {:induction false} FullWithAddr(o: Options, a: L.u32, k: nat)
    requires k <= SLOTS
    ensures |FullTo(o.(ouraddr := a), k)| == |FullTo(o, k)|
    ensures FullTo(o.(ouraddr := a), k) == FullTo(o, k) <==>
              forall j | 0 <= j < k :: CiOf(o.(ouraddr := a), j) == CiOf(o, j)
  {
    hide CiOf;
    if k > 0 {
      FullWithAddr(o, a, k - 1);
      SlotWithAddr(o, a, k - 1);
      Q.EqualParts(FullTo(o.(ouraddr := a), k - 1), FullTo(o, k - 1), CiOf(o.(ouraddr := a), k - 1), CiOf(o, k - 1));
    }
  }

  /** Opening with these options loses the address just agreed on. */
  predicate Overridden(env: Env, s: IpState) {
    env.ignoreLocal && Addressed(s.go) && s.go.ouraddr != s.wo.ouraddr
  }

  /** Coming up leaves our request standing exactly unless the negotiated local address is ignored, differs
      from the wanted one, and was asked for. */
  lemma UpKeepsRequestIff(env: Env, s: IpState)
    ensures Full(UpCallback(env, s).opts.go) == Full(s.go) <==>
              !Overridden(env, s)
  {
    hide CiOf, FullTo;
    var a := s.wo.ouraddr;
    FullWithAddr(s.go, a, SLOTS);
    AddressSlots(s.go, a);
    forall j | 0 <= j < SLOTS && j != 0 && j != 2
      ensures CiOf(s.go.(ouraddr := a), j) == CiOf(s.go, j)
    {
      SlotWithAddr(s.go, a, j);
    }
  }

  /** What one step of one side did, as for every faithful protocol; and if it opened, the options it is left
      with stand for the request that was Acked exactly if the agreed address was not overridden. */
  predicate OpenedUnlessOverridden(env: Env, m: Machine<IpState>, e: Event, n: Machine<IpState>,
                                   theirs: seq<Packet>) {
    && Agreement.OpenedInAgreement(IpcpProto(env), m, e, n, theirs)
    && var opens := Agreement.Entering(IpcpCallbacks(env), m, e);
    opens.Some? ==>
      && (Full(n.opts.go) == Full(opens.value.go) <==> !Overridden(env, opens.value))
      && (!Overridden(env, opens.value) ==> Agreement.StandsInAgreement(IpcpProto(env), m, e, n, theirs))
  }

  /** Two IPCP machines on a line that loses, repeats, delays and reorders but does not forge: whenever one
      opens, the other has Acked exactly the octets its options then stand for, and it has itself Acked,
      unchanged, the last request it answered. The options it is left with still stand for those octets if and
      only if it did not put the address it wanted over a different one agreed on. */
  lemma IpcpOpensInAgreement(ea: Env, eb: Env, a0: IpState, b0: IpState, la: Limits, lb: Limits,
                             mvs: seq<Agreement.Move>, mv: Agreement.Move)
    requires 128 <= a0.mru < 0x1_0000 && 128 <= b0.mru < 0x1_0000
    requires Agreement.AllowedRun(IpcpProto(ea), IpcpProto(eb), Agreement.Start(a0, b0, la, lb), mvs + [mv])
    ensures var s0 := Agreement.Start(a0, b0, la, lb);
            var s := Agreement.RunPair(IpcpProto(ea), IpcpProto(eb), s0, mvs);
            var t := Agreement.RunPair(IpcpProto(ea), IpcpProto(eb), s0, mvs + [mv]);
            match mv
            case ByA(e) => t.b == s.b && OpenedUnlessOverridden(ea, s.a, e, t.a, t.b.sent)
            case ByB(e) => t.a == s.a && OpenedUnlessOverridden(eb, s.b, e, t.b, t.a.sent)
  {
    hide Agreement.Faithful, Agreement.RunPair, Agreement.AllowedRun, Agreement.OpenedInAgreement,
    IpcpCallbacks, Full, OpenedUnlessOverridden;
    IpcpFaithful(ea);
    IpcpFaithful(eb);
    Agreement.OpensInAgreement(IpcpProto(ea), IpcpProto(eb), a0, b0, la, lb, mvs, mv);
    var s0 := Agreement.Start(a0, b0, la, lb);
    var s := Agreement.RunPair(IpcpProto(ea), IpcpProto(eb), s0, mvs);
    var t := Agreement.RunPair(IpcpProto(ea), IpcpProto(eb), s0, mvs + [mv]);
    match mv
    case ByA(e) => OpeningOverrides(ea, s.a, e, t.a, t.b.sent);
    case ByB(e) => OpeningOverrides(eb, s.b, e, t.b, t.a.sent);
  }

  lemma OpeningOverrides(env: Env, m: Machine<IpState>, e: Event, n: Machine<IpState>, theirs: seq<Packet>)
    requires Agreement.OpenedInAgreement(IpcpProto(env), m, e, n, theirs)
    ensures OpenedUnlessOverridden(env, m, e, n, theirs)
  {
    hide Full, Agreement.Entering, Agreement.Ups, Agreement.Acked, UpCallback;
    var opens := Agreement.Entering(IpcpCallbacks(env), m, e);
    if opens.Some? {
      UpKeepsRequestIff(env, opens.value);
    }
  }

  // ---- What an Ack records ----

  /** The judgement of the request left as record of the peer the mirror of options that the request stands for;
      unless the machine opened, where the layer above may settle it, that is still the record. */
  ghost predicate Records(env: Env, m: Machine<IpState>, e: Event, n: Machine<IpState>, data: bytes) {
    exists o: Options ::
      && data == Full(o) && Agreement.VerdictOn(IpcpCallbacks(env), m, data).opts.ho == IpcpMirror.Mirror(o)
      && (Agreement.Entering(IpcpCallbacks(env), m, e).None? ==> n.opts.ho == IpcpMirror.Mirror(o))
  }

  ghost predicate AcksRecord(env: Env, m: Machine<IpState>, e: Event, n: Machine<IpState>, theirs: seq<Packet>) {
    forall i | |m.sent| <= i < |n.sent| && n.sent[i].code == CONFACK ::
      Packet(CONFREQ, n.sent[i].id, n.sent[i].data) in theirs && Records(env, m, e, n, n.sent[i].data)
  }

  lemma AckRecords(env: Env, eb: Env, m: Machine<IpState>, e: Event, n: Machine<IpState>, pk: Packet)
    requires Agreement.AnswersRequest(IpcpProto(env), m, e, n, pk) && Agreement.Asked(IpcpProto(eb), pk.data)
    ensures Records(env, m, e, n, pk.data)
  {
    hide IpcpMirror.Mirror, Full, Q.ReqCi, Parse, FsmRuns.Judged, Agreement.Entering, Agreement.AfterUp;
    var s: IpState :| IpcpProto(eb).ok(s) && pk.data == IpcpProto(eb).ci(s);
    var j := FsmRuns.Judged(IpcpCallbacks(env), m);
    IpcpMirror.AckMirrors(j.opts.ao, j.opts.wo, s.go, j.nakloops >= j.limits.maxNak);
    assert pk.data == Full(s.go);
  }

  lemma StepAcksRecord(env: Env, eb: Env, m: Machine<IpState>, e: Event, n: Machine<IpState>, theirs: seq<Packet>)
    requires Agreement.AcksAnswer(IpcpProto(env), IpcpProto(eb), m, e, n, theirs)
    ensures AcksRecord(env, m, e, n, theirs)
  {
    hide Records, Agreement.AnswersRequest, Agreement.Asked, IpcpProto;
    forall i | |m.sent| <= i < |n.sent| && n.sent[i].code == CONFACK
      ensures Records(env, m, e, n, n.sent[i].data)
    {
      AckRecords(env, eb, m, e, n, n.sent[i]);
    }
  }

  /** Two IPCP machines on such a line: whenever one sends an Ack, it returns a request the other sent, and judging
      it left as record of the other exactly the addresses and the compression asked for. */
  lemma IpcpAcksRecord(ea: Env, eb: Env, a0: IpState, b0: IpState, la: Limits, lb: Limits,
                       mvs: seq<Agreement.Move>, mv: Agreement.Move)
    requires 128 <= a0.mru < 0x1_0000 && 128 <= b0.mru < 0x1_0000
    requires Agreement.AllowedRun(IpcpProto(ea), IpcpProto(eb), Agreement.Start(a0, b0, la, lb), mvs + [mv])
    ensures var s0 := Agreement.Start(a0, b0, la, lb);
            var s := Agreement.RunPair(IpcpProto(ea), IpcpProto(eb), s0, mvs);
            var t := Agreement.RunPair(IpcpProto(ea), IpcpProto(eb), s0, mvs + [mv]);
            match mv
            case ByA(e) => AcksRecord(ea, s.a, e, t.a, t.b.sent)
            case ByB(e) => AcksRecord(eb, s.b, e, t.b, t.a.sent)
  {
    hide Agreement.Faithful, Agreement.RunPair, Agreement.AllowedRun, Agreement.AcksAnswer, AcksRecord, IpcpCallbacks,
    Full;
    IpcpFaithful(ea);
    IpcpFaithful(eb);
    Agreement.RunAcksAnswer(IpcpProto(ea), IpcpProto(eb), a0, b0, la, lb, mvs, mv);
    var s0 := Agreement.Start(a0, b0, la, lb);
    var s := Agreement.RunPair(IpcpProto(ea), IpcpProto(eb), s0, mvs);
    var t := Agreement.RunPair(IpcpProto(ea), IpcpProto(eb), s0, mvs + [mv]);
    match mv
    case ByA(e) => StepAcksRecord(ea, eb, s.a, e, t.a, t.b.sent);
    case ByB(e) => StepAcksRecord(eb, ea, s.b, e, t.b, t.a.sent);
  }

  // ---- An address overridden ----

  /** A unit that asks for no address in particular, has one of its own, and keeps it whatever is agreed. */
  function Stubborn(): Env {
    Env(false, false, false, true, None, (o, w, b, p) => (o, 1), (o, w, b, p) => (o, 1),
        (s: IpState) => Settled(s.wo, s.ho, None))
  }

  const OWN: Options := NoOptions.(neg := {NegAddr}, ouraddr := 1, hisaddr := 2)

  /** It is opened, the lower layer comes up, an empty request comes in, and an Ack of the address asked for. */
  const OVERRIDE: seq<Event> :=
    [EvOpen(Flags(false, false, false)), EvUp, EvInput([1, 7, 0, 4]), EvInput([2, 1, 0, 10, 3, 6, 0, 0, 0, 0])]

  lemma StubbornAsks(limits: Limits)
    ensures var s := IpState(OWN, NoOptions, NoOptions, NoOptions, 1500);
            var m := Step(IpcpCallbacks(Stubborn()),
                          Step(IpcpCallbacks(Stubborn()), Fresh(s, limits), EvOpen(Flags(false, false, false))), EvUp);
            && m.state.ReqSent? && m.reqid == 1 && !m.seenAck && m.opts == s.(wo := OWN, go := OWN.(ouraddr := 0))
            && m.sent == [Packet(CONFREQ, 1, [3, 6, 0, 0, 0, 0])]
  {
    hide AddCi, Full, ResetCi;
    var s := IpState(OWN, NoOptions, NoOptions, NoOptions, 1500);
    StubbornReset(s);
    SendsAllAsked(s.(go := OWN.(ouraddr := 0)));
    StubbornRequest();
  }

  lemma StubbornReset(s: IpState)
    requires s == IpState(OWN, NoOptions, NoOptions, NoOptions, 1500)
    ensures ResetCi(Stubborn(), s) == s.(go := OWN.(ouraddr := 0))
    ensures Fallback(OWN, NoOptions, OWN.(ouraddr := 0)) == OWN.(ouraddr := 0)
  {
    assert {NegAddr} - {ReqAddr} == {NegAddr} && {NegAddr} - {ReqDns1, ReqDns2} == {NegAddr};
    assert {NegAddr} - {ReqWins1, ReqWins2} == {NegAddr};
  }

  lemma StubbornRequest()
    ensures Full(OWN.(ouraddr := 0)) == [3, 6, 0, 0, 0, 0]
  {
    hide FullTo;
    var o := OWN.(ouraddr := 0);
    FullOf(o);
    assert PutLong(0) == [0, 0, 0, 0];
  }

  lemma StubbornAcks(m: Machine<IpState>)
    requires m.state.ReqSent? && m.opts.ao == NoOptions && m.opts.wo == OWN
    ensures var n := Step(IpcpCallbacks(Stubborn()), m, EvInput([1, 7, 0, 4]));
            && n.state.AckSent? && n.opts == m.opts.(ho := NoOptions) && n.reqid == m.reqid && n.seenAck == m.seenAck
            && n.sent == m.sent + [Packet(CONFACK, 7, [])] && n.calls == m.calls
  {
    hide Parse, Q.ReqCi;
    FsmRuns.HeaderParses(1, 7);
    NothingAsked(m.nakloops >= m.limits.maxNak);
  }

  lemma NothingAsked(tough: bool)
    ensures Q.ReqCi(NoOptions, OWN, [], tough) == Q.Outcome(CONFACK, [], Q.Known(OWN, NoOptions))
  {
    R.NoPieces();
  }

  lemma StubbornOpens(m: Machine<IpState>)
    requires m.state.AckSent? && m.reqid == 1 && !m.seenAck && m.opts.wo == OWN && m.opts.go == OWN.(ouraddr := 0)
    ensures var n := Step(IpcpCallbacks(Stubborn()), m, EvInput([2, 1, 0, 10, 3, 6, 0, 0, 0, 0]));
            n.state.Opened? && n.opts.go == OWN && n.sent == m.sent
  {
    hide Full, Parse;
    var frame: bytes := [2, 1, 0, 10, 3, 6, 0, 0, 0, 0];
    assert Parse(frame) == Some(Packet(CONFACK, 1, [3, 6, 0, 0, 0, 0])) by {
      assert PutShort(10) == [0, 10];
      assert frame == Format(Packet(CONFACK, 1, [3, 6, 0, 0, 0, 0])) + [];
      ParseFormat(Packet(CONFACK, 1, [3, 6, 0, 0, 0, 0]), []);
    }
    StubbornRequest();
  }

  /** A run from the start: address 0 is asked for and Acked, and the machine is opened with options that stand for
      address 1. */
  lemma OverrideExample(limits: Limits)
    ensures var m := Run(IpcpCallbacks(Stubborn()),
                         Fresh(IpState(OWN, NoOptions, NoOptions, NoOptions, 1500), limits), OVERRIDE);
            && m.state.Opened? && m.sent == [Packet(CONFREQ, 1, [3, 6, 0, 0, 0, 0]), Packet(CONFACK, 7, [])]
            && m.opts.go == OWN && Full(m.opts.go) != [3, 6, 0, 0, 0, 0]
  {
    hide Run, Step, Fresh, IpcpCallbacks, Full;
    var cb, m0 := IpcpCallbacks(Stubborn()), Fresh(IpState(OWN, NoOptions, NoOptions, NoOptions, 1500), limits);
    var e1, e2 := EvOpen(Flags(false, false, false)), EvUp;
    var e3, e4 := EvInput([1, 7, 0, 4]), EvInput([2, 1, 0, 10, 3, 6, 0, 0, 0, 0]);
    FsmRuns.NothingRun(cb, m0);
    FsmRuns.RunMore(cb, m0, [], e1);
    FsmRuns.RunMore(cb, m0, [e1], e2);
    FsmRuns.RunMore(cb, m0, [e1, e2], e3);
    FsmRuns.RunMore(cb, m0, [e1, e2, e3], e4);
    assert [] + [e1] == [e1] && [e1] + [e2] == [e1, e2] && [e1, e2] + [e3] == [e1, e2, e3];
    assert [e1, e2, e3] + [e4] == OVERRIDE;
    StubbornAsks(limits);
    StubbornAcks(Run(cb, m0, [e1, e2]));
    StubbornOpens(Run(cb, m0, [e1, e2, e3]));
    StubbornOwn();
  }

  lemma StubbornOwn()
    ensures Full(OWN) != [3, 6, 0, 0, 0, 0]
  {
    FullOf(OWN);
    assert PutLong(1) == [0, 0, 0, 1];
    assert Full(OWN)[5] == 1;
  }
}
