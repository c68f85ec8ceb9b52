/** What the automaton keeps over whole runs, for every protocol built on it:
    every theorem below is quantified over the callback table. */
module FsmRuns {
  import opened Wire
  import opened Fsm

  predicate Timed(s: State) {
    Negotiating(s) || Terminating(s)
  }

  /** Whether the layer above has been told the link is up, or None if up and
      down calls ever failed to alternate. */
  function LinkState(calls: seq<Call>): Option<bool> {
    if calls == [] then Some(false)
    else LinkAfter(LinkState(calls[..|calls| - 1]), calls[|calls| - 1])
  }

  function LinkAfter(was: Option<bool>, c: Call): Option<bool> {
    match c
    case Up => if was == Some(false) then Some(true) else None
    case Down => if was == Some(true) then Some(false) else None
    case _ => was
  }

  lemma LinkSnoc(calls: seq<Call>, c: Call)
    ensures LinkState(calls + [c]) == LinkAfter(LinkState(calls), c)
  {
    assert (calls + [c])[..|calls|] == calls;
  }

  /** One timer exactly while a reply is awaited, calls that alternate and say
      "up" exactly while opened, and the latch set wherever an Ack has been seen. */
  predicate Sound<O>(m: Machine<O>) {
    && m.timers == (if Timed(m.state) then 1 else 0)
    && LinkState(m.calls) == Some(m.state.Opened?)
    && (m.state.AckRcvd? || m.state.Opened? ==> m.seenAck)
  }

  /** The input that finds an opened machine and leaves it opened with a timer running. */
  predicate StrayTermAck<O>(m: Machine<O>, e: Event) {
    && m.state.Opened?
    && e.EvInput?
    && var p := Parse(e.frame);
    && p.Some?
    && p.value.code == TERMACK
  }

  lemma CloseSound<O>(cb: Callbacks<O>, m: Machine<O>, reason: bytes)
    requires Sound(m)
    ensures Sound(Close(cb, m, reason))
  {
    hide LinkState, Clip;
    match m.state
    case Opened => LinkSnoc(m.calls, Down);
    case Stopped => LinkSnoc(m.calls, LowerDone);
    case _ =>
  }

  lemma CallUpSound<O>(cb: Callbacks<O>, m: Machine<O>)
    requires m.timers == 0 && LinkState(m.calls) == Some(false) && m.state.Opened? && m.seenAck
    ensures Sound(CallUp(cb, m))
  {
    hide LinkState, Close;
    LinkSnoc(m.calls, Up);
    var r := cb.up(m.opts);
    if r.close.Some? {
      CloseSound(cb, Called(m, Up).(opts := r.opts), r.close.value);
    }
  }

  lemma LowerUpSound<O>(cb: Callbacks<O>, m: Machine<O>)
    requires Sound(m)
    ensures Sound(LowerUp(cb, m))
  {
  }

  lemma LowerDownSound<O>(cb: Callbacks<O>, m: Machine<O>)
    requires Sound(m)
    ensures Sound(LowerDown(cb, m))
  {
    hide LinkState, Clip;
    match m.state
    case Stopped => LinkSnoc(m.calls, LowerNeeded);
    case Opened => LinkSnoc(m.calls, Down);
    case _ =>
  }

  lemma RestartSound<O>(cb: Callbacks<O>, m: Machine<O>)
    requires Sound(m)
    ensures Sound(Restart(cb, m))
  {
    hide LinkState, LowerUp, LowerDown;
    LowerDownSound(cb, m);
    LowerUpSound(cb, LowerDown(cb, m));
  }

  lemma OpenSound<O>(cb: Callbacks<O>, m: Machine<O>, flags: Flags)
    requires Sound(m)
    ensures Sound(Open(cb, m, flags))
  {
    hide LinkState, Clip, Restart;
    var m := m.(flags := flags);
    match m.state
    case Initial => LinkSnoc(m.calls, LowerNeeded);
    case Closing => RestartSound(cb, m.(state := Stopping));
    case Stopped => RestartSound(cb, m);
    case Opened => RestartSound(cb, m);
    case _ =>
  }

  lemma TimeoutSound<O>(cb: Callbacks<O>, m: Machine<O>)
    requires Sound(m)
    ensures Sound(Timeout(cb, m))
  {
    hide LinkState, Clip;
    if m.retransmits <= 0 {
      LinkSnoc(m.calls, LowerDone);
    }
  }

  /** A machine about to act on the answer it has just sent to the peer's request. */
  predicate Answering<O>(m: Machine<O>) {
    && m.timers == 1 && (Negotiating(m.state) || m.state.Opened?)
    && LinkState(m.calls) == Some(false) && (m.state.AckRcvd? ==> m.seenAck)
  }

  /** Whatever the answer, one timer is left while waiting, none once opened, and the
      layer above is told exactly when the machine opens. */
  lemma SettledSound<O>(cb: Callbacks<O>, n: Machine<O>, code: byte)
    requires Answering(n)
    ensures Sound(Settled(cb, n, code))
  {
    hide LinkState, CallUp;
    if code == CONFACK && n.state.AckRcvd? {
      CallUpSound(cb, n.(timers := 0, state := Opened));
    }
  }

  lemma JudgeSound<O>(cb: Callbacks<O>, m: Machine<O>, id: byte, data: bytes)
    requires Answering(m)
    ensures Sound(Judge(cb, m, id, data))
  {
    hide LinkState, Clip, Settled, Sound;
    var v := cb.reqci(m.opts, data, m.nakloops >= m.limits.maxNak);
    SettledSound(cb, Send(cb, m.(opts := v.opts), v.code, id, v.reply), v.code);
  }

  /** A machine with something to end. */
  predicate Ending<O>(m: Machine<O>) {
    Sound(m) && (Negotiating(m.state) || m.state.Opened?)
  }

  /** One packet more, a Terminate-Request, and the layer above told exactly if it thought the link up. */
  predicate Ended<O>(m: Machine<O>, n: Machine<O>) {
    && Sound(n) && n.state == Closing && n.retransmits == m.limits.maxTerminate - 1
    && |n.sent| == |m.sent| + 1 && n.sent[..|m.sent|] == m.sent && n.sent[|m.sent|].code == TERMREQ
    && |n.calls| == |m.calls| + if m.state.Opened? then 1 else 0
  }

  /** Ending a negotiation or an open link: one timer, the layer above told once if it
      thought the link up, and exactly one packet sent, a Terminate-Request. */
  lemma TerminatedSound<O>(cb: Callbacks<O>, m: Machine<O>)
    requires Ending(m)
    ensures Ended(m, Terminated(cb, m))
  {
    hide LinkState, Clip;
    if m.state.Opened? {
      LinkSnoc(m.calls, Down);
    }
  }

  lemma RConfReqSound<O>(cb: Callbacks<O>, m: Machine<O>, id: byte, data: bytes)
    requires Sound(m) && !m.state.Initial? && !m.state.Starting?
    ensures Sound(RConfReq(cb, m, id, data))
  {
    hide LinkState, Clip, Judge;
    LinkSnoc(m.calls, Down);
    match m.state
    case Opened => JudgeSound(cb, SendConfReq(cb, CallDown(cb, m), false), id, data);
    case Stopped => JudgeSound(cb, SendConfReq(cb, m, false).(state := ReqSent), id, data);
    case ReqSent => JudgeSound(cb, m, id, data);
    case AckRcvd => JudgeSound(cb, m, id, data);
    case AckSent => JudgeSound(cb, m, id, data);
    case _ =>
  }

  lemma RConfAckSound<O>(cb: Callbacks<O>, m: Machine<O>, id: byte, data: bytes)
    requires Sound(m)
    ensures Sound(RConfAck(cb, m, id, data))
  {
    hide LinkState, Clip, CallUp;
    if m.state.AckSent? {
      CallUpSound(cb, m.(seenAck := true, timers := 0, state := Opened, retransmits := m.limits.maxConfigure));
    }
  }

  lemma CloseKeepsLatch<O>(cb: Callbacks<O>, m: Machine<O>, reason: bytes)
    ensures Close(cb, m, reason).seenAck == m.seenAck
    ensures !Close(cb, m, reason).state.AckRcvd? && !Close(cb, m, reason).state.Opened?
  {
  }

  lemma RefusedSound<O>(cb: Callbacks<O>, m: Machine<O>, id: byte, ret: int)
    requires Sound(m) && !m.state.AckRcvd? && !m.state.Opened?
    ensures Sound(Refused(cb, m.(seenAck := true), id, ret))
  {
  }

  lemma RConfRefusedSound<O>(cb: Callbacks<O>, m: Machine<O>, nak: bool, id: byte, data: bytes)
    requires Sound(m)
    ensures Sound(RConfRefused(cb, m, nak, id, data))
  {
    hide Close, Refused, LinkState;
    var r := if nak then cb.nakci(m.opts, m.state.Opened?, data) else cb.rejci(m.opts, m.state.Opened?, data);
    if r.close.Some? {
      CloseSound(cb, m.(opts := r.opts), r.close.value);
      CloseKeepsLatch(cb, m.(opts := r.opts), r.close.value);
    }
    if id == m.reqid && !m.seenAck && r.ret != 0 {
      RefusedSound(cb, CloseIfAsked(cb, m.(opts := r.opts), r.close), id, r.ret);
    }
  }

  lemma {:induction false} SendAllSound<O>(cb: Callbacks<O>, m: Machine<O>, ps: seq<Packet>)
    requires Sound(m)
    ensures Sound(SendAll(cb, m, ps))
    decreases |ps|
  {
    if ps != [] {
      SendAllSound(cb, Send(cb, m, ps[0].code, ps[0].id, ps[0].data), ps[1..]);
    }
  }

  lemma TermSound<O>(cb: Callbacks<O>, m: Machine<O>, id: byte)
    requires Sound(m)
    ensures Sound(RTermReq(cb, m, id))
    ensures !m.state.Opened? ==> Sound(RTermAck(cb, m))
  {
    hide LinkState, Clip;
    if m.state.Opened? {
      LinkSnoc(m.calls, Down);
    } else {
      LinkSnoc(m.calls, LowerDone);
    }
  }

  lemma RUnknownSound<O>(cb: Callbacks<O>, m: Machine<O>, p: Packet, whole: bytes)
    requires Sound(m)
    ensures Sound(RUnknown(cb, m, p, whole))
  {
    SendAllSound(cb, m, cb.extcode(m.opts, m.state.Opened?, p).reply);
  }

  lemma ProtRejectSound<O>(cb: Callbacks<O>, m: Machine<O>)
    requires Sound(m)
    ensures Sound(ProtReject(cb, m))
  {
    hide LinkState, Clip;
    if m.state.Opened? {
      LinkSnoc(m.calls, Down);
    } else {
      LinkSnoc(m.calls, LowerDone);
    }
  }

  lemma InputSound<O>(cb: Callbacks<O>, m: Machine<O>, frame: bytes)
    requires Sound(m) && !StrayTermAck(m, EvInput(frame))
    ensures Sound(Input(cb, m, frame))
  {
    hide RConfReq, RConfAck, RConfRefused, RTermReq, RTermAck, RUnknown, LinkState;
    var r := Parse(frame);
    if r.Some? && !m.state.Initial? && !m.state.Starting? {
      var p := r.value;
      RConfReqSound(cb, m, p.id, p.data);
      RConfAckSound(cb, m, p.id, p.data);
      RConfRefusedSound(cb, m, p.code == CONFNAK, p.id, p.data);
      TermSound(cb, m, p.id);
      RUnknownSound(cb, m, p, frame[..|p.data| + HEADERLEN]);
    }
  }

  lemma StepSound<O>(cb: Callbacks<O>, m: Machine<O>, e: Event)
    requires Sound(m) && !StrayTermAck(m, e)
    ensures Sound(Step(cb, m, e))
  {
    hide LowerUp, LowerDown, Open, Close, Timeout, Input, ProtReject, Sound, StrayTermAck;
    match e
    case EvUp => LowerUpSound(cb, m);
    case EvDown => LowerDownSound(cb, m);
    case EvOpen(flags) => OpenSound(cb, m, flags);
    case EvClose(reason) => CloseSound(cb, m, reason);
    case EvTimeout => TimeoutSound(cb, m);
    case EvInput(frame) => InputSound(cb, m, frame);
    case EvProtReject => ProtRejectSound(cb, m);
  }

  /** A Terminate-Ack in Opened leaves the machine opened with the layer above
      told it is down and one more timer pending. */
  lemma StrayTermAckUnsound<O>(cb: Callbacks<O>, m: Machine<O>, e: Event)
    requires Sound(m) && StrayTermAck(m, e)
    ensures Step(cb, m, e).state.Opened? && Step(cb, m, e).timers == 1
    ensures LinkState(Step(cb, m, e).calls) == Some(false) && !Sound(Step(cb, m, e))
  {
    hide LinkState;
    LinkSnoc(m.calls, Down);
  }

  lemma FreshSound<O>(opts: O, limits: Limits)
    ensures Sound(Fresh(opts, limits))
  {
  }

  /** No Terminate-Ack is taken while opened anywhere along a run. */
  ghost predicate NoStray<O>(cb: Callbacks<O>, m0: Machine<O>, es: seq<Event>) {
    forall k | 0 <= k < |es| :: !StrayTermAck(Run(cb, m0, es[..k]), es[k])
  }

  ghost predicate SoundThroughout<O>(cb: Callbacks<O>, m0: Machine<O>, es: seq<Event>) {
    forall k | 0 <= k <= |es| :: Sound(Run(cb, m0, es[..k]))
  }

  lemma {:induction false} SoundUntilStray<O>(cb: Callbacks<O>, m0: Machine<O>, es: seq<Event>)
    requires Sound(m0) && NoStray(cb, m0, es)
    ensures Sound(Run(cb, m0, es))
    decreases |es|
  {
    hide Step, Sound, StrayTermAck;
    if es != [] {
      var n := |es| - 1;
      var init := es[..n];
      forall k | 0 <= k < n
        ensures !StrayTermAck(Run(cb, m0, init[..k]), init[k])
      {
        assert init[..k] == es[..k];
      }
      SoundUntilStray(cb, m0, init);
      StepSound(cb, Run(cb, m0, init), es[n]);
    }
  }

  /** Along every run of every protocol, timers, calls and latch are in order in
      all states visited exactly when no Terminate-Ack was taken while opened. */
  lemma RunSoundIff<O>(cb: Callbacks<O>, opts: O, limits: Limits, es: seq<Event>)
    ensures SoundThroughout(cb, Fresh(opts, limits), es) <==> NoStray(cb, Fresh(opts, limits), es)
  {
    hide Step, Sound, StrayTermAck;
    var m0 := Fresh(opts, limits);
    FreshSound(opts, limits);
    if NoStray(cb, m0, es) {
      forall k | 0 <= k <= |es|
        ensures Sound(Run(cb, m0, es[..k]))
      {
        assert forall j | 0 <= j < k :: es[..k][..j] == es[..j];
        SoundUntilStray(cb, m0, es[..k]);
      }
    } else {
      var k :| 0 <= k < |es| && StrayTermAck(Run(cb, m0, es[..k]), es[k]);
      if Sound(Run(cb, m0, es[..k])) {
        StrayTermAckUnsound(cb, Run(cb, m0, es[..k]), es[k]);
        assert es[..k + 1][..k] == es[..k];
        assert !Sound(Run(cb, m0, es[..k + 1]));
      }
    }
  }

  /** A protocol that asks for nothing and Acks everything. */
  function Easy(): Callbacks<()> {
    Callbacks(
      (o: ()) => o,
      (o: (), room: int) => (o, []),
      (o: (), data: bytes) => data == [],
      (o: (), isOpen: bool, data: bytes) => Refusal(o, 1, None),
      (o: (), isOpen: bool, data: bytes) => Refusal(o, 1, None),
      (o: (), data: bytes, tough: bool) => Verdict(o, CONFACK, data),
      (o: ()) => Raised(o, None),
      (o: ()) => o,
      (o: (), isOpen: bool, p: Packet) => Handled(false, []),
      (o: ()) => 1500,
      true)
  }

  /** The lower layer comes up, the unit is opened, a request comes in, and an Ack of ours. */
  const OPENING: seq<Event> :=
    [EvUp, EvOpen(Flags(false, false, false)), EvInput([1, 7, 0, 4]), EvInput([2, 1, 0, 4])]

  lemma {:induction false} RunMore<O>(cb: Callbacks<O>, m: Machine<O>, es: seq<Event>, e: Event)
    ensures Run(cb, m, es + [e]) == Step(cb, Run(cb, m, es), e)
  {
    assert (es + [e])[..|es|] == es;
  }

  lemma HeaderParses(code: byte, id: byte)
    ensures Parse([code, id, 0, 4]) == Some(Packet(code, id, []))
  {
    var f := [code, id, 0, 4];
    assert f[2..4] == [0, 4] && f[4..4] == [];
  }

  lemma EasyAsks(limits: Limits)
    ensures var m := Step(Easy(), Step(Easy(), Fresh((), limits), EvUp), EvOpen(Flags(false, false, false)));
            m.state.ReqSent? && m.timers == 1 && m.calls == [] && m.reqid == 1 && !m.seenAck
  {
    hide Clip;
  }

  lemma EasyAcks(m: Machine<()>)
    requires m.state.ReqSent?
    ensures var n := Step(Easy(), m, EvInput([1, 7, 0, 4]));
            n.state.AckSent? && n == m.(state := AckSent, nakloops := 0, sent := n.sent)
  {
    hide Parse, Clip;
    HeaderParses(1, 7);
  }

  lemma EasyOpens(m: Machine<()>)
    requires m.state.AckSent? && m.reqid == 1 && !m.seenAck
    ensures var n := Step(Easy(), m, EvInput([2, 1, 0, 4]));
            n.state.Opened? && n.timers == 0 && n.calls == m.calls + [Up] && n.seenAck
  {
    hide Parse;
    HeaderParses(2, 1);
  }

  lemma EasyStrays(m: Machine<()>)
    requires m.state.Opened?
    ensures var n := Step(Easy(), m, EvInput([6, 9, 0, 4]));
            n.state.Opened? && n.timers == m.timers + 1 && n.calls == m.calls + [Down]
  {
    hide Parse, Clip;
    HeaderParses(6, 9);
  }

  /** Opened is reached, with one Ack of ours taken and one given. */
  lemma OpenedReached(limits: Limits)
    ensures var m := Run(Easy(), Fresh((), limits), OPENING);
            m.state.Opened? && m.timers == 0 && m.calls == [Up] && Sound(m)
  {
    hide Run, Step, Easy, Fresh;
    var cb, m0 := Easy(), Fresh((), limits);
    var e1, e2 := EvUp, EvOpen(Flags(false, false, false));
    var e3, e4 := EvInput([1, 7, 0, 4]), EvInput([2, 1, 0, 4]);
    NothingRun(cb, m0);
    RunMore(cb, m0, [], e1);
    RunMore(cb, m0, [e1], e2);
    RunMore(cb, m0, [e1, e2], e3);
    RunMore(cb, m0, [e1, e2, e3], e4);
    assert [] + [e1] == [e1] && [e1] + [e2] == [e1, e2] && [e1, e2] + [e3] == [e1, e2, e3];
    assert [e1, e2, e3] + [e4] == OPENING;
    EasyAsks(limits);
    EasyAcks(Run(cb, m0, [e1, e2]));
    EasyOpens(Run(cb, m0, [e1, e2, e3]));
    LinkSnoc([], Up);
    assert [] + [Up] == [Up];
  }

  lemma NothingRun<O>(cb: Callbacks<O>, m: Machine<O>)
    ensures Run(cb, m, []) == m
  {
  }

  /** A Terminate-Ack then leaves it opened with the layer above told it is down and a timer running. */
  lemma StrayExample(limits: Limits)
    ensures var m := Run(Easy(), Fresh((), limits), OPENING + [EvInput([6, 9, 0, 4])]);
            m.state.Opened? && m.timers == 1 && m.calls == [Up, Down] && !Sound(m)
  {
    hide Run, Step, Easy, Fresh;
    OpenedReached(limits);
    RunMore(Easy(), Fresh((), limits), OPENING, EvInput([6, 9, 0, 4]));
    EasyStrays(Run(Easy(), Fresh((), limits), OPENING));
    assert [Up] + [Down] == [Up, Down];
  }

  // ---- The seen-Ack latch, on every run without exception ----

  lemma {:induction false} SendAllKeeps<O>(cb: Callbacks<O>, m: Machine<O>, ps: seq<Packet>)
    ensures SendAll(cb, m, ps) == m.(sent := SendAll(cb, m, ps).sent)
    decreases |ps|
  {
    if ps != [] {
      SendAllKeeps(cb, Send(cb, m, ps[0].code, ps[0].id, ps[0].data), ps[1..]);
    }
  }

  /** The latch invariant and the limits survive, and the Nak counter is kept or cleared. */
  predicate Keeps<O>(m: Machine<O>, n: Machine<O>) {
    && n.limits == m.limits
    && (n.nakloops == m.nakloops || n.nakloops == 0)
    && ((m.state.AckRcvd? ==> m.seenAck) ==> (n.state.AckRcvd? ==> n.seenAck))
  }

  lemma LowerKeeps<O>(cb: Callbacks<O>, m: Machine<O>)
    ensures Keeps(m, LowerUp(cb, m)) && Keeps(m, LowerDown(cb, m))
  {
  }

  lemma OpenKeeps<O>(cb: Callbacks<O>, m: Machine<O>, flags: Flags)
    ensures Keeps(m, Open(cb, m, flags))
  {
    hide LowerUp, LowerDown;
    var m := m.(flags := flags);
    var n := if m.state.Closing? then m.(state := Stopping) else m;
    LowerKeeps(cb, n);
    LowerKeeps(cb, LowerDown(cb, n));
  }

  lemma CloseKeeps<O>(cb: Callbacks<O>, m: Machine<O>, reason: bytes)
    ensures Keeps(m, Close(cb, m, reason))
  {
  }

  lemma CallUpKeeps<O>(cb: Callbacks<O>, m: Machine<O>)
    ensures Keeps(m, CallUp(cb, m))
  {
    hide Close;
    var r := cb.up(m.opts);
    if r.close.Some? {
      CloseKeeps(cb, Called(m, Up).(opts := r.opts), r.close.value);
    }
  }

  lemma TimeoutKeeps<O>(cb: Callbacks<O>, m: Machine<O>)
    ensures Keeps(m, Timeout(cb, m))
  {
  }

  lemma RConfAckKeeps<O>(cb: Callbacks<O>, m: Machine<O>, id: byte, data: bytes)
    ensures Keeps(m, RConfAck(cb, m, id, data))
  {
    hide CallUp;
    if m.state.AckSent? {
      CallUpKeeps(cb, m.(seenAck := true, timers := 0, state := Opened, retransmits := m.limits.maxConfigure));
    }
  }

  lemma RefusedKeeps<O>(cb: Callbacks<O>, m: Machine<O>, id: byte, ret: int)
    ensures Keeps(m, Refused(cb, m, id, ret))
  {
    hide Clip;
  }

  lemma RConfRefusedKeeps<O>(cb: Callbacks<O>, m: Machine<O>, nak: bool, id: byte, data: bytes)
    ensures Keeps(m, RConfRefused(cb, m, nak, id, data))
  {
    hide Close, Refused;
    var r := if nak then cb.nakci(m.opts, m.state.Opened?, data) else cb.rejci(m.opts, m.state.Opened?, data);
    if r.close.Some? {
      CloseKeeps(cb, m.(opts := r.opts), r.close.value);
    }
    var n := CloseIfAsked(cb, m.(opts := r.opts), r.close);
    RefusedKeeps(cb, n.(seenAck := true), id, r.ret);
  }

  lemma OthersKeep<O>(cb: Callbacks<O>, m: Machine<O>, p: Packet, whole: bytes)
    ensures Keeps(m, RTermReq(cb, m, p.id)) && Keeps(m, RTermAck(cb, m)) && Keeps(m, RUnknown(cb, m, p, whole))
    ensures Keeps(m, ProtReject(cb, m))
  {
    hide SendAll, Clip;
    SendAllKeeps(cb, m, cb.extcode(m.opts, m.state.Opened?, p).reply);
  }

  /** Answering a request: the latch and limits survive, and the Nak counter grows only on a Nak. */
  predicate KeepsOrNaks<O>(cb: Callbacks<O>, m: Machine<O>, data: bytes, n: Machine<O>) {
    || Keeps(m, n)
    || (Keeps(m, n.(nakloops := m.nakloops)) && n.nakloops == m.nakloops + 1
        && cb.reqci(m.opts, data, m.nakloops >= m.limits.maxNak).code == CONFNAK)
  }

  lemma JudgeKeeps<O>(cb: Callbacks<O>, m: Machine<O>, id: byte, data: bytes)
    ensures KeepsOrNaks(cb, m, data, Judge(cb, m, id, data))
  {
    hide CallUp;
    var v := cb.reqci(m.opts, data, m.nakloops >= m.limits.maxNak);
    var n := Send(cb, m.(opts := v.opts), v.code, id, v.reply);
    CallUpKeeps(cb, n.(timers := 0, state := Opened));
  }

  /** The machine in which a request is judged. */
  function Judged<O>(cb: Callbacks<O>, m: Machine<O>): Machine<O> {
    match m.state
    case Opened => SendConfReq(cb, CallDown(cb, m), false)
    case Stopped => SendConfReq(cb, m, false).(state := ReqSent)
    case _ => m
  }

  lemma JudgedKeeps<O>(cb: Callbacks<O>, m: Machine<O>)
    ensures Keeps(m, Judged(cb, m))
  {
  }

  lemma RConfReqKeeps<O>(cb: Callbacks<O>, m: Machine<O>, id: byte, data: bytes)
    ensures KeepsOrNaks(cb, Judged(cb, m), data, RConfReq(cb, m, id, data))
         || Keeps(m, RConfReq(cb, m, id, data))
    ensures Keeps(m, Judged(cb, m))
  {
    hide Judge, SendConfReq;
    JudgeKeeps(cb, Judged(cb, m), id, data);
    JudgedKeeps(cb, m);
  }

  /** Every step but answering a request. */
  lemma StepKeeps<O>(cb: Callbacks<O>, m: Machine<O>, e: Event)
    ensures Keeps(m, Step(cb, m, e))
         || (e.EvInput? && Parse(e.frame).Some? && Parse(e.frame).value.code == CONFREQ
             && Step(cb, m, e) == RConfReq(cb, m, Parse(e.frame).value.id, Parse(e.frame).value.data))
  {
    hide RConfReq, RConfAck, RConfRefused, RTermReq, RTermAck, RUnknown, LowerUp, LowerDown, Open, Close,
    Timeout, ProtReject, Parse;
    OthersKeep(cb, m, Packet(0, 0, []), []);
    match e
    case EvUp => LowerKeeps(cb, m);
    case EvDown => LowerKeeps(cb, m);
    case EvOpen(flags) => OpenKeeps(cb, m, flags);
    case EvClose(reason) => CloseKeeps(cb, m, reason);
    case EvTimeout => TimeoutKeeps(cb, m);
    case EvProtReject =>
    case EvInput(frame) =>
      var r := Parse(frame);
      if r.Some? {
        var p := r.value;
        RConfAckKeeps(cb, m, p.id, p.data);
        RConfRefusedKeeps(cb, m, p.code == CONFNAK, p.id, p.data);
        OthersKeep(cb, m, p, frame[..|p.data| + HEADERLEN]);
      }
  }

  lemma StepLatch<O>(cb: Callbacks<O>, m: Machine<O>, e: Event)
    requires m.state.AckRcvd? ==> m.seenAck
    ensures Step(cb, m, e).state.AckRcvd? ==> Step(cb, m, e).seenAck
  {
    hide Step, RConfReq, Judged, Parse;
    StepKeeps(cb, m, e);
    if e.EvInput? && Parse(e.frame).Some? {
      RConfReqKeeps(cb, m, Parse(e.frame).value.id, Parse(e.frame).value.data);
    }
  }

  lemma {:induction false} RunLatch<O>(cb: Callbacks<O>, opts: O, limits: Limits, es: seq<Event>)
    ensures var m := Run(cb, Fresh(opts, limits), es); m.state.AckRcvd? ==> m.seenAck
    decreases |es|
  {
    if es != [] {
      RunLatch(cb, opts, limits, es[..|es| - 1]);
      StepLatch(cb, Run(cb, Fresh(opts, limits), es[..|es| - 1]), es[|es| - 1]);
    }
  }

  /** In every reachable AckRcvd state a further Ack, Nak or Reject, well formed
      or not, is dropped with no effect at all: the branches for a second Ack and
      for a Nak after an Ack are dead. */
  lemma RepliesIgnoredOnceAcked<O>(cb: Callbacks<O>, opts: O, limits: Limits, es: seq<Event>, frame: bytes)
    requires Run(cb, Fresh(opts, limits), es).state.AckRcvd?
    requires Parse(frame).Some? && Parse(frame).value.code in {CONFACK, CONFNAK, CONFREJ}
    ensures Run(cb, Fresh(opts, limits), es + [EvInput(frame)]) == Run(cb, Fresh(opts, limits), es)
  {
    RunLatch(cb, opts, limits, es);
    assert (es + [EvInput(frame)])[..|es|] == es;
  }

  /** While a machine stays in AckRcvd its options change only by judging the peer's requests. */
  lemma OptionsHeldWhileAcked<O>(cb: Callbacks<O>, opts: O, limits: Limits, es: seq<Event>, e: Event)
    requires Run(cb, Fresh(opts, limits), es).state.AckRcvd?
    ensures var m := Run(cb, Fresh(opts, limits), es);
            var n := Step(cb, m, e);
            n.state.AckRcvd? ==>
              || n.opts == m.opts
              || (e.EvInput? && Parse(e.frame).Some? && Parse(e.frame).value.code == CONFREQ
                  && n.opts == cb.reqci(m.opts, Parse(e.frame).value.data, m.nakloops >= m.limits.maxNak).opts)
  {
    hide Clip, Parse, LinkState, Run;
    RunLatch(cb, opts, limits, es);
    var m := Run(cb, Fresh(opts, limits), es);
    if e.EvInput? && Parse(e.frame).Some? {
      SendAllKeeps(cb, m, cb.extcode(m.opts, m.state.Opened?, Parse(e.frame).value).reply);
    }
  }

  // ---- A silent peer ----

  function Silence<O>(cb: Callbacks<O>, m: Machine<O>, n: nat): Machine<O> {
    if n == 0 then m else Timeout(cb, Silence(cb, m, n - 1))
  }

  function Left<O>(m: Machine<O>): nat {
    if m.retransmits < 0 then 0 else m.retransmits
  }

  /** The packets a machine awaiting a reply sends when its timer fires. */
  predicate Repeat<O>(m: Machine<O>, p: Packet) {
    if Negotiating(m.state) then p.code == CONFREQ && p.id == m.reqid else p.code == TERMREQ
  }

  /** Still waiting in the same way after some more transmissions. */
  predicate StillWaiting<O>(m: Machine<O>, n: Machine<O>) {
    && n.timers == 1
    && (Terminating(m.state) ==> n.state == m.state)
    && (Negotiating(m.state) ==> Negotiating(n.state) && n.reqid == m.reqid)
  }

  lemma TimeoutSends<O>(cb: Callbacks<O>, m: Machine<O>)
    requires Timed(m.state) && m.timers == 1 && m.retransmits > 0
    ensures var n := Timeout(cb, m);
            && StillWaiting(m, n)
            && n.retransmits == m.retransmits - 1
            && |n.sent| == |m.sent| + 1
            && n.sent[..|m.sent|] == m.sent
            && Repeat(m, n.sent[|m.sent|])
  {
  }

  /** What k timeouts in a row do while transmissions are left. */
  lemma {:induction false} SilenceSends<O>(cb: Callbacks<O>, m: Machine<O>, k: nat)
    requires Timed(m.state) && m.timers == 1 && k <= Left(m)
    ensures var n := Silence(cb, m, k);
            && StillWaiting(m, n)
            && n.retransmits == m.retransmits - k
            && |n.sent| == |m.sent| + k
            && n.sent[..|m.sent|] == m.sent
            && (forall i | |m.sent| <= i < |n.sent| :: Repeat(m, n.sent[i]))
  {
    hide Timeout;
    if k > 0 {
      SilenceSends(cb, m, k - 1);
      TimeoutSends(cb, Silence(cb, m, k - 1));
    }
  }

  /** If nothing but timeouts happen, a machine with r transmissions left stops
      at exactly the (r+1)-th timeout, after exactly r more sends. */
  lemma SilenceStops<O>(cb: Callbacks<O>, m: Machine<O>, k: nat)
    requires Timed(m.state) && m.timers == 1
    ensures k <= Left(m) ==> Timed(Silence(cb, m, k).state) && |Silence(cb, m, k).sent| == |m.sent| + k
    ensures var n := Silence(cb, m, Left(m) + 1);
            && n.timers == 0
            && n.state == (if m.state.Closing? then Closed else Stopped)
            && n.sent == Silence(cb, m, Left(m)).sent
            && |n.sent| == |m.sent| + Left(m)
  {
    if k <= Left(m) {
      SilenceSends(cb, m, k);
    }
    SilenceSends(cb, m, Left(m));
  }

  lemma RequestSent<O>(cb: Callbacks<O>, m: Machine<O>)
    ensures var f := SendConfReq(cb, m, false);
            && f.timers == m.timers + 1 && f.retransmits == m.limits.maxConfigure - 1 && f.reqid == NextId(m.id)
            && |f.sent| == |m.sent| + 1 && f.sent[|m.sent|].code == CONFREQ && f.sent[|m.sent|].id == NextId(m.id)
  {
    hide Clip;
  }

  /** A fresh request to a silent peer goes out exactly max(1, limit) times, all under one id. */
  lemma FreshRequestCount<O>(cb: Callbacks<O>, m: Machine<O>)
    requires m.timers == 0
    ensures var f := SendConfReq(cb, m, false).(state := ReqSent);
            var tries := if m.limits.maxConfigure < 1 then 1 else m.limits.maxConfigure;
            var n := Silence(cb, f, tries);
            && n.state.Stopped?
            && n.timers == 0
            && |n.sent| == |m.sent| + tries
            && (forall i | |m.sent| <= i < |n.sent| ::
                  n.sent[i].code == CONFREQ && n.sent[i].id == NextId(m.id))
  {
    hide Silence, SendConfReq;
    var f := SendConfReq(cb, m, false).(state := ReqSent);
    RequestSent(cb, m);
    SilenceStops(cb, f, 0);
    SilenceSends(cb, f, Left(f));
  }

  // ---- The Nak counter ----

  /** Callbacks that answer "reject" instead of Nak once told to get tough. */
  ghost predicate GetsTough<O(!new)>(cb: Callbacks<O>) {
    forall o: O, data: bytes :: cb.reqci(o, data, true).code != CONFNAK
  }

  predicate NakBounded<O>(m: Machine<O>) {
    0 <= m.nakloops && (m.nakloops <= m.limits.maxNak || m.nakloops == 0)
  }

  /** States in which a request is judged. */
  predicate Judges(s: State) {
    Negotiating(s) || s.Stopped? || s.Opened?
  }

  /** A request is Nak'd although the limit of Naks was reached. */
  predicate NaksWhileTough<O>(cb: Callbacks<O>, m: Machine<O>, e: Event) {
    && e.EvInput? && Parse(e.frame).Some? && Parse(e.frame).value.code == CONFREQ && Judges(m.state)
    && var j := Judged(cb, m);
    j.nakloops >= j.limits.maxNak && cb.reqci(j.opts, Parse(e.frame).value.data, true).code == CONFNAK
  }

  lemma UnjudgedKeeps<O>(cb: Callbacks<O>, m: Machine<O>, id: byte, data: bytes)
    requires !Judges(m.state) && !m.state.Initial? && !m.state.Starting?
    ensures Keeps(m, RConfReq(cb, m, id, data))
  {
    hide Clip;
  }

  lemma JudgeNaks<O>(cb: Callbacks<O>, m: Machine<O>, id: byte, data: bytes)
    requires cb.reqci(m.opts, data, m.nakloops >= m.limits.maxNak).code == CONFNAK
    ensures var n := Judge(cb, m, id, data); n.nakloops == m.nakloops + 1 && n.limits == m.limits
  {
    hide Clip;
  }

  lemma StepNakIff<O>(cb: Callbacks<O>, m: Machine<O>, e: Event)
    requires NakBounded(m)
    ensures NakBounded(Step(cb, m, e)) <==> !NaksWhileTough(cb, m, e)
    ensures Step(cb, m, e).limits == m.limits
  {
    hide RConfReq, Judge, Judged, Parse, LowerUp, LowerDown, Open, Close, Timeout, ProtReject, RConfAck, RConfRefused,
    RTermReq, RTermAck, RUnknown, RCodeRej;
    StepKeeps(cb, m, e);
    if e.EvInput? && Parse(e.frame).Some? && Parse(e.frame).value.code == CONFREQ {
      var pk := Parse(e.frame).value;
      RConfReqKeeps(cb, m, pk.id, pk.data);
      if Judges(m.state) {
        RConfReqJudges(cb, m, pk.id, pk.data);
        if NaksWhileTough(cb, m, e) {
          JudgeNaks(cb, Judged(cb, m), pk.id, pk.data);
        }
      } else if !m.state.Initial? && !m.state.Starting? {
        UnjudgedKeeps(cb, m, pk.id, pk.data);
      }
    }
  }

  lemma RConfReqJudges<O>(cb: Callbacks<O>, m: Machine<O>, id: byte, data: bytes)
    requires Judges(m.state)
    ensures RConfReq(cb, m, id, data) == Judge(cb, Judged(cb, m), id, data)
  {
    hide Judge, SendConfReq, CallDown;
  }

  ghost predicate NeverNaksTough<O>(cb: Callbacks<O>, m0: Machine<O>, es: seq<Event>) {
    forall k | 0 <= k < |es| :: !NaksWhileTough(cb, Run(cb, m0, es[..k]), es[k])
  }

  ghost predicate NakBoundedThroughout<O>(cb: Callbacks<O>, m0: Machine<O>, es: seq<Event>) {
    forall k | 0 <= k <= |es| :: NakBounded(Run(cb, m0, es[..k]))
  }

  lemma {:induction false} BoundedUntilTough<O>(cb: Callbacks<O>, m0: Machine<O>, es: seq<Event>)
    requires NakBounded(m0) && NeverNaksTough(cb, m0, es)
    ensures NakBounded(Run(cb, m0, es))
    decreases |es|
  {
    hide Step, NakBounded, NaksWhileTough;
    if es != [] {
      var n := |es| - 1;
      var init := es[..n];
      forall k | 0 <= k < n
        ensures !NaksWhileTough(cb, Run(cb, m0, init[..k]), init[k])
      {
        assert init[..k] == es[..k];
      }
      BoundedUntilTough(cb, m0, init);
      StepNakIff(cb, Run(cb, m0, init), es[n]);
    }
  }

  /** On every run of every protocol the count of Naks since the last Ack stays within its limit in all states
      visited exactly if no request is Nak'd once that limit is reached. */
  lemma RunNakBoundedIff<O>(cb: Callbacks<O>, opts: O, limits: Limits, es: seq<Event>)
    ensures NakBoundedThroughout(cb, Fresh(opts, limits), es) <==> NeverNaksTough(cb, Fresh(opts, limits), es)
  {
    hide Step, NakBounded, NaksWhileTough;
    var m0 := Fresh(opts, limits);
    FreshBounded(opts, limits);
    if NeverNaksTough(cb, m0, es) {
      forall k | 0 <= k <= |es|
        ensures NakBounded(Run(cb, m0, es[..k]))
      {
        assert forall j | 0 <= j < k :: es[..k][..j] == es[..j];
        BoundedUntilTough(cb, m0, es[..k]);
      }
    } else {
      var k :| 0 <= k < |es| && NaksWhileTough(cb, Run(cb, m0, es[..k]), es[k]);
      if NakBounded(Run(cb, m0, es[..k])) {
        StepNakIff(cb, Run(cb, m0, es[..k]), es[k]);
        assert es[..k + 1][..k] == es[..k];
        assert !NakBounded(Run(cb, m0, es[..k + 1]));
      }
    }
  }

  lemma FreshBounded<O>(opts: O, limits: Limits)
    ensures NakBounded(Fresh(opts, limits))
  {
  }

  lemma {:induction false} RunLimits<O>(cb: Callbacks<O>, m0: Machine<O>, es: seq<Event>)
    ensures Run(cb, m0, es).limits == m0.limits
    decreases |es|
  {
    hide Step, RConfReq, Judged, Parse;
    if es != [] {
      var m, e := Run(cb, m0, es[..|es| - 1]), es[|es| - 1];
      RunLimits(cb, m0, es[..|es| - 1]);
      StepKeeps(cb, m, e);
      if e.EvInput? && Parse(e.frame).Some? {
        RConfReqKeeps(cb, m, Parse(e.frame).value.id, Parse(e.frame).value.data);
      }
    }
  }

  /** With callbacks that get tough the count of Naks since the last Ack never passes its limit, on any run. */
  lemma RunNakBounded<O(!new)>(cb: Callbacks<O>, opts: O, limits: Limits, es: seq<Event>)
    requires GetsTough(cb)
    ensures NakBounded(Run(cb, Fresh(opts, limits), es))
    ensures Run(cb, Fresh(opts, limits), es).limits == limits
  {
    hide NakBounded, Run;
    RunNakBoundedIff(cb, opts, limits, es);
    assert NakBoundedThroughout(cb, Fresh(opts, limits), es);
    assert es[..|es|] == es;
    RunLimits(cb, Fresh(opts, limits), es);
  }
}
