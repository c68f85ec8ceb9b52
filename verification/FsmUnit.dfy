/** The automaton as the daemon runs it: an object whose fields every entry
    point updates in place. Each method leaves the object in the state that the
    step function of the same name gives for the state it found. */
module FsmUnit {
  import opened Wire
  import opened Fsm
  import FsmRuns
  import FsmTable

  class Unit<O> {
    const cb: Callbacks<O>
    var state: State
    var flags: Flags
    const limits: Limits
    var id: byte
    var reqid: byte
    var seenAck: bool
    var retransmits: int
    var nakloops: int
    var reason: bytes
    var opts: O
    var timers: nat
    var sent: seq<Packet>
    var calls: seq<Call>

    ghost function View(): Machine<O>
      reads this
    {
      Machine(state, flags, limits, id, reqid, seenAck, retransmits, nakloops, reason, opts, timers, sent, calls)
    }

    constructor (cb: Callbacks<O>, opts: O, limits: Limits)
      ensures this.cb == cb && View() == Fresh(opts, limits) && FsmRuns.Sound(View())
    {
      this.cb := cb;
      this.limits := limits;
      this.opts := opts;
      state, flags := Initial, Flags(false, false, false);
      id, reqid, seenAck, retransmits, nakloops := 0, 0, false, 0, 0;
      reason, timers, sent, calls := [], 0, [], [];
    }

    /** Give a packet to the line, cut to the peer's receive limit. */
    method SData(code: byte, id: byte, data: bytes)
      modifies this
      ensures View() == Send(cb, old(View()), code, id, data)
    {
      var room := cb.mru(opts) - HEADERLEN;
      var outgoing := data;
      if |outgoing| > room {
        outgoing := if room <= 0 then [] else outgoing[..room];
      }
      sent := sent + [Packet(code, id, outgoing)];
    }

    method PrepareRequest(retransmit: bool)
      modifies this
      ensures View() == NewRequest(cb, old(View()), retransmit)
    {
      hide NextId;
      if !Negotiating(state) {
        opts := cb.resetci(opts);
        nakloops := 0;
      }
      if !retransmit {
        retransmits := limits.maxConfigure;
        id := NextId(id);
        reqid := id;
      }
      seenAck := false;
    }

    method SConfReq(retransmit: bool)
      modifies this
      ensures View() == SendConfReq(cb, old(View()), retransmit)
    {
      hide Clip, NewRequest;
      PrepareRequest(retransmit);
      var ci := cb.addci(opts, cb.mru(opts) - HEADERLEN);
      opts := ci.0;
      SData(CONFREQ, reqid, ci.1);
      retransmits := retransmits - 1;
      timers := timers + 1;
    }

    method STermReq()
      modifies this
      ensures View() == SendTermReq(cb, old(View()))
    {
      hide Clip;
      id := NextId(id);
      reqid := id;
      SData(TERMREQ, reqid, reason);
      timers := timers + 1;
      retransmits := retransmits - 1;
    }

    method LowerLayerUp()
      modifies this
      ensures View() == LowerUp(cb, old(View()))
    {
      hide SendConfReq;
      match state
      case Initial => state := Closed;
      case Starting =>
        if flags.silent {
          state := Stopped;
        } else {
          SConfReq(false);
          state := ReqSent;
        }
      case _ =>
    }

    method TellDown()
      modifies this
      ensures View() == CallDown(cb, old(View()))
    {
      calls := calls + [Down];
      opts := cb.down(opts);
    }

    method LowerLayerDown()
      modifies this
      ensures View() == LowerDown(cb, old(View()))
    {
      hide CallDown;
      match state
      case Closed => state := Initial;
      case Stopped => state := Starting; calls := calls + [LowerNeeded];
      case Closing => state := Initial; timers := 0;
      case Stopping => state := Starting; timers := 0;
      case ReqSent => state := Starting; timers := 0;
      case AckRcvd => state := Starting; timers := 0;
      case AckSent => state := Starting; timers := 0;
      case Opened => TellDown(); state := Starting;
      case _ =>
    }

    method OpenLayer(flags: Flags)
      modifies this
      ensures View() == Open(cb, old(View()), flags)
    {
      hide SendConfReq, Restart;
      this.flags := flags;
      match state
      case Initial => state := Starting; calls := calls + [LowerNeeded];
      case Closed =>
        if flags.silent {
          state := Stopped;
        } else {
          SConfReq(false);
          state := ReqSent;
        }
      case Closing => state := Stopping; RestartIfAsked();
      case Stopped => RestartIfAsked();
      case Opened => RestartIfAsked();
      case _ =>
    }

    method RestartIfAsked()
      modifies this
      ensures View() == Restart(cb, old(View()))
    {
      hide LowerUp, LowerDown;
      if flags.restart {
        LowerLayerDown();
        LowerLayerUp();
      }
    }

    method Quieten()
      modifies this
      ensures View() == Silenced(cb, old(View()))
    {
      hide CallDown;
      if state != Opened {
        timers := 0;
      } else {
        TellDown();
      }
    }

    method CloseLayer(reason: bytes)
      modifies this
      ensures View() == CloseWith(cb, old(View()), reason)
    {
      hide Terminated;
      this.reason := reason;
      if state == Starting {
        state := Initial;
      } else if state == Stopped {
        state := Closed;
      } else if state == Stopping {
        state := Closing;
      } else if Negotiating(state) || state == Opened {
        Terminate();
      }
    }

    /** Fall silent and ask the peer to end. */
    method Terminate()
      modifies this
      ensures View() == Terminated(cb, old(View()))
      ensures FsmRuns.Ending(old(View())) ==> FsmRuns.Ended(old(View()), View())
    {
      hide FsmRuns.Ending, FsmRuns.Ended;
      if FsmRuns.Ending(View()) {
        FsmRuns.TerminatedSound(cb, View());
      }
      hide SendTermReq, Silenced;
      Quieten();
      retransmits := limits.maxTerminate;
      STermReq();
      state := Closing;
    }

    /** The protocol's close: a stopped passive or silent machine may end at once. */
    method CloseProtocol(reason: bytes)
      modifies this
      ensures View() == Close(cb, old(View()), reason)
    {
      hide CloseWith;
      if cb.endsWhenStopped && state == Stopped && (flags.passive || flags.silent) {
        state := Closed;
        calls := calls + [LowerDone];
      } else {
        CloseLayer(reason);
      }
    }

    method TellUp()
      modifies this
      ensures View() == CallUp(cb, old(View()))
    {
      hide Close;
      calls := calls + [Up];
      var r := cb.up(opts);
      opts := r.opts;
      if r.close.Some? {
        CloseProtocol(r.close.value);
      }
    }

    /** The event loop fires a timer only while one is pending. */
    method TimerFires()
      requires timers > 0
      modifies this
      ensures View() == Timeout(cb, old(View()))
    {
      hide SendConfReq, SendTermReq;
      timers := timers - 1;
      if Terminating(state) {
        TerminateTimeout();
      } else if Negotiating(state) {
        ConfigureTimeout();
      }
    }

    method TerminateTimeout()
      requires Terminating(state)
      modifies this
      ensures View() == TimeoutHandler(cb, old(View()))
    {
      hide SendTermReq;
      if retransmits <= 0 {
        state := if state == Closing then Closed else Stopped;
        calls := calls + [LowerDone];
      } else {
        STermReq();
      }
    }

    method ConfigureTimeout()
      requires Negotiating(state)
      modifies this
      ensures View() == TimeoutHandler(cb, old(View()))
    {
      hide SendConfReq;
      if retransmits <= 0 {
        state := Stopped;
        if !flags.passive {
          calls := calls + [LowerDone];
        }
      } else {
        SConfReq(true);
        if state == AckRcvd {
          state := ReqSent;
        }
      }
    }

    method ReceiveConfReq(id: byte, data: bytes)
      modifies this
      ensures View() == RConfReq(cb, old(View()), id, data)
    {
      hide SendConfReq, CallDown, Judge;
      match state {
        case Closed => SData(TERMACK, id, []); return;
        case Closing => return;
        case Stopping => return;
        case Opened => TellDown(); SConfReq(false);
        case Stopped => SConfReq(false); state := ReqSent;
        case _ =>
      }
      Answer(id, data);
    }

    method Answer(id: byte, data: bytes)
      modifies this
      ensures View() == Judge(cb, old(View()), id, data)
    {
      hide Send, Settled;
      var rejectIfDisagree := nakloops >= limits.maxNak;
      var v := cb.reqci(opts, data, rejectIfDisagree);
      opts := v.opts;
      SData(v.code, id, v.reply);
      Settle(v.code);
    }

    /** Move on according to the answer just sent. */
    method Settle(code: byte)
      modifies this
      ensures View() == Settled(cb, old(View()), code)
      ensures FsmRuns.Answering(old(View())) ==> FsmRuns.Sound(View())
    {
      hide FsmRuns.Answering, FsmRuns.Sound;
      if FsmRuns.Answering(View()) {
        FsmRuns.SettledSound(cb, View(), code);
      }
      hide CallUp;
      if code == CONFACK {
        if state == AckRcvd {
          timers := 0;
          state := Opened;
          TellUp();
        } else {
          state := AckSent;
        }
        nakloops := 0;
      } else {
        if state != AckRcvd {
          state := ReqSent;
        }
        if code == CONFNAK {
          nakloops := nakloops + 1;
        }
      }
    }

    method ReceiveConfAck(id: byte, data: bytes)
      modifies this
      ensures View() == RConfAck(cb, old(View()), id, data)
    {
      hide SendConfReq, CallDown, CallUp, Clip;
      if id != reqid || seenAck {
        return;
      }
      if !cb.ackci(opts, data) {
        return;
      }
      seenAck := true;
      match state
      case Closed => SData(TERMACK, id, []);
      case Stopped => SData(TERMACK, id, []);
      case ReqSent => state := AckRcvd; retransmits := limits.maxConfigure;
      case AckRcvd => timers := 0; SConfReq(false); state := ReqSent;
      case AckSent => timers := 0; state := Opened; retransmits := limits.maxConfigure; TellUp();
      case Opened => TellDown(); SConfReq(false); state := ReqSent;
      case _ =>
    }

    method ReceiveConfRefused(nak: bool, id: byte, data: bytes)
      modifies this
      ensures View() == RConfRefused(cb, old(View()), nak, id, data)
    {
      hide Close, Refused;
      if id != reqid || seenAck {
        return;
      }
      var r := if nak then cb.nakci(opts, state.Opened?, data) else cb.rejci(opts, state.Opened?, data);
      opts := r.opts;
      if r.close.Some? {
        CloseProtocol(r.close.value);
      }
      if r.ret == 0 {
        return;
      }
      seenAck := true;
      TryAgain(id, r.ret);
    }

    method TryAgain(id: byte, ret: int)
      modifies this
      ensures View() == Refused(cb, old(View()), id, ret)
    {
      hide SendConfReq, CallDown, Clip;
      match state
      case Closed => SData(TERMACK, id, []);
      case Stopped => SData(TERMACK, id, []);
      case ReqSent => timers := 0; if ret < 0 { state := Stopped; } else { SConfReq(false); }
      case AckSent => timers := 0; if ret < 0 { state := Stopped; } else { SConfReq(false); }
      case AckRcvd => timers := 0; SConfReq(false); state := ReqSent;
      case Opened => TellDown(); SConfReq(false); state := ReqSent;
      case _ =>
    }

    method ReceiveTermReq(id: byte)
      modifies this
      ensures View() == RTermReq(cb, old(View()), id)
    {
      hide Clip, CallDown;
      match state {
        case AckRcvd => state := ReqSent;
        case AckSent => state := ReqSent;
        case Opened => retransmits := 0; state := Stopping; TellDown(); timers := timers + 1;
        case _ =>
      }
      SData(TERMACK, id, []);
    }

    method ReceiveTermAck()
      modifies this
      ensures View() == RTermAck(cb, old(View()))
    {
      hide SendConfReq, CallDown;
      match state
      case Closing => timers := 0; state := Closed; calls := calls + [LowerDone];
      case Stopping => timers := 0; state := Stopped; calls := calls + [LowerDone];
      case AckRcvd => state := ReqSent;
      case Opened => TellDown(); SConfReq(false);
      case _ =>
    }

    method ReceiveCodeRej(data: bytes)
      modifies this
      ensures View() == RCodeRej(old(View()), data)
    {
      if |data| < HEADERLEN {
        return;
      }
      if state == AckRcvd {
        state := ReqSent;
      }
    }

    method ReceiveUnknown(p: Packet, whole: bytes)
      modifies this
      ensures View() == RUnknown(cb, old(View()), p, whole)
    {
      var h := cb.extcode(opts, state.Opened?, p);
      if h.known {
        var i := 0;
        while i < |h.reply|
          invariant 0 <= i <= |h.reply|
          invariant SendAll(cb, View(), h.reply[i..]) == SendAll(cb, old(View()), h.reply)
        {
          SData(h.reply[i].code, h.reply[i].id, h.reply[i].data);
          assert h.reply[i..][1..] == h.reply[i + 1..];
          i := i + 1;
        }
      } else {
        id := NextId(id);
        SData(CODEREJ, id, whole);
      }
    }

    method LayerInput(frame: bytes)
      modifies this
      ensures View() == Input(cb, old(View()), frame)
    {
      hide RConfReq, RConfAck, RConfRefused, RTermReq, RTermAck, RUnknown, RCodeRej;
      if |frame| < HEADERLEN {
        return;
      }
      var code, id := frame[0], frame[1];
      var len := GetShort(frame[2..4]);
      if len < HEADERLEN || len > |frame| {
        return;
      }
      if state == Initial || state == Starting {
        return;
      }
      var data := frame[HEADERLEN..len];
      if code == CONFREQ {
        ReceiveConfReq(id, data);
      } else if code == CONFACK {
        ReceiveConfAck(id, data);
      } else if code == CONFNAK || code == CONFREJ {
        ReceiveConfRefused(code == CONFNAK, id, data);
      } else if code == TERMREQ {
        ReceiveTermReq(id);
      } else if code == TERMACK {
        ReceiveTermAck();
      } else if code == CODEREJ {
        ReceiveCodeRej(data);
      } else {
        ReceiveUnknown(Packet(code, id, data), frame[..len]);
      }
    }

    method ProtocolRejected()
      modifies this
      ensures View() == ProtReject(cb, old(View()))
    {
      hide CallDown, SendTermReq;
      match state
      case Closing => timers := 0; state := Closed; calls := calls + [LowerDone];
      case Closed => calls := calls + [LowerDone];
      case Stopping => timers := 0; state := Stopped; calls := calls + [LowerDone];
      case ReqSent => timers := 0; state := Stopped; calls := calls + [LowerDone];
      case AckRcvd => timers := 0; state := Stopped; calls := calls + [LowerDone];
      case AckSent => timers := 0; state := Stopped; calls := calls + [LowerDone];
      case Stopped => calls := calls + [LowerDone];
      case Opened => TellDown(); retransmits := limits.maxTerminate; STermReq(); state := Stopping;
      case _ =>
    }

    /** Handle one event: the step of the reference model, and its entry in the table. */
    method Handle(e: Event)
      modifies this
      ensures View() == Step(cb, old(View()), e)
      ensures FsmTable.Follows(cb, old(View()), FsmTable.CauseOf(e), View(), FsmTable.Expected(cb, old(View()), e))
    {
      hide LowerUp, LowerDown, Open, Close, Timeout, Input, ProtReject, FsmTable.Follows, FsmTable.Expected;
      FsmTable.StepFollows(cb, View(), e);
      match e
      case EvUp => LowerLayerUp();
      case EvDown => LowerLayerDown();
      case EvOpen(flags) => OpenLayer(flags);
      case EvClose(reason) => CloseProtocol(reason);
      case EvTimeout =>
        NoTimer(cb, View());
        if timers > 0 {
          TimerFires();
        }
      case EvInput(frame) => LayerInput(frame);
      case EvProtReject => ProtocolRejected();
    }

    /** A new unit taken through any events. The states it goes through are those of the run;
        its timers, calls and latch are in order in all of them, exactly if no Terminate-Ack is
        taken while opened; and in every one of them AckRcvd implies the latch. */
    method Drive(es: seq<Event>) returns (ghost states: seq<Machine<O>>)
      requires View() == Fresh(opts, limits)
      modifies this
      ensures |states| == |es| + 1 && View() == states[|es|]
      ensures forall k | 0 <= k <= |es| :: states[k] == Run(cb, old(View()), es[..k])
      ensures (forall k | 0 <= k <= |es| :: FsmRuns.Sound(states[k])) <==> FsmRuns.NoStray(cb, old(View()), es)
      ensures forall k | 0 <= k <= |es| :: states[k].state.AckRcvd? ==> states[k].seenAck
    {
      hide Step, FsmRuns.Sound, FsmRuns.NoStray, Fresh, FsmTable.Follows, FsmTable.Expected, FsmTable.CauseOf;
      ghost var m0, o := View(), opts;
      states := [m0];
      assert es[..0] == [];
      var i := 0;
      while i < |es|
        invariant 0 <= i <= |es| && |states| == i + 1 && View() == states[i]
        invariant forall k | 0 <= k <= i :: states[k] == Run(cb, m0, es[..k])
      {
        assert es[..i + 1][..i] == es[..i];
        Handle(es[i]);
        states := states + [View()];
        i := i + 1;
      }
      FsmRuns.RunSoundIff(cb, o, limits, es);
      forall k | 0 <= k <= |es|
        ensures states[k].state.AckRcvd? ==> states[k].seenAck
      {
        FsmRuns.RunLatch(cb, o, limits, es[..k]);
      }
    }
  }

  lemma NoTimer<O>(cb: Callbacks<O>, m: Machine<O>)
    ensures m.timers == 0 ==> Timeout(cb, m) == m
  {
  }
}
