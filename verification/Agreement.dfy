/** Two machines on a line that may lose, repeat, delay and reorder packets but
    never makes any up. Whenever one of them opens, the two agree on the options
    it opens with. This holds for every protocol whose callbacks are faithful. */
module Agreement {
  import opened Wire
  import opened Fsm
  import FsmRuns

  const SMALLEST_MRU := 128

  /** A protocol: its callbacks, the request its options stand for, and what its options keep. */
  datatype Proto<!O> = Proto(cb: Callbacks<O>, ci: O -> bytes, ok: O -> bool)

  /** Sending and matching requests agree: what is sent is the current request,
      only that is accepted as an Ack, an Ack returns the request it answers, and
      judging the peer leaves our request alone. */
  ghost predicate Faithful<O(!new)>(p: Proto<O>) {
    && FaithfulSizes(p) && FaithfulRequests(p) && FaithfulRefusals(p) && FaithfulAnswers(p) && FaithfulCalls(p)
    && FaithfulExtras(p)
  }

  ghost predicate FaithfulSizes<O(!new)>(p: Proto<O>) {
    && (forall o {:trigger p.ci(o)} | p.ok(o) :: |p.ci(o)| <= SMALLEST_MRU - HEADERLEN)
    && (forall o {:trigger p.cb.mru(o)} | p.ok(o) :: SMALLEST_MRU <= p.cb.mru(o) < 0x1_0000)
  }

  ghost predicate FaithfulRequests<O(!new)>(p: Proto<O>) {
    && (forall o {:trigger p.cb.resetci(o)} | p.ok(o) :: p.ok(p.cb.resetci(o)))
    && (forall o, room {:trigger p.cb.addci(o, room)} | p.ok(o) ::
          var r := p.cb.addci(o, room); p.ok(r.0) && (|p.ci(r.0)| <= room ==> r.1 == p.ci(r.0)))
    && (forall o, data {:trigger p.cb.ackci(o, data)} | p.ok(o) :: p.cb.ackci(o, data) ==> data == p.ci(o))
  }

  ghost predicate FaithfulRefusals<O(!new)>(p: Proto<O>) {
    && (forall o, b, data {:trigger p.cb.nakci(o, b, data)} | p.ok(o) :: p.ok(p.cb.nakci(o, b, data).opts))
    && (forall o, b, data {:trigger p.cb.rejci(o, b, data)} | p.ok(o) :: p.ok(p.cb.rejci(o, b, data).opts))
  }

  ghost predicate FaithfulAnswers<O(!new)>(p: Proto<O>) {
    forall o, data, tough {:trigger p.cb.reqci(o, data, tough)} | p.ok(o) ::
      var v := p.cb.reqci(o, data, tough);
      && p.ok(v.opts) && p.ci(v.opts) == p.ci(o)
      && CONFACK <= v.code <= CONFREJ && (v.code == CONFACK ==> v.reply == data)
  }

  ghost predicate FaithfulCalls<O(!new)>(p: Proto<O>) {
    && (forall o {:trigger p.cb.up(o)} | p.ok(o) :: p.ok(p.cb.up(o).opts))
    && (forall o {:trigger p.cb.down(o)} | p.ok(o) :: p.ok(p.cb.down(o)))
  }

  ghost predicate FaithfulExtras<O(!new)>(p: Proto<O>) {
    forall o, b, pk {:trigger p.cb.extcode(o, b, pk)} | p.ok(o) ::
      forall i | 0 <= i < |p.cb.extcode(o, b, pk).reply| :: p.cb.extcode(o, b, pk).reply[i].code > CODEREJ
  }

  predicate Answers(pk: Packet) {
    CONFACK <= pk.code <= CONFREJ
  }

  /** The last Ack, Nak or Reject sent. */
  function LastAnswer(sent: seq<Packet>): Option<Packet> {
    if sent == [] then None
    else if Answers(sent[|sent| - 1]) then Some(sent[|sent| - 1])
    else LastAnswer(sent[..|sent| - 1])
  }

  /** The last request answered was answered with an Ack. */
  predicate Acked(sent: seq<Packet>) {
    var a := LastAnswer(sent);
    a.Some? && a.value.code == CONFACK
  }

  /** A packet that one side may have sent, given all that the other has. */
  predicate Honest(pk: Packet, theirs: seq<Packet>) {
    && |pk.data| + HEADERLEN < 0x1_0000
    && (pk.code == CONFREQ ==> |pk.data| <= SMALLEST_MRU - HEADERLEN)
    && (pk.code == CONFACK ==> Packet(CONFREQ, pk.id, pk.data) in theirs)
  }

  ghost predicate AllHonest(sent: seq<Packet>, theirs: seq<Packet>) {
    forall i | 0 <= i < |sent| :: Honest(sent[i], theirs)
  }

  /** A request that some options of the protocol stand for. */
  ghost predicate Asked<O(!new)>(p: Proto<O>, data: bytes) {
    exists o: O :: p.ok(o) && data == p.ci(o)
  }

  ghost predicate AllAsked<O(!new)>(p: Proto<O>, sent: seq<Packet>) {
    forall i | 0 <= i < |sent| && sent[i].code == CONFREQ :: Asked(p, sent[i].data)
  }

  /** What holds of one side at every moment, whatever its state. */
  ghost predicate Base<O(!new)>(p: Proto<O>, m: Machine<O>, theirs: seq<Packet>) {
    p.ok(m.opts) && AllHonest(m.sent, theirs) && AllAsked(p, m.sent)
  }

  /** ... and what its state adds: in AckRcvd the peer has Acked exactly the
      current request, in AckSent and Opened we have Acked the peer's last one. */
  ghost predicate Side<O(!new)>(p: Proto<O>, m: Machine<O>, theirs: seq<Packet>) {
    && Base(p, m, theirs)
    && (m.state.AckRcvd? ==> m.seenAck && Packet(CONFACK, m.reqid, p.ci(m.opts)) in theirs)
    && (m.state.AckSent? || m.state.Opened? ==> Acked(m.sent))
  }

  /** What opening must find: an Ack, under the id of our last request, of exactly
      the options we open with, and our own Ack of the last request answered. */
  predicate Agreed<O>(p: Proto<O>, o: O, id: byte, sent: seq<Packet>, theirs: seq<Packet>) {
    Packet(CONFACK, id, p.ci(o)) in theirs && Acked(sent)
  }

  // ---- Packets sent ----

  lemma SendBase<O(!new)>(p: Proto<O>, m: Machine<O>, theirs: seq<Packet>, code: byte, id: byte, data: bytes)
    requires Base(p, m, theirs) && SMALLEST_MRU <= p.cb.mru(m.opts) < 0x1_0000
    requires code == CONFREQ ==> |data| <= SMALLEST_MRU - HEADERLEN && Asked(p, data)
    requires code == CONFACK ==> |data| <= SMALLEST_MRU - HEADERLEN && Packet(CONFREQ, id, data) in theirs
    ensures Base(p, Send(p.cb, m, code, id, data), theirs)
    ensures !(CONFACK <= code <= CONFREJ) ==> Acked(Send(p.cb, m, code, id, data).sent) == Acked(m.sent)
    ensures code == CONFACK ==> Acked(Send(p.cb, m, code, id, data).sent)
  {
    var n := Send(p.cb, m, code, id, data);
    assert n.sent[..|m.sent|] == m.sent;
  }

  lemma OkFacts<O(!new)>(p: Proto<O>, o: O)
    requires Faithful(p) && p.ok(o)
    ensures |p.ci(o)| <= SMALLEST_MRU - HEADERLEN && SMALLEST_MRU <= p.cb.mru(o) < 0x1_0000
    ensures p.ok(p.cb.resetci(o))
    ensures p.ok(p.cb.down(o)) && p.ok(p.cb.up(o).opts)
    ensures var r := p.cb.addci(o, p.cb.mru(o) - HEADERLEN);
            p.ok(r.0) && (|p.ci(r.0)| <= p.cb.mru(o) - HEADERLEN ==> r.1 == p.ci(r.0))
  {
  }

  lemma SendConfReqBase<O(!new)>(p: Proto<O>, m: Machine<O>, theirs: seq<Packet>, retransmit: bool)
    requires Faithful(p) && Base(p, m, theirs)
    ensures var n := SendConfReq(p.cb, m, retransmit);
            Base(p, n, theirs) && Acked(n.sent) == Acked(m.sent) && n.state == m.state && n.calls == m.calls
  {
    hide Faithful, Base, Send, Acked, Asked;
    BaseOk(p, m, theirs);
    OkFacts(p, m.opts);
    var n := NewRequest(p.cb, m, retransmit);
    BaseSameSent(p, m, theirs, n);
    OkFacts(p, n.opts);
    var r := p.cb.addci(n.opts, p.cb.mru(n.opts) - HEADERLEN);
    OkFacts(p, r.0);
    var a := n.(opts := r.0);
    BaseSameSent(p, n, theirs, a);
    AskedNow(p, r.0);
    SendBase(p, a, theirs, CONFREQ, n.reqid, r.1);
    var s := Send(p.cb, a, CONFREQ, n.reqid, r.1);
    SendKeeps(p.cb, a, CONFREQ, n.reqid, r.1);
    BaseSameSent(p, s, theirs, SendConfReq(p.cb, m, retransmit));
  }

  lemma AskedNow<O(!new)>(p: Proto<O>, o: O)
    requires p.ok(o)
    ensures Asked(p, p.ci(o))
  {
  }

  lemma SendKeeps<O>(cb: Callbacks<O>, m: Machine<O>, code: byte, id: byte, data: bytes)
    ensures var n := Send(cb, m, code, id, data); n == m.(sent := n.sent)
  {
  }

  lemma BaseOk<O(!new)>(p: Proto<O>, m: Machine<O>, theirs: seq<Packet>)
    requires Base(p, m, theirs)
    ensures p.ok(m.opts)
  {
  }

  lemma BaseSameSent<O(!new)>(p: Proto<O>, m: Machine<O>, theirs: seq<Packet>, n: Machine<O>)
    requires Base(p, m, theirs) && n.sent == m.sent && p.ok(n.opts)
    ensures Base(p, n, theirs)
  {
  }

  lemma SendTermReqBase<O(!new)>(p: Proto<O>, m: Machine<O>, theirs: seq<Packet>)
    requires Faithful(p) && Base(p, m, theirs)
    ensures var n := SendTermReq(p.cb, m);
            Base(p, n, theirs) && Acked(n.sent) == Acked(m.sent) && n.state == m.state && n.calls == m.calls
            && n.opts == m.opts
  {
    hide Faithful, Base, Send, Acked;
    BaseOk(p, m, theirs);
    OkFacts(p, m.opts);
    var id := NextId(m.id);
    var a := m.(id := id, reqid := id);
    BaseSameSent(p, m, theirs, a);
    SendBase(p, a, theirs, TERMREQ, id, m.reason);
    var s := Send(p.cb, a, TERMREQ, id, m.reason);
    SendKeeps(p.cb, a, TERMREQ, id, m.reason);
    BaseSameSent(p, s, theirs, SendTermReq(p.cb, m));
  }

  lemma CallDownBase<O(!new)>(p: Proto<O>, m: Machine<O>, theirs: seq<Packet>)
    requires Faithful(p) && Base(p, m, theirs)
    ensures var n := CallDown(p.cb, m);
            Base(p, n, theirs) && n.sent == m.sent && n.state == m.state
  {
    hide Faithful;
    OkFacts(p, m.opts);
  }

  /** Closing never leaves a state that makes a claim about the peer. */
  lemma CloseSide<O(!new)>(p: Proto<O>, m: Machine<O>, theirs: seq<Packet>, reason: bytes)
    requires Faithful(p) && Base(p, m, theirs)
    ensures var n := Close(p.cb, m, reason);
            && Base(p, n, theirs) && Acked(n.sent) == Acked(m.sent)
            && !n.state.AckRcvd? && !n.state.AckSent? && !n.state.Opened?
  {
    hide Faithful, Base, SendTermReq, CallDown, Acked;
    BaseOk(p, m, theirs);
    var m1 := m.(reason := reason);
    BaseSameSent(p, m, theirs, m1);
    BaseSameSent(p, m, theirs, Close(p.cb, m, reason).(sent := m.sent, opts := m.opts));
    if m.state.Opened? {
      CallDownBase(p, m1, theirs);
    } else {
      BaseSameSent(p, m1, theirs, m1.(timers := 0));
    }
    if Negotiating(m.state) || m.state.Opened? {
      var n := Silenced(p.cb, m1);
      BaseOk(p, n, theirs);
      var n1 := n.(retransmits := n.limits.maxTerminate);
      BaseSameSent(p, n, theirs, n1);
      SendTermReqBase(p, n1, theirs);
      var t := SendTermReq(p.cb, n1);
      BaseOk(p, t, theirs);
      BaseSameSent(p, t, theirs, t.(state := Closing));
    } else {
      BaseSameSent(p, m, theirs, Close(p.cb, m, reason));
    }
  }

  // ---- One step of one side ----

  /** How often the layer above has been told the link is up. */
  function Ups(calls: seq<Call>): nat {
    if calls == [] then 0 else Ups(calls[..|calls| - 1]) + (if calls[|calls| - 1].Up? then 1 else 0)
  }

  lemma UpsSnoc(calls: seq<Call>, c: Call)
    ensures Ups(calls + [c]) == Ups(calls) + if c.Up? then 1 else 0
  {
    assert (calls + [c])[..|calls|] == calls;
  }

  /** A step that keeps the side's claims and does not tell the layer above it is up. */
  ghost predicate Good<O(!new)>(p: Proto<O>, m: Machine<O>, n: Machine<O>, theirs: seq<Packet>) {
    Side(p, n, theirs) && Ups(n.calls) == Ups(m.calls)
  }

  /** The options a machine is left with once the layer above has been told, also if that closes it at once. */
  function AfterUp<O>(cb: Callbacks<O>, o: O): O {
    var r := cb.up(o);
    if r.close.Some? then cb.down(r.opts) else r.opts
  }

  /** A step that keeps the side's claims and tells the layer above it is up exactly if it opens with the
      options given, on which the two sides then agree. */
  ghost predicate Opening<O(!new)>(p: Proto<O>, m: Machine<O>, n: Machine<O>, opens: Option<O>, theirs: seq<Packet>) {
    if opens.None? then Good(p, m, n, theirs)
    else
      && Side(p, n, theirs) && Ups(n.calls) == Ups(m.calls) + 1
      && n.opts == AfterUp(p.cb, opens.value) && Agreed(p, opens.value, m.reqid, n.sent, theirs)
  }

  /** The options with which judging a request opens the machine. */
  function Judging<O>(cb: Callbacks<O>, m: Machine<O>, data: bytes): Option<O> {
    var v := cb.reqci(m.opts, data, m.nakloops >= m.limits.maxNak);
    if m.state.AckRcvd? && v.code == CONFACK then Some(v.opts) else None
  }

  /** The options with which an Ack opens the machine. */
  function Accepting<O>(cb: Callbacks<O>, m: Machine<O>, id: byte, data: bytes): Option<O> {
    if m.state.AckSent? && id == m.reqid && !m.seenAck && cb.ackci(m.opts, data) then Some(m.opts) else None
  }

  /** The options with which an event takes a machine into Opened, before the layer above is told. */
  function Entering<O>(cb: Callbacks<O>, m: Machine<O>, e: Event): Option<O> {
    if !e.EvInput? || Parse(e.frame).None? then None
    else
      var pk := Parse(e.frame).value;
      if pk.code == CONFREQ then Judging(cb, m, pk.data)
      else if pk.code == CONFACK then Accepting(cb, m, pk.id, pk.data)
      else None
  }

  lemma CallUpSide<O(!new)>(p: Proto<O>, m: Machine<O>, theirs: seq<Packet>)
    requires Faithful(p) && Base(p, m, theirs) && m.state.Opened? && Acked(m.sent)
    ensures var n := CallUp(p.cb, m);
            && Side(p, n, theirs) && n.opts == AfterUp(p.cb, m.opts) && Acked(n.sent)
            && Ups(n.calls) == Ups(m.calls) + 1
  {
    hide Faithful, Base, Close, Acked, Ups;
    BaseOk(p, m, theirs);
    OkFacts(p, m.opts);
    UpsSnoc(m.calls, Up);
    var r := p.cb.up(m.opts);
    var u := Called(m, Up).(opts := r.opts);
    BaseSameSent(p, m, theirs, u);
    if r.close.Some? {
      CloseSide(p, u, theirs, r.close.value);
      CloseOpened(p.cb, u, r.close.value);
      UpsSnoc(u.calls, Down);
    }
  }

  lemma CloseOpened<O>(cb: Callbacks<O>, m: Machine<O>, reason: bytes)
    requires m.state.Opened?
    ensures var n := Close(cb, m, reason); n.opts == cb.down(m.opts) && n.calls == m.calls + [Down]
  {
  }

  /** A machine in a state that claims nothing. */
  predicate Unclaiming(s: State) {
    !s.AckRcvd? && !s.AckSent? && !s.Opened?
  }

  lemma LowerUpGood<O(!new)>(p: Proto<O>, m: Machine<O>, theirs: seq<Packet>)
    requires Faithful(p) && Side(p, m, theirs)
    ensures Good(p, m, LowerUp(p.cb, m), theirs)
  {
    hide Faithful, SendConfReq, Base, Acked, Ups;
    BaseOk(p, m, theirs);
    SendConfReqBase(p, m, theirs, false);
    var r := SendConfReq(p.cb, m, false);
    BaseOk(p, r, theirs);
    BaseSameSent(p, r, theirs, r.(state := ReqSent));
    BaseSameSent(p, m, theirs, m.(state := Closed));
    BaseSameSent(p, m, theirs, m.(state := Stopped));
  }

  lemma LowerDownGood<O(!new)>(p: Proto<O>, m: Machine<O>, theirs: seq<Packet>)
    requires Faithful(p) && Side(p, m, theirs)
    ensures Good(p, m, LowerDown(p.cb, m), theirs)
  {
    hide Faithful, CallDown, Base, Acked, Ups;
    BaseOk(p, m, theirs);
    var n := LowerDown(p.cb, m);
    if m.state.Opened? {
      CallDownBase(p, m, theirs);
      var d := CallDown(p.cb, m);
      BaseOk(p, d, theirs);
      BaseSameSent(p, d, theirs, n);
      CallDownCalls(p.cb, m);
      UpsSnoc(m.calls, Down);
    } else {
      BaseSameSent(p, m, theirs, n);
      UpsSnoc(m.calls, LowerNeeded);
    }
  }

  lemma CallDownCalls<O>(cb: Callbacks<O>, m: Machine<O>)
    ensures CallDown(cb, m).calls == m.calls + [Down]
  {
  }

  lemma RestartGood<O(!new)>(p: Proto<O>, m: Machine<O>, theirs: seq<Packet>)
    requires Faithful(p) && Side(p, m, theirs)
    ensures Good(p, m, Restart(p.cb, m), theirs)
  {
    hide Faithful, LowerUp, LowerDown, Side, Ups;
    LowerDownGood(p, m, theirs);
    LowerUpGood(p, LowerDown(p.cb, m), theirs);
  }

  lemma OpenGood<O(!new)>(p: Proto<O>, m: Machine<O>, theirs: seq<Packet>, flags: Flags)
    requires Faithful(p) && Side(p, m, theirs)
    ensures Good(p, m, Open(p.cb, m, flags), theirs)
  {
    hide Faithful, Restart, SendConfReq, Base, Acked, Ups;
    BaseOk(p, m, theirs);
    var m1 := m.(flags := flags);
    BaseSameSent(p, m, theirs, m1);
    match m.state
    case Initial =>
      BaseSameSent(p, m, theirs, Open(p.cb, m, flags));
      UpsSnoc(m.calls, LowerNeeded);
    case Closed =>
      BaseSameSent(p, m, theirs, m1.(state := Stopped));
      SendConfReqBase(p, m1, theirs, false);
      var r := SendConfReq(p.cb, m1, false);
      BaseOk(p, r, theirs);
      BaseSameSent(p, r, theirs, r.(state := ReqSent));
    case Closing =>
      BaseSameSent(p, m, theirs, m1.(state := Stopping));
      RestartGood(p, m1.(state := Stopping), theirs);
    case Stopped => RestartGood(p, m1, theirs);
    case Opened => RestartGood(p, m1, theirs);
    case _ =>
  }

  lemma CloseCalls<O>(cb: Callbacks<O>, m: Machine<O>, reason: bytes)
    ensures Close(cb, m, reason).calls == m.calls
         || Close(cb, m, reason).calls == m.calls + [Down]
         || Close(cb, m, reason).calls == m.calls + [LowerDone]
  {
  }

  lemma CloseGood<O(!new)>(p: Proto<O>, m: Machine<O>, theirs: seq<Packet>, reason: bytes)
    requires Faithful(p) && Side(p, m, theirs)
    ensures Good(p, m, Close(p.cb, m, reason), theirs)
  {
    hide Faithful, Close, Base, Acked, Ups;
    CloseSide(p, m, theirs, reason);
    CloseCalls(p.cb, m, reason);
    UpsSnoc(m.calls, Down);
    UpsSnoc(m.calls, LowerDone);
  }

  lemma TimeoutGood<O(!new)>(p: Proto<O>, m: Machine<O>, theirs: seq<Packet>)
    requires Faithful(p) && Side(p, m, theirs)
    ensures Good(p, m, Timeout(p.cb, m), theirs)
  {
    hide Faithful, SendConfReq, SendTermReq, Base, Acked, Ups;
    BaseOk(p, m, theirs);
    if m.timers > 0 {
      var m1 := m.(timers := m.timers - 1);
      BaseSameSent(p, m, theirs, m1);
      if FsmRuns.Timed(m.state) && m.retransmits <= 0 {
        BaseSameSent(p, m1, theirs, TimeoutHandler(p.cb, m1));
        UpsSnoc(m.calls, LowerDone);
      } else if Terminating(m.state) {
        SendTermReqBase(p, m1, theirs);
      } else if Negotiating(m.state) {
        SendConfReqBase(p, m1, theirs, true);
        var r := SendConfReq(p.cb, m1, true);
        BaseOk(p, r, theirs);
        BaseSameSent(p, r, theirs, r.(state := ReqSent));
      }
    }
  }

  lemma JudgeGood<O(!new)>(p: Proto<O>, m: Machine<O>, theirs: seq<Packet>, id: byte, data: bytes)
    requires Faithful(p) && Base(p, m, theirs)
    requires m.state.AckRcvd? ==> m.seenAck && Packet(CONFACK, m.reqid, p.ci(m.opts)) in theirs
    requires Packet(CONFREQ, id, data) in theirs && |data| <= SMALLEST_MRU - HEADERLEN
    ensures Opening(p, m, Judge(p.cb, m, id, data), Judging(p.cb, m, data), theirs)
  {
    hide Faithful, Send, Base, Acked, Ups, CallUp, AfterUp;
    BaseOk(p, m, theirs);
    ReqFacts(p, m.opts, data, m.nakloops >= m.limits.maxNak);
    var v := p.cb.reqci(m.opts, data, m.nakloops >= m.limits.maxNak);
    OkFacts(p, v.opts);
    var m1 := m.(opts := v.opts);
    BaseSameSent(p, m, theirs, m1);
    SendBase(p, m1, theirs, v.code, id, v.reply);
    SendKeeps(p.cb, m1, v.code, id, v.reply);
    var n := Send(p.cb, m1, v.code, id, v.reply);
    if v.code == CONFACK && n.state.AckRcvd? {
      var n1 := n.(timers := 0, state := Opened);
      BaseSameSent(p, n, theirs, n1);
      CallUpSide(p, n1, theirs);
      var u := CallUp(p.cb, n1);
      BaseOk(p, u, theirs);
      BaseSameSent(p, u, theirs, u.(nakloops := 0));
    } else {
      BaseSameSent(p, n, theirs, Judge(p.cb, m, id, data));
    }
  }

  lemma ReqFacts<O(!new)>(p: Proto<O>, o: O, data: bytes, tough: bool)
    requires Faithful(p) && p.ok(o)
    ensures var v := p.cb.reqci(o, data, tough);
            && p.ok(v.opts) && p.ci(v.opts) == p.ci(o)
            && CONFACK <= v.code <= CONFREJ && (v.code == CONFACK ==> v.reply == data)
  {
  }

  lemma RConfReqGood<O(!new)>(p: Proto<O>, m: Machine<O>, theirs: seq<Packet>, id: byte, data: bytes)
    requires Faithful(p) && Side(p, m, theirs)
    requires Packet(CONFREQ, id, data) in theirs && |data| <= SMALLEST_MRU - HEADERLEN
    ensures Opening(p, m, RConfReq(p.cb, m, id, data), Judging(p.cb, m, data), theirs)
  {
    hide Faithful, SendConfReq, CallDown, Send, Judge, Base, Acked, Ups, AfterUp;
    BaseOk(p, m, theirs);
    OkFacts(p, m.opts);
    match m.state
    case Closed =>
      SendBase(p, m, theirs, TERMACK, id, []);
      SendKeeps(p.cb, m, TERMACK, id, []);
    case Closing =>
    case Stopping =>
    case Opened =>
      CallDownBase(p, m, theirs);
      var d := CallDown(p.cb, m);
      SendConfReqBase(p, d, theirs, false);
      JudgeGood(p, SendConfReq(p.cb, d, false), theirs, id, data);
      CallDownCalls(p.cb, m);
      UpsSnoc(m.calls, Down);
    case Stopped =>
      SendConfReqBase(p, m, theirs, false);
      var r := SendConfReq(p.cb, m, false);
      BaseOk(p, r, theirs);
      BaseSameSent(p, r, theirs, r.(state := ReqSent));
      JudgeGood(p, r.(state := ReqSent), theirs, id, data);
    case _ => JudgeGood(p, m, theirs, id, data);
  }

  lemma AckFacts<O(!new)>(p: Proto<O>, o: O, data: bytes)
    requires Faithful(p) && p.ok(o)
    ensures p.cb.ackci(o, data) ==> data == p.ci(o)
  {
  }

  /** Going down and asking afresh. */
  lemma RenegotiateGood<O(!new)>(p: Proto<O>, m: Machine<O>, theirs: seq<Packet>, n: Machine<O>)
    requires Faithful(p) && Base(p, m, theirs)
    requires n == SendConfReq(p.cb, CallDown(p.cb, m), false).(state := n.state)
    requires Unclaiming(n.state) || (n.state.Opened? && Acked(m.sent))
    ensures Good(p, m, n, theirs)
  {
    hide Faithful, SendConfReq, CallDown, Base, Acked, Ups;
    CallDownBase(p, m, theirs);
    var d := CallDown(p.cb, m);
    SendConfReqBase(p, d, theirs, false);
    var r := SendConfReq(p.cb, d, false);
    BaseOk(p, r, theirs);
    BaseSameSent(p, r, theirs, n);
    CallDownCalls(p.cb, m);
    UpsSnoc(m.calls, Down);
  }

  lemma RConfAckGood<O(!new)>(p: Proto<O>, m: Machine<O>, theirs: seq<Packet>, id: byte, data: bytes)
    requires Faithful(p) && Side(p, m, theirs) && Packet(CONFACK, id, data) in theirs
    ensures Opening(p, m, RConfAck(p.cb, m, id, data), Accepting(p.cb, m, id, data), theirs)
  {
    hide Faithful, SendConfReq, CallDown, CallUp, Send, Base, Acked, Ups, AfterUp;
    BaseOk(p, m, theirs);
    OkFacts(p, m.opts);
    AckFacts(p, m.opts, data);
    if id == m.reqid && !m.seenAck && p.cb.ackci(m.opts, data) {
      var a := m.(seenAck := true);
      BaseSameSent(p, m, theirs, a);
      match m.state
      case Closed =>
        SendBase(p, a, theirs, TERMACK, id, []);
        SendKeeps(p.cb, a, TERMACK, id, []);
      case Stopped =>
        SendBase(p, a, theirs, TERMACK, id, []);
        SendKeeps(p.cb, a, TERMACK, id, []);
      case ReqSent => BaseSameSent(p, m, theirs, RConfAck(p.cb, m, id, data));
      case AckSent =>
        var n1 := a.(timers := 0, state := Opened, retransmits := a.limits.maxConfigure);
        BaseSameSent(p, a, theirs, n1);
        CallUpSide(p, n1, theirs);
      case Opened => RenegotiateGood(p, a, theirs, RConfAck(p.cb, m, id, data));
      case _ =>
    }
  }

  lemma RefusedGood<O(!new)>(p: Proto<O>, m: Machine<O>, theirs: seq<Packet>, id: byte, ret: int)
    requires Faithful(p) && Base(p, m, theirs)
    requires m.state.AckSent? || m.state.Opened? ==> Acked(m.sent)
    ensures Good(p, m, Refused(p.cb, m, id, ret), theirs)
  {
    hide Faithful, SendConfReq, CallDown, Send, Base, Acked, Ups;
    BaseOk(p, m, theirs);
    OkFacts(p, m.opts);
    var t := m.(timers := 0);
    BaseSameSent(p, m, theirs, t);
    match m.state
    case Opened => RenegotiateGood(p, m, theirs, Refused(p.cb, m, id, ret));
    case Closed =>
      SendBase(p, m, theirs, TERMACK, id, []);
      SendKeeps(p.cb, m, TERMACK, id, []);
    case Stopped =>
      SendBase(p, m, theirs, TERMACK, id, []);
      SendKeeps(p.cb, m, TERMACK, id, []);
    case Initial =>
    case Starting =>
    case Closing =>
    case Stopping =>
    case _ =>
      BaseSameSent(p, t, theirs, t.(state := Stopped));
      SendConfReqBase(p, t, theirs, false);
      var r := SendConfReq(p.cb, t, false);
      BaseOk(p, r, theirs);
      BaseSameSent(p, r, theirs, r.(state := ReqSent));
  }

  lemma RefusalFacts<O(!new)>(p: Proto<O>, o: O, b: bool, data: bytes)
    requires Faithful(p) && p.ok(o)
    ensures p.ok(p.cb.nakci(o, b, data).opts) && p.ok(p.cb.rejci(o, b, data).opts)
  {
  }

  lemma RConfRefusedGood<O(!new)>(p: Proto<O>, m: Machine<O>, theirs: seq<Packet>, nak: bool, id: byte, data: bytes)
    requires Faithful(p) && Side(p, m, theirs)
    ensures Good(p, m, RConfRefused(p.cb, m, nak, id, data), theirs)
  {
    hide Faithful, Close, Refused, Base, Acked, Ups;
    BaseOk(p, m, theirs);
    if id == m.reqid && !m.seenAck {
      RefusalFacts(p, m.opts, m.state.Opened?, data);
      var r := if nak then p.cb.nakci(m.opts, m.state.Opened?, data) else p.cb.rejci(m.opts, m.state.Opened?, data);
      var m1 := m.(opts := r.opts);
      BaseSameSent(p, m, theirs, m1);
      if r.close.Some? {
        CloseGood(p, m1, theirs, r.close.value);
      }
      var n := CloseIfAsked(p.cb, m1, r.close);
      if r.ret != 0 {
        BaseOk(p, n, theirs);
        BaseSameSent(p, n, theirs, n.(seenAck := true));
        RefusedGood(p, n.(seenAck := true), theirs, id, r.ret);
      }
    }
  }

  lemma {:induction false} SendAllBase<O(!new)>(p: Proto<O>, m: Machine<O>, theirs: seq<Packet>, ps: seq<Packet>)
    requires Faithful(p) && Base(p, m, theirs)
    requires forall i | 0 <= i < |ps| :: ps[i].code > CODEREJ
    ensures Base(p, SendAll(p.cb, m, ps), theirs) && Acked(SendAll(p.cb, m, ps).sent) == Acked(m.sent)
    decreases |ps|
  {
    hide Faithful, Send, Base, Acked;
    if ps != [] {
      BaseOk(p, m, theirs);
      OkFacts(p, m.opts);
      SendBase(p, m, theirs, ps[0].code, ps[0].id, ps[0].data);
      SendAllBase(p, Send(p.cb, m, ps[0].code, ps[0].id, ps[0].data), theirs, ps[1..]);
    }
  }

  lemma ExtFacts<O(!new)>(p: Proto<O>, o: O, b: bool, pk: Packet)
    requires Faithful(p) && p.ok(o)
    ensures forall i | 0 <= i < |p.cb.extcode(o, b, pk).reply| :: p.cb.extcode(o, b, pk).reply[i].code > CODEREJ
  {
  }

  lemma RUnknownGood<O(!new)>(p: Proto<O>, m: Machine<O>, theirs: seq<Packet>, pk: Packet, whole: bytes)
    requires Faithful(p) && Side(p, m, theirs)
    ensures Good(p, m, RUnknown(p.cb, m, pk, whole), theirs)
  {
    hide Faithful, Send, SendAll, Base, Acked, Ups;
    BaseOk(p, m, theirs);
    OkFacts(p, m.opts);
    ExtFacts(p, m.opts, m.state.Opened?, pk);
    var h := p.cb.extcode(m.opts, m.state.Opened?, pk);
    SendAllBase(p, m, theirs, h.reply);
    FsmRuns.SendAllKeeps(p.cb, m, h.reply);
    var m1 := m.(id := NextId(m.id));
    BaseSameSent(p, m, theirs, m1);
    SendBase(p, m1, theirs, CODEREJ, m1.id, whole);
    SendKeeps(p.cb, m1, CODEREJ, m1.id, whole);
  }

  lemma RTermReqGood<O(!new)>(p: Proto<O>, m: Machine<O>, theirs: seq<Packet>, id: byte)
    requires Faithful(p) && Side(p, m, theirs)
    ensures Good(p, m, RTermReq(p.cb, m, id), theirs)
  {
    hide Faithful, Send, CallDown, Base, Acked, Ups;
    BaseOk(p, m, theirs);
    OkFacts(p, m.opts);
    if m.state.Opened? {
      var m1 := m.(retransmits := 0, state := Stopping);
      BaseSameSent(p, m, theirs, m1);
      CallDownBase(p, m1, theirs);
      CallDownCalls(p.cb, m1);
      UpsSnoc(m.calls, Down);
      var d := CallDown(p.cb, m1);
      BaseOk(p, d, theirs);
      OkFacts(p, d.opts);
      var d1 := d.(timers := d.timers + 1);
      BaseSameSent(p, d, theirs, d1);
      SendBase(p, d1, theirs, TERMACK, id, []);
      SendKeeps(p.cb, d1, TERMACK, id, []);
    } else {
      var n := if m.state.AckRcvd? || m.state.AckSent? then m.(state := ReqSent) else m;
      BaseSameSent(p, m, theirs, n);
      SendBase(p, n, theirs, TERMACK, id, []);
      SendKeeps(p.cb, n, TERMACK, id, []);
    }
  }

  lemma RTermAckGood<O(!new)>(p: Proto<O>, m: Machine<O>, theirs: seq<Packet>)
    requires Faithful(p) && Side(p, m, theirs)
    ensures Good(p, m, RTermAck(p.cb, m), theirs)
  {
    hide Faithful, SendConfReq, CallDown, Base, Acked, Ups;
    BaseOk(p, m, theirs);
    if m.state.Opened? {
      SendConfReqState(p.cb, CallDown(p.cb, m), false);
      CallDownBase(p, m, theirs);
      RenegotiateGood(p, m, theirs, RTermAck(p.cb, m));
    } else {
      BaseSameSent(p, m, theirs, RTermAck(p.cb, m));
      UpsSnoc(m.calls, LowerDone);
    }
  }

  lemma SendConfReqState<O>(cb: Callbacks<O>, m: Machine<O>, retransmit: bool)
    ensures SendConfReq(cb, m, retransmit).state == m.state
  {
  }

  lemma ProtRejectGood<O(!new)>(p: Proto<O>, m: Machine<O>, theirs: seq<Packet>)
    requires Faithful(p) && Side(p, m, theirs)
    ensures Good(p, m, ProtReject(p.cb, m), theirs)
  {
    hide Faithful, SendTermReq, CallDown, Base, Acked, Ups;
    BaseOk(p, m, theirs);
    if m.state.Opened? {
      CallDownBase(p, m, theirs);
      CallDownCalls(p.cb, m);
      UpsSnoc(m.calls, Down);
      var d := CallDown(p.cb, m);
      BaseOk(p, d, theirs);
      var d1 := d.(retransmits := d.limits.maxTerminate);
      BaseSameSent(p, d, theirs, d1);
      SendTermReqBase(p, d1, theirs);
      var t := SendTermReq(p.cb, d1);
      BaseOk(p, t, theirs);
      BaseSameSent(p, t, theirs, t.(state := Stopping));
    } else {
      BaseSameSent(p, m, theirs, ProtReject(p.cb, m));
      UpsSnoc(m.calls, LowerDone);
    }
  }

  /** A frame that carries a packet the peer really sent. */
  ghost predicate Delivered(e: Event, theirs: seq<Packet>) {
    e.EvInput? ==>
      exists i, padding :: 0 <= i < |theirs| && e.frame == Format(theirs[i]) + padding
  }

  lemma DeliveredParses(frame: bytes, theirs: seq<Packet>, mine: seq<Packet>)
    requires Delivered(EvInput(frame), theirs) && AllHonest(theirs, mine)
    ensures Parse(frame).Some? && Parse(frame).value in theirs
    ensures Honest(Parse(frame).value, mine)
  {
    hide Format, Parse, Honest;
    var i, padding :| 0 <= i < |theirs| && frame == Format(theirs[i]) + padding;
    HonestSize(theirs[i], mine);
    ParseFormat(theirs[i], padding);
  }

  lemma HonestSize(pk: Packet, mine: seq<Packet>)
    requires Honest(pk, mine)
    ensures |pk.data| + HEADERLEN < 0x1_0000
  {
  }

  lemma InputGood<O(!new)>(p: Proto<O>, m: Machine<O>, theirs: seq<Packet>, frame: bytes)
    requires Faithful(p) && Side(p, m, theirs)
    requires Delivered(EvInput(frame), theirs) && AllHonest(theirs, m.sent)
    ensures Opening(p, m, Input(p.cb, m, frame), Entering(p.cb, m, EvInput(frame)), theirs)
  {
    hide Faithful, Side, Good, Parse, Delivered, AllHonest, RConfReq, RConfAck, RConfRefused, RTermReq, RTermAck,
    RUnknown, AfterUp, Agreed;
    DeliveredParses(frame, theirs, m.sent);
    var pk := Parse(frame).value;
    StayGood(p, m, theirs);
    if pk.code == CONFREQ {
      RConfReqGood(p, m, theirs, pk.id, pk.data);
    } else if pk.code == CONFACK {
      RConfAckGood(p, m, theirs, pk.id, pk.data);
    } else if pk.code == CONFNAK || pk.code == CONFREJ {
      RConfRefusedGood(p, m, theirs, pk.code == CONFNAK, pk.id, pk.data);
    } else if pk.code == TERMREQ {
      RTermReqGood(p, m, theirs, pk.id);
    } else if pk.code == TERMACK {
      RTermAckGood(p, m, theirs);
    } else if pk.code != CODEREJ {
      RUnknownGood(p, m, theirs, pk, frame[..|pk.data| + HEADERLEN]);
    }
  }

  /** Doing nothing, or leaving AckRcvd for ReqSent, keeps the claims. */
  lemma StayGood<O(!new)>(p: Proto<O>, m: Machine<O>, theirs: seq<Packet>)
    requires Side(p, m, theirs)
    ensures Good(p, m, m, theirs) && Good(p, m, m.(state := ReqSent), theirs)
  {
    hide Asked;
  }

  lemma StepGood<O(!new)>(p: Proto<O>, m: Machine<O>, theirs: seq<Packet>, e: Event)
    requires Faithful(p) && Side(p, m, theirs) && Delivered(e, theirs) && AllHonest(theirs, m.sent)
    ensures Opening(p, m, Step(p.cb, m, e), Entering(p.cb, m, e), theirs)
  {
    hide Faithful, Side, Good, Agreed, AfterUp, Delivered, AllHonest;
    hide LowerUp, LowerDown, Open, Close, Timeout, Input, ProtReject;
    match e
    case EvUp => LowerUpGood(p, m, theirs);
    case EvDown => LowerDownGood(p, m, theirs);
    case EvOpen(flags) => OpenGood(p, m, theirs, flags);
    case EvClose(reason) => CloseGood(p, m, theirs, reason);
    case EvTimeout => TimeoutGood(p, m, theirs);
    case EvInput(frame) => InputGood(p, m, theirs, frame);
    case EvProtReject => ProtRejectGood(p, m, theirs);
  }

  // ---- What has been sent stays sent, and what sends an Ack ----

  /** More has been sent, and no Ack. */
  predicate Adds(before: seq<Packet>, after: seq<Packet>) {
    before <= after && forall i | |before| <= i < |after| :: after[i].code != CONFACK
  }

  lemma AddsTwice(a: seq<Packet>, b: seq<Packet>, c: seq<Packet>)
    requires Adds(a, b) && Adds(b, c)
    ensures Adds(a, c)
  {
  }

  lemma SendAdds<O>(cb: Callbacks<O>, m: Machine<O>, code: byte, id: byte, data: bytes)
    ensures m.sent <= Send(cb, m, code, id, data).sent
    ensures code != CONFACK ==> Adds(m.sent, Send(cb, m, code, id, data).sent)
  {
    hide Clip;
  }

  lemma SendConfReqGrows<O>(cb: Callbacks<O>, m: Machine<O>, retransmit: bool)
    ensures Adds(m.sent, SendConfReq(cb, m, retransmit).sent)
  {
    hide Clip;
  }

  lemma LowerGrows<O>(cb: Callbacks<O>, m: Machine<O>)
    ensures Adds(m.sent, LowerUp(cb, m).sent) && LowerDown(cb, m).sent == m.sent
  {
    hide SendConfReq;
    SendConfReqGrows(cb, m, false);
  }

  lemma OpenGrows<O>(cb: Callbacks<O>, m: Machine<O>, flags: Flags)
    ensures Adds(m.sent, Open(cb, m, flags).sent)
  {
    hide SendConfReq, LowerUp, LowerDown;
    var m1 := m.(flags := flags);
    SendConfReqGrows(cb, m1, false);
    var n := if m1.state.Closing? then m1.(state := Stopping) else m1;
    LowerGrows(cb, n);
    LowerGrows(cb, LowerDown(cb, n));
  }

  lemma CloseGrows<O>(cb: Callbacks<O>, m: Machine<O>, reason: bytes)
    ensures Adds(m.sent, Close(cb, m, reason).sent)
  {
    hide Clip;
  }

  lemma CallUpGrows<O>(cb: Callbacks<O>, m: Machine<O>)
    ensures Adds(m.sent, CallUp(cb, m).sent)
  {
    hide Close;
    var r := cb.up(m.opts);
    if r.close.Some? {
      CloseGrows(cb, Called(m, Up).(opts := r.opts), r.close.value);
    }
  }

  lemma TimeoutGrows<O>(cb: Callbacks<O>, m: Machine<O>)
    ensures Adds(m.sent, Timeout(cb, m).sent)
  {
    hide SendConfReq, Clip;
    SendConfReqGrows(cb, m.(timers := if m.timers > 0 then m.timers - 1 else 0), true);
  }

  /** The one packet an answer is, and what may follow it. */
  lemma JudgeGrows<O>(cb: Callbacks<O>, m: Machine<O>, id: byte, data: bytes)
    ensures var v := cb.reqci(m.opts, data, m.nakloops >= m.limits.maxNak);
            var n := Send(cb, m.(opts := v.opts), v.code, id, v.reply);
            m.sent <= n.sent && Adds(n.sent, Judge(cb, m, id, data).sent)
  {
    hide CallUp, Send;
    var v := cb.reqci(m.opts, data, m.nakloops >= m.limits.maxNak);
    var n := Send(cb, m.(opts := v.opts), v.code, id, v.reply);
    SendAdds(cb, m.(opts := v.opts), v.code, id, v.reply);
    CallUpGrows(cb, n.(timers := 0, state := Opened));
  }

  lemma JudgedGrows<O>(cb: Callbacks<O>, m: Machine<O>)
    ensures Adds(m.sent, FsmRuns.Judged(cb, m).sent)
  {
    hide SendConfReq;
    SendConfReqGrows(cb, CallDown(cb, m), false);
    SendConfReqGrows(cb, m, false);
  }

  lemma RConfReqGrows<O>(cb: Callbacks<O>, m: Machine<O>, id: byte, data: bytes)
    ensures m.sent <= RConfReq(cb, m, id, data).sent
    ensures !FsmRuns.Judges(m.state) ==>
              Adds(m.sent, RConfReq(cb, m, id, data).sent) || m.state.Initial? || m.state.Starting?
  {
    hide SendConfReq, Judge, Send, CallDown;
    JudgedGrows(cb, m);
    SendAdds(cb, m, TERMACK, id, []);
    JudgeGrows(cb, FsmRuns.Judged(cb, m), id, data);
  }

  lemma RConfAckGrows<O>(cb: Callbacks<O>, m: Machine<O>, id: byte, data: bytes)
    ensures Adds(m.sent, RConfAck(cb, m, id, data).sent)
  {
    hide SendConfReq, CallUp, Clip;
    var a := m.(seenAck := true);
    SendConfReqGrows(cb, a.(timers := 0), false);
    SendConfReqGrows(cb, CallDown(cb, a), false);
    CallUpGrows(cb, a.(timers := 0, state := Opened, retransmits := a.limits.maxConfigure));
  }

  lemma RefusedGrows<O>(cb: Callbacks<O>, m: Machine<O>, id: byte, ret: int)
    ensures Adds(m.sent, Refused(cb, m, id, ret).sent)
  {
    hide SendConfReq, Clip;
    SendConfReqGrows(cb, m.(timers := 0), false);
    SendConfReqGrows(cb, CallDown(cb, m), false);
  }

  lemma RConfRefusedGrows<O>(cb: Callbacks<O>, m: Machine<O>, nak: bool, id: byte, data: bytes)
    ensures Adds(m.sent, RConfRefused(cb, m, nak, id, data).sent)
  {
    hide Refused, Close;
    var r := if nak then cb.nakci(m.opts, m.state.Opened?, data) else cb.rejci(m.opts, m.state.Opened?, data);
    var m1 := m.(opts := r.opts);
    if r.close.Some? {
      CloseGrows(cb, m1, r.close.value);
    }
    var n := CloseIfAsked(cb, m1, r.close).(seenAck := true);
    RefusedGrows(cb, n, id, r.ret);
  }

  lemma {:induction false} SendAllGrows<O>(cb: Callbacks<O>, m: Machine<O>, ps: seq<Packet>)
    ensures m.sent <= SendAll(cb, m, ps).sent
    ensures (forall i | 0 <= i < |ps| :: ps[i].code != CONFACK) ==> Adds(m.sent, SendAll(cb, m, ps).sent)
    decreases |ps|
  {
    hide Send;
    if ps != [] {
      SendAdds(cb, m, ps[0].code, ps[0].id, ps[0].data);
      SendAllGrows(cb, Send(cb, m, ps[0].code, ps[0].id, ps[0].data), ps[1..]);
    }
  }

  lemma RUnknownGrows<O>(cb: Callbacks<O>, m: Machine<O>, pk: Packet, whole: bytes)
    ensures m.sent <= RUnknown(cb, m, pk, whole).sent
    ensures var reply := cb.extcode(m.opts, m.state.Opened?, pk).reply;
            (forall i | 0 <= i < |reply| :: reply[i].code != CONFACK) ==> Adds(m.sent, RUnknown(cb, m, pk, whole).sent)
  {
    hide Send, SendAll;
    SendAllGrows(cb, m, cb.extcode(m.opts, m.state.Opened?, pk).reply);
    SendAdds(cb, m.(id := NextId(m.id)), CODEREJ, NextId(m.id), whole);
  }

  lemma OthersGrow<O>(cb: Callbacks<O>, m: Machine<O>, id: byte)
    ensures Adds(m.sent, RTermReq(cb, m, id).sent) && Adds(m.sent, RTermAck(cb, m).sent)
    ensures Adds(m.sent, ProtReject(cb, m).sent)
  {
    hide SendConfReq, Clip;
    SendConfReqGrows(cb, CallDown(cb, m), false);
  }

  lemma StepGrows<O>(cb: Callbacks<O>, m: Machine<O>, e: Event)
    ensures m.sent <= Step(cb, m, e).sent
    ensures e.EvInput? || Adds(m.sent, Step(cb, m, e).sent)
  {
    hide RConfReq, RConfAck, RConfRefused, RTermReq, RTermAck, RUnknown, LowerUp, LowerDown, Open, Close,
    Timeout, ProtReject, Parse;
    match e
    case EvUp => LowerGrows(cb, m);
    case EvDown => LowerGrows(cb, m);
    case EvOpen(flags) => OpenGrows(cb, m, flags);
    case EvClose(reason) => CloseGrows(cb, m, reason);
    case EvTimeout => TimeoutGrows(cb, m);
    case EvProtReject => OthersGrow(cb, m, 0);
    case EvInput(frame) =>
      var r := Parse(frame);
      if r.Some? {
        var pk := r.value;
        RConfReqGrows(cb, m, pk.id, pk.data);
        RConfAckGrows(cb, m, pk.id, pk.data);
        RConfRefusedGrows(cb, m, pk.code == CONFNAK, pk.id, pk.data);
        OthersGrow(cb, m, pk.id);
        RUnknownGrows(cb, m, pk, frame[..|pk.data| + HEADERLEN]);
      }
  }

  /** A packet of this step is an Ack only if the step judges a request. */
  lemma AckMeansJudged<O(!new)>(p: Proto<O>, m: Machine<O>, frame: bytes)
    requires Faithful(p) && p.ok(m.opts) && Parse(frame).Some?
    requires !(Parse(frame).value.code == CONFREQ && FsmRuns.Judges(m.state))
    ensures Adds(m.sent, Input(p.cb, m, frame).sent)
  {
    hide Faithful, RConfReq, RConfAck, RConfRefused, RTermReq, RTermAck, RUnknown, Parse;
    var pk := Parse(frame).value;
    RConfReqGrows(p.cb, m, pk.id, pk.data);
    RConfAckGrows(p.cb, m, pk.id, pk.data);
    RConfRefusedGrows(p.cb, m, pk.code == CONFNAK, pk.id, pk.data);
    OthersGrow(p.cb, m, pk.id);
    ExtFacts(p, m.opts, m.state.Opened?, pk);
    RUnknownGrows(p.cb, m, pk, frame[..|pk.data| + HEADERLEN]);
  }

  /** The verdict on the request a frame carries. */
  function VerdictOn<O>(cb: Callbacks<O>, m: Machine<O>, data: bytes): Verdict<O> {
    var j := FsmRuns.Judged(cb, m);
    cb.reqci(j.opts, data, j.nakloops >= j.limits.maxNak)
  }

  /** An Ack is the answer to the request just received, returned as it came, and the options afterwards are
      those the judgement left, or if it opened the machine what the layer above made of them. */
  ghost predicate AnswersRequest<O(!new)>(p: Proto<O>, m: Machine<O>, e: Event, n: Machine<O>, pk: Packet) {
    && e.EvInput? && Parse(e.frame) == Some(Packet(CONFREQ, pk.id, pk.data)) && FsmRuns.Judges(m.state)
    && var v := VerdictOn(p.cb, m, pk.data);
    && v.code == CONFACK
    && n.opts == if Entering(p.cb, m, e).Some? then AfterUp(p.cb, v.opts) else v.opts
  }

  lemma JudgedOk<O(!new)>(p: Proto<O>, m: Machine<O>, theirs: seq<Packet>)
    requires Faithful(p) && Base(p, m, theirs)
    ensures p.ok(FsmRuns.Judged(p.cb, m).opts)
  {
    hide Faithful, Base, SendConfReq, CallDown, Acked;
    BaseOk(p, m, theirs);
    CallDownBase(p, m, theirs);
    SendConfReqBase(p, CallDown(p.cb, m), theirs, false);
    SendConfReqBase(p, m, theirs, false);
    BaseOk(p, SendConfReq(p.cb, CallDown(p.cb, m), false), theirs);
    BaseOk(p, SendConfReq(p.cb, m, false), theirs);
  }

  lemma JudgeAck<O(!new)>(p: Proto<O>, j: Machine<O>, id: byte, data: bytes, i: nat)
    requires Faithful(p) && p.ok(j.opts) && |data| <= SMALLEST_MRU - HEADERLEN
    requires |j.sent| <= i < |Judge(p.cb, j, id, data).sent| && Judge(p.cb, j, id, data).sent[i].code == CONFACK
    ensures var v := p.cb.reqci(j.opts, data, j.nakloops >= j.limits.maxNak);
            && v.code == CONFACK && Judge(p.cb, j, id, data).sent[i] == Packet(CONFACK, id, data)
            && Judge(p.cb, j, id, data).opts == if j.state.AckRcvd? then AfterUp(p.cb, v.opts) else v.opts
  {
    hide Faithful, Judge;
    ReqFacts(p, j.opts, data, j.nakloops >= j.limits.maxNak);
    var v := p.cb.reqci(j.opts, data, j.nakloops >= j.limits.maxNak);
    OkFacts(p, v.opts);
    JudgeGrows(p.cb, j, id, data);
    JudgeOpts(p.cb, j, id, data);
  }

  lemma JudgeOpts<O>(cb: Callbacks<O>, j: Machine<O>, id: byte, data: bytes)
    ensures var v := cb.reqci(j.opts, data, j.nakloops >= j.limits.maxNak);
            v.code == CONFACK ==>
              Judge(cb, j, id, data).opts == if j.state.AckRcvd? then AfterUp(cb, v.opts) else v.opts
  {
    hide Close;
    var v := cb.reqci(j.opts, data, j.nakloops >= j.limits.maxNak);
    var n := Send(cb, j.(opts := v.opts), v.code, id, v.reply).(timers := 0, state := Opened);
    var r := cb.up(n.opts);
    if r.close.Some? {
      CloseOpened(cb, Called(n, Up).(opts := r.opts), r.close.value);
    }
  }

  lemma StepAcks<O(!new)>(p: Proto<O>, m: Machine<O>, theirs: seq<Packet>, e: Event, i: nat)
    requires Faithful(p) && Side(p, m, theirs) && Delivered(e, theirs) && AllHonest(theirs, m.sent)
    requires |m.sent| <= i < |Step(p.cb, m, e).sent| && Step(p.cb, m, e).sent[i].code == CONFACK
    ensures AnswersRequest(p, m, e, Step(p.cb, m, e), Step(p.cb, m, e).sent[i])
    ensures Parse(e.frame).value in theirs
  {
    hide Faithful, Base, Acked, Delivered, AllHonest, Parse, LowerUp, LowerDown, Open, Close, Timeout, ProtReject,
    RConfReq, RConfAck, RConfRefused, RTermReq, RTermAck, RUnknown, Judge, FsmRuns.Judged, AfterUp;
    StepGrows(p.cb, m, e);
    DeliveredParses(e.frame, theirs, m.sent);
    BaseOk(p, m, theirs);
    var pk := Parse(e.frame).value;
    if !(pk.code == CONFREQ && FsmRuns.Judges(m.state)) {
      AckMeansJudged(p, m, e.frame);
    } else {
      FsmRuns.RConfReqJudges(p.cb, m, pk.id, pk.data);
      JudgedOk(p, m, theirs);
      JudgedGrows(p.cb, m);
      JudgedState(p.cb, m);
      var j := FsmRuns.Judged(p.cb, m);
      assert j.sent <= Judge(p.cb, j, pk.id, pk.data).sent by {
        JudgeGrows(p.cb, j, pk.id, pk.data);
      }
      JudgeAck(p, FsmRuns.Judged(p.cb, m), pk.id, pk.data, i);
    }
  }

  lemma JudgedState<O>(cb: Callbacks<O>, m: Machine<O>)
    ensures FsmRuns.Judged(cb, m).state.AckRcvd? <==> m.state.AckRcvd?
    ensures m.state.AckRcvd? ==> FsmRuns.Judged(cb, m) == m
  {
    hide SendConfReq;
    SendConfReqState(cb, CallDown(cb, m), false);
  }

  // ---- Two sides and the line between them ----

  datatype Pair<O> = Pair(a: Machine<O>, b: Machine<O>)

  datatype Move = ByA(e: Event) | ByB(e: Event)

  function PairStep<O>(p: Proto<O>, q: Proto<O>, s: Pair<O>, mv: Move): Pair<O> {
    match mv
    case ByA(e) => s.(a := Step(p.cb, s.a, e))
    case ByB(e) => s.(b := Step(q.cb, s.b, e))
  }

  /** A frame may be delivered at any time, any number of times, in any order,
      but only if the other side has sent it. */
  ghost predicate Allowed<O>(s: Pair<O>, mv: Move) {
    match mv
    case ByA(e) => Delivered(e, s.b.sent)
    case ByB(e) => Delivered(e, s.a.sent)
  }

  function RunPair<O>(p: Proto<O>, q: Proto<O>, s: Pair<O>, mvs: seq<Move>): Pair<O> {
    if mvs == [] then s
    else PairStep(p, q, RunPair(p, q, s, mvs[..|mvs| - 1]), mvs[|mvs| - 1])
  }

  ghost predicate AllowedRun<O>(p: Proto<O>, q: Proto<O>, s: Pair<O>, mvs: seq<Move>) {
    mvs != [] ==>
      && AllowedRun(p, q, s, mvs[..|mvs| - 1])
      && Allowed(RunPair(p, q, s, mvs[..|mvs| - 1]), mvs[|mvs| - 1])
  }

  ghost predicate Bound<O(!new)>(p: Proto<O>, q: Proto<O>, s: Pair<O>) {
    Side(p, s.a, s.b.sent) && Side(q, s.b, s.a.sent)
  }

  lemma SideGrows<O(!new)>(p: Proto<O>, m: Machine<O>, theirs: seq<Packet>, theirs': seq<Packet>)
    requires Side(p, m, theirs) && theirs <= theirs'
    ensures Side(p, m, theirs')
  {
    hide Acked;
    assert forall pk | pk in theirs :: pk in theirs';
  }

  lemma PairStepBound<O(!new)>(p: Proto<O>, q: Proto<O>, s: Pair<O>, mv: Move)
    requires Faithful(p) && Faithful(q) && Bound(p, q, s) && Allowed(s, mv)
    ensures Bound(p, q, PairStep(p, q, s, mv))
    ensures mv.ByA? ==> Opening(p, s.a, PairStep(p, q, s, mv).a, Entering(p.cb, s.a, mv.e), s.b.sent)
    ensures mv.ByB? ==> Opening(q, s.b, PairStep(p, q, s, mv).b, Entering(q.cb, s.b, mv.e), s.a.sent)
  {
    hide Faithful, Step, Delivered, Base, Acked, Agreed, Ups, Entering, AfterUp;
    SideHonest(p, s.a, s.b.sent);
    SideHonest(q, s.b, s.a.sent);
    match mv
    case ByA(e) =>
      StepGood(p, s.a, s.b.sent, e);
      StepGrows(p.cb, s.a, e);
      SideGrows(q, s.b, s.a.sent, Step(p.cb, s.a, e).sent);
    case ByB(e) =>
      StepGood(q, s.b, s.a.sent, e);
      StepGrows(q.cb, s.b, e);
      SideGrows(p, s.a, s.b.sent, Step(q.cb, s.b, e).sent);
  }

  lemma SideHonest<O(!new)>(p: Proto<O>, m: Machine<O>, theirs: seq<Packet>)
    requires Side(p, m, theirs)
    ensures AllHonest(m.sent, theirs)
  {
  }

  /** Both sides as initialised. */
  function Start<O>(oa: O, ob: O, la: Limits, lb: Limits): Pair<O> {
    Pair(Fresh(oa, la), Fresh(ob, lb))
  }

  lemma {:induction false} RunBound<O(!new)>(p: Proto<O>, q: Proto<O>, s: Pair<O>, mvs: seq<Move>)
    requires Faithful(p) && Faithful(q) && Bound(p, q, s) && AllowedRun(p, q, s, mvs)
    ensures Bound(p, q, RunPair(p, q, s, mvs))
    decreases |mvs|
  {
    hide Faithful, Bound, Allowed, PairStep, Opening;
    if mvs != [] {
      RunBound(p, q, s, mvs[..|mvs| - 1]);
      PairStepBound(p, q, RunPair(p, q, s, mvs[..|mvs| - 1]), mvs[|mvs| - 1]);
    }
  }

  /** One side in agreement with the other about some options: under the id given the
      other has Acked exactly the request they stand for, in answer to a request this
      side sent; and the last answer this side gave is an Ack that returns, octet for
      octet, a request the other side sent. */
  predicate InAgreement<O>(p: Proto<O>, o: O, id: byte, sent: seq<Packet>, theirs: seq<Packet>) {
    && Packet(CONFACK, id, p.ci(o)) in theirs && Packet(CONFREQ, id, p.ci(o)) in sent
    && Acked(sent)
    && var ack := LastAnswer(sent).value;
    Packet(CONFREQ, ack.id, ack.data) in theirs
  }

  lemma {:induction false} LastAnswerSent(sent: seq<Packet>)
    requires LastAnswer(sent).Some?
    ensures LastAnswer(sent).value in sent
  {
    if sent != [] && !Answers(sent[|sent| - 1]) {
      LastAnswerSent(sent[..|sent| - 1]);
    }
  }

  lemma AgreedBothWays<O>(p: Proto<O>, o: O, id: byte, sent: seq<Packet>, theirs: seq<Packet>)
    requires Agreed(p, o, id, sent, theirs) && AllHonest(sent, theirs) && AllHonest(theirs, sent)
    ensures InAgreement(p, o, id, sent, theirs)
  {
    var i :| 0 <= i < |theirs| && theirs[i] == Packet(CONFACK, id, p.ci(o));
    assert Honest(theirs[i], sent);
    LastAnswerSent(sent);
    var j :| 0 <= j < |sent| && sent[j] == LastAnswer(sent).value;
    assert Honest(sent[j], theirs);
  }

  /** What one step of one side did: it told the layer above it is up, once, exactly if it opened, and then the
      two sides agree, under the id of its last request, on the options it opened with. */
  predicate OpenedInAgreement<O(==)>(p: Proto<O>, m: Machine<O>, e: Event, n: Machine<O>, theirs: seq<Packet>) {
    var opens := Entering(p.cb, m, e);
    && Ups(n.calls) == Ups(m.calls) + (if opens.Some? then 1 else 0)
    && (opens.Some? ==>
          InAgreement(p, opens.value, m.reqid, n.sent, theirs) && n.opts == AfterUp(p.cb, opens.value))
  }

  /** ... and the options it is left with stand for the request that was Acked. */
  predicate StandsInAgreement<O(==)>(p: Proto<O>, m: Machine<O>, e: Event, n: Machine<O>, theirs: seq<Packet>) {
    && OpenedInAgreement(p, m, e, n, theirs)
    && (Entering(p.cb, m, e).Some? ==> InAgreement(p, n.opts, m.reqid, n.sent, theirs))
  }

  /** On every run over such a line, however ids wrap: each time a side tells the
      layer above it is up, it is in agreement with the other side. */
  lemma OpensInAgreement<O(!new)>(p: Proto<O>, q: Proto<O>, oa: O, ob: O, la: Limits, lb: Limits,
                                  mvs: seq<Move>, mv: Move)
    requires Faithful(p) && Faithful(q) && p.ok(oa) && q.ok(ob)
    requires AllowedRun(p, q, Start(oa, ob, la, lb), mvs + [mv])
    ensures var s := RunPair(p, q, Start(oa, ob, la, lb), mvs);
            var t := RunPair(p, q, Start(oa, ob, la, lb), mvs + [mv]);
            match mv
            case ByA(e) => t.b == s.b && OpenedInAgreement(p, s.a, e, t.a, t.b.sent)
            case ByB(e) => t.a == s.a && OpenedInAgreement(q, s.b, e, t.b, t.a.sent)
  {
    hide Faithful, Step, Acked, Agreed, InAgreement, Ups, AllHonest, Allowed, Entering, AfterUp;
    var s0 := Start(oa, ob, la, lb);
    StartBound(p, q, oa, ob, la, lb);
    assert (mvs + [mv])[..|mvs|] == mvs;
    RunBound(p, q, s0, mvs);
    var s := RunPair(p, q, s0, mvs);
    PairStepBound(p, q, s, mv);
    var t := PairStep(p, q, s, mv);
    SideHonest(p, t.a, t.b.sent);
    SideHonest(q, t.b, t.a.sent);
    match mv
    case ByA(e) =>
      var opens := Entering(p.cb, s.a, e);
      if opens.Some? {
        AgreedBothWays(p, opens.value, s.a.reqid, t.a.sent, t.b.sent);
      }
    case ByB(e) =>
      var opens := Entering(q.cb, s.b, e);
      if opens.Some? {
        AgreedBothWays(q, opens.value, s.b.reqid, t.b.sent, t.a.sent);
      }
  }

  /** Every Ack that a step of one side sends answers, unchanged, a request that options of the other stand for. */
  ghost predicate AcksAnswer<O(!new)>(p: Proto<O>, q: Proto<O>, m: Machine<O>, e: Event, n: Machine<O>,
                                      theirs: seq<Packet>) {
    forall i | |m.sent| <= i < |n.sent| && n.sent[i].code == CONFACK ::
      && AnswersRequest(p, m, e, n, n.sent[i])
      && Asked(q, n.sent[i].data) && Packet(CONFREQ, n.sent[i].id, n.sent[i].data) in theirs
  }

  lemma InAsked<O(!new)>(q: Proto<O>, m: Machine<O>, theirs: seq<Packet>, pk: Packet)
    requires Side(q, m, theirs) && pk in m.sent && pk.code == CONFREQ
    ensures Asked(q, pk.data)
  {
    hide Asked;
  }

  lemma StepAcksAnswer<O(!new)>(p: Proto<O>, q: Proto<O>, m: Machine<O>, other: Machine<O>, e: Event)
    requires Faithful(p) && Side(p, m, other.sent) && Side(q, other, m.sent) && Delivered(e, other.sent)
    ensures AcksAnswer(p, q, m, e, Step(p.cb, m, e), other.sent)
  {
    hide Faithful, Side, Step, AnswersRequest, Asked, Delivered, Parse;
    SideHonest(q, other, m.sent);
    var n := Step(p.cb, m, e);
    forall i | |m.sent| <= i < |n.sent| && n.sent[i].code == CONFACK
      ensures AnswersRequest(p, m, e, n, n.sent[i]) && Asked(q, n.sent[i].data)
      ensures Packet(CONFREQ, n.sent[i].id, n.sent[i].data) in other.sent
    {
      StepAcks(p, m, other.sent, e, i);
      AnswersWhat(p, m, e, n, n.sent[i]);
      InAsked(q, other, m.sent, Parse(e.frame).value);
    }
  }

  lemma AnswersWhat<O(!new)>(p: Proto<O>, m: Machine<O>, e: Event, n: Machine<O>, pk: Packet)
    requires AnswersRequest(p, m, e, n, pk)
    ensures e.EvInput? && Parse(e.frame) == Some(Packet(CONFREQ, pk.id, pk.data))
  {
  }

  /** On every run over such a line: each Ack a side sends returns unchanged a request the other side sent, one
      that options of the other stand for, and the side's options are then those left by judging it. */
  lemma RunAcksAnswer<O(!new)>(p: Proto<O>, q: Proto<O>, oa: O, ob: O, la: Limits, lb: Limits,
                               mvs: seq<Move>, mv: Move)
    requires Faithful(p) && Faithful(q) && p.ok(oa) && q.ok(ob)
    requires AllowedRun(p, q, Start(oa, ob, la, lb), mvs + [mv])
    ensures var s := RunPair(p, q, Start(oa, ob, la, lb), mvs);
            var t := RunPair(p, q, Start(oa, ob, la, lb), mvs + [mv]);
            match mv
            case ByA(e) => AcksAnswer(p, q, s.a, e, t.a, t.b.sent)
            case ByB(e) => AcksAnswer(q, p, s.b, e, t.b, t.a.sent)
  {
    hide Faithful, Step, AcksAnswer, Side, Delivered;
    var s0 := Start(oa, ob, la, lb);
    StartBound(p, q, oa, ob, la, lb);
    assert (mvs + [mv])[..|mvs|] == mvs;
    RunBound(p, q, s0, mvs);
    var s := RunPair(p, q, s0, mvs);
    match mv
    case ByA(e) => StepAcksAnswer(p, q, s.a, s.b, e);
    case ByB(e) => StepAcksAnswer(q, p, s.b, s.a, e);
  }

  lemma StartBound<O(!new)>(p: Proto<O>, q: Proto<O>, oa: O, ob: O, la: Limits, lb: Limits)
    requires p.ok(oa) && q.ok(ob)
    ensures Bound(p, q, Start(oa, ob, la, lb))
  {
  }
}
