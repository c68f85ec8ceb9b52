/** The state transition table of section 4.1 of RFC 1661, and that every step of the automaton is the entry of
    that table for its state and event, with two exceptions. */
module FsmTable {
  import opened Wire
  import opened Fsm
  import FsmRuns

  /** The events of the table. `Rcr` is told whether the request is acceptable. Two events of this automaton have
      no column of their own: a refusal after which there is nothing left to try, and an input not to be looked at. */
  datatype Kind =
    | LineUp | LineDown | AskOpen | AskClose | TimeoutPlus | TimeoutMinus
    | Rcr(good: bool) | Rca | Rcn | Hopeless | Rtr | Rta | Ruc | Rxj | RxjFatal
    | Rxr(replies: seq<Packet>) | Nothing

  /** What is sent: a Configure-Request, an Ack, a Nak or Reject, a Terminate-Request, a Terminate-Ack, a
      Code-Reject, or a reply of the protocol's own. */
  datatype Act = Scr | Sca | Scn | Str | Sta | Scj | Ser(reply: Packet)

  /** The restart counter: kept, lowered by a retransmission, set for requests (one of them just sent, or none yet),
      set for terminating with one sent, or zero. This automaton sets it with every new request, also where the
      standard's entry does not say so. */
  datatype Counter = Keep | Used | Configure(sent: bool) | Terminate | Zero

  datatype Entry = Entry(next: State, acts: seq<Act>, calls: seq<Call>, counter: Counter)

  /** The table. */
  function Rfc(s: State, k: Kind): Entry {
    match k
    case LineUp => RfcUp(s)
    case LineDown => RfcDown(s)
    case AskOpen => RfcOpen(s)
    case AskClose => RfcClose(s)
    case TimeoutPlus => RfcTimeoutPlus(s)
    case TimeoutMinus => RfcTimeoutMinus(s)
    case Rcr(good) => RfcRcr(s, if good then Sca else Scn)
    case Rca => RfcRca(s)
    case Rcn => RfcRcn(s)
    case Rtr => RfcRtr(s)
    case Rta => RfcRta(s)
    case RxjFatal => RfcRxjFatal(s)
    case Ruc => Entry(s, if Early(s) then [] else [Scj], [], Keep)
    case Rxj => Entry(if s.AckRcvd? then ReqSent else s, [], [], Keep)
    case Rxr(ps) => Entry(s, if Early(s) then [] else seq(|ps|, i requires 0 <= i < |ps| => Ser(ps[i])), [], Keep)
    case Hopeless => if s.ReqSent? || s.AckSent? then Entry(Stopped, [], [], Keep) else RfcRcn(s)
    case Nothing => Entry(s, [], [], Keep)
  }

  /** No packet is looked at before the lower layer is up. */
  predicate Early(s: State) {
    s.Initial? || s.Starting?
  }

  function RfcUp(s: State): Entry {
    match s
    case Initial => Entry(Closed, [], [], Keep)
    case Starting => Entry(ReqSent, [Scr], [], Configure(true))
    case _ => Entry(s, [], [], Keep)
  }

  function RfcDown(s: State): Entry {
    match s
    case Closed => Entry(Initial, [], [], Keep)
    case Stopped => Entry(Starting, [], [LowerNeeded], Keep)
    case Closing => Entry(Initial, [], [], Keep)
    case Stopping => Entry(Starting, [], [], Keep)
    case ReqSent => Entry(Starting, [], [], Keep)
    case AckRcvd => Entry(Starting, [], [], Keep)
    case AckSent => Entry(Starting, [], [], Keep)
    case Opened => Entry(Starting, [], [Down], Keep)
    case _ => Entry(s, [], [], Keep)
  }

  function RfcOpen(s: State): Entry {
    match s
    case Initial => Entry(Starting, [], [LowerNeeded], Keep)
    case Closed => Entry(ReqSent, [Scr], [], Configure(true))
    case Closing => Entry(Stopping, [], [], Keep)
    case _ => Entry(s, [], [], Keep)
  }

  function RfcClose(s: State): Entry {
    match s
    case Starting => Entry(Initial, [], [LowerDone], Keep)
    case Stopped => Entry(Closed, [], [], Keep)
    case Stopping => Entry(Closing, [], [], Keep)
    case ReqSent => Entry(Closing, [Str], [], Terminate)
    case AckRcvd => Entry(Closing, [Str], [], Terminate)
    case AckSent => Entry(Closing, [Str], [], Terminate)
    case Opened => Entry(Closing, [Str], [Down], Terminate)
    case _ => Entry(s, [], [], Keep)
  }

  function RfcTimeoutPlus(s: State): Entry {
    match s
    case Closing => Entry(Closing, [Str], [], Used)
    case Stopping => Entry(Stopping, [Str], [], Used)
    case ReqSent => Entry(ReqSent, [Scr], [], Used)
    case AckRcvd => Entry(ReqSent, [Scr], [], Used)
    case AckSent => Entry(AckSent, [Scr], [], Used)
    case _ => Entry(s, [], [], Keep)
  }

  function RfcTimeoutMinus(s: State): Entry {
    match s
    case Closing => Entry(Closed, [], [LowerDone], Keep)
    case Stopping => Entry(Stopped, [], [LowerDone], Keep)
    case ReqSent => Entry(Stopped, [], [LowerDone], Keep)
    case AckRcvd => Entry(Stopped, [], [LowerDone], Keep)
    case AckSent => Entry(Stopped, [], [LowerDone], Keep)
    case _ => Entry(s, [], [], Keep)
  }

  function RfcRcr(s: State, answer: Act): Entry {
    match s
    case Closed => Entry(Closed, [Sta], [], Keep)
    case Stopped => Entry(if answer.Sca? then AckSent else ReqSent, [Scr, answer], [], Configure(true))
    case ReqSent => Entry(if answer.Sca? then AckSent else ReqSent, [answer], [], Keep)
    case AckRcvd => if answer.Sca? then Entry(Opened, [Sca], [Up], Keep) else Entry(AckRcvd, [answer], [], Keep)
    case AckSent => Entry(if answer.Sca? then AckSent else ReqSent, [answer], [], Keep)
    case Opened => Entry(if answer.Sca? then AckSent else ReqSent, [Scr, answer], [Down], Configure(true))
    case _ => Entry(s, [], [], Keep)
  }

  function RfcRca(s: State): Entry {
    match s
    case Closed => Entry(Closed, [Sta], [], Keep)
    case Stopped => Entry(Stopped, [Sta], [], Keep)
    case ReqSent => Entry(AckRcvd, [], [], Configure(false))
    case AckRcvd => Entry(ReqSent, [Scr], [], Configure(true))
    case AckSent => Entry(Opened, [], [Up], Configure(false))
    case Opened => Entry(ReqSent, [Scr], [Down], Configure(true))
    case _ => Entry(s, [], [], Keep)
  }

  function RfcRcn(s: State): Entry {
    match s
    case Closed => Entry(Closed, [Sta], [], Keep)
    case Stopped => Entry(Stopped, [Sta], [], Keep)
    case ReqSent => Entry(ReqSent, [Scr], [], Configure(true))
    case AckRcvd => Entry(ReqSent, [Scr], [], Configure(true))
    case AckSent => Entry(AckSent, [Scr], [], Configure(true))
    case Opened => Entry(ReqSent, [Scr], [Down], Configure(true))
    case _ => Entry(s, [], [], Keep)
  }

  function RfcRtr(s: State): Entry {
    match s
    case AckRcvd => Entry(ReqSent, [Sta], [], Keep)
    case AckSent => Entry(ReqSent, [Sta], [], Keep)
    case Opened => Entry(Stopping, [Sta], [Down], Zero)
    case _ => Entry(s, if Early(s) then [] else [Sta], [], Keep)
  }

  function RfcRta(s: State): Entry {
    match s
    case Closing => Entry(Closed, [], [LowerDone], Keep)
    case Stopping => Entry(Stopped, [], [LowerDone], Keep)
    case AckRcvd => Entry(ReqSent, [], [], Keep)
    case Opened => Entry(ReqSent, [Scr], [Down], Configure(true))
    case _ => Entry(s, [], [], Keep)
  }

  function RfcRxjFatal(s: State): Entry {
    match s
    case Closed => Entry(Closed, [], [LowerDone], Keep)
    case Closing => Entry(Closed, [], [LowerDone], Keep)
    case Stopped => Entry(Stopped, [], [LowerDone], Keep)
    case Stopping => Entry(Stopped, [], [LowerDone], Keep)
    case ReqSent => Entry(Stopped, [], [LowerDone], Keep)
    case AckRcvd => Entry(Stopped, [], [LowerDone], Keep)
    case AckSent => Entry(Stopped, [], [LowerDone], Keep)
    case Opened => Entry(Stopping, [Str], [Down], Terminate)
    case _ => Entry(s, [], [], Keep)
  }

  /** The two entries the automaton does not follow: a Terminate-Ack in Opened leaves it there, and closing before
      the lower layer is up does not release that layer. */
  function Entered(s: State, k: Kind): Entry {
    var r := Rfc(s, k);
    if s.Opened? && k.Rta? then r.(next := Opened)
    else if s.Starting? && k.AskClose? then r.(calls := [])
    else r
  }

  /** One entry after another. */
  function Then(r: Entry, t: Entry): Entry {
    Entry(t.next, r.acts + t.acts, r.calls + t.calls, if t.counter.Keep? then r.counter else t.counter)
  }

  /** The kind of a frame, in a machine that looks at it. A reply to our request counts only under the id of that
      request, once, and an Ack only if it is one of ours. */
  function KindOf<O>(cb: Callbacks<O>, m: Machine<O>, p: Packet): Kind {
    if p.code == CONFREQ then Rcr(Verdict(cb, m, p.data).code == CONFACK)
    else if p.code == CONFACK then
      if p.id == m.reqid && !m.seenAck && cb.ackci(m.opts, p.data) then Rca else Nothing
    else if p.code == CONFNAK || p.code == CONFREJ then
      if p.id != m.reqid || m.seenAck || Refusal(cb, m, p).ret == 0 then Nothing
      else if Refusal(cb, m, p).ret < 0 then Hopeless else Rcn
    else if p.code == TERMREQ then Rtr
    else if p.code == TERMACK then Rta
    else if p.code == CODEREJ then if |p.data| >= HEADERLEN then Rxj else Nothing
    else
      var h := cb.extcode(m.opts, m.state.Opened?, p);
      if h.known then Rxr(h.reply) else Ruc
  }

  /** What the protocol makes of a request, and of a Nak or Reject. */
  function Verdict<O>(cb: Callbacks<O>, m: Machine<O>, data: bytes): Fsm.Verdict<O> {
    var j := FsmRuns.Judged(cb, m);
    cb.reqci(j.opts, data, j.nakloops >= j.limits.maxNak)
  }

  function Refusal<O>(cb: Callbacks<O>, m: Machine<O>, p: Packet): Fsm.Refusal<O> {
    if p.code == CONFNAK then cb.nakci(m.opts, m.state.Opened?, p.data) else cb.rejci(m.opts, m.state.Opened?, p.data)
  }

  // ---- The options of the automaton ----

  /** Coming up: a silent machine waits for the peer instead of asking. */
  function Upward(s: State, flags: Flags): Entry {
    if s.Starting? && flags.silent then Entry(Stopped, [], [], Keep) else Entered(s, LineUp)
  }

  /** Opening: likewise, and with the restart option a machine that was stopped, closing or opened goes down and
      up again. */
  function Opening(s: State, flags: Flags): Entry {
    var r := Entered(s, AskOpen);
    if s.Closed? && flags.silent then Entry(Stopped, [], [], Keep)
    else if flags.restart && (s.Closing? || s.Stopped? || s.Opened?) then
      var d := Then(r, Entered(r.next, LineDown));
      Then(d, Upward(d.next, flags))
    else r
  }

  /** Closing: the protocol may end a passive or silent machine that was stopped. */
  function Closes<O>(cb: Callbacks<O>, m: Machine<O>): Entry {
    if cb.endsWhenStopped && m.state.Stopped? && (m.flags.passive || m.flags.silent)
    then Entry(Closed, [], [LowerDone], Keep) else Entered(m.state, AskClose)
  }

  /** The timer going off: a passive machine that gives up asking keeps the lower layer. */
  function TimesOut<O>(m: Machine<O>): Entry {
    if m.timers == 0 then Entered(m.state, Nothing)
    else if m.retransmits > 0 then Entered(m.state, TimeoutPlus)
    else
      var r := Entered(m.state, TimeoutMinus);
      if m.flags.passive && Negotiating(m.state) then r.(calls := []) else r
  }

  /** The options with which a packet opens the machine. */
  function Opens<O>(cb: Callbacks<O>, m: Machine<O>, p: Packet): Option<O> {
    var k := KindOf(cb, m, p);
    if k == Rcr(true) && m.state.AckRcvd? then Some(Verdict(cb, m, p.data).opts)
    else if k.Rca? && m.state.AckSent? then Some(m.opts)
    else None
  }

  /** A packet taken by a protocol that may ask to close, on refusals and on coming up. */
  function Takes<O>(cb: Callbacks<O>, m: Machine<O>, p: Packet): Entry {
    var k := KindOf(cb, m, p);
    if (p.code == CONFNAK || p.code == CONFREJ) && p.id == m.reqid && !m.seenAck && Refusal(cb, m, p).close.Some? then
      var c := Closes(cb, m);
      Then(c, Entered(c.next, k))
    else if Opens(cb, m, p).Some? && cb.up(Opens(cb, m, p).value).close.Some? then
      Then(Entered(m.state, k), Entered(Opened, AskClose))
    else Entered(m.state, k)
  }

  function Expected<O>(cb: Callbacks<O>, m: Machine<O>, e: Event): Entry {
    match e
    case EvUp => Upward(m.state, m.flags)
    case EvDown => Entered(m.state, LineDown)
    case EvOpen(flags) => Opening(m.state, flags)
    case EvClose(_) => Closes(cb, m)
    case EvTimeout => TimesOut(m)
    case EvProtReject => Entered(m.state, RxjFatal)
    case EvInput(frame) =>
      if Parse(frame).None? || Early(m.state) then Entered(m.state, Nothing) else Takes(cb, m, Parse(frame).value)
  }

  // ---- What an entry says of a step ----

  /** What a step has to go by besides the machine: the packet received, if any, with all its octets, and whether
      a request sent repeats the last one. */
  datatype Cause = Cause(got: Option<Packet>, whole: bytes, repeated: bool)

  function Cut<O>(cb: Callbacks<O>, o: O, data: bytes): bytes {
    Clip(data, cb.mru(o) - HEADERLEN)
  }

  /** The packet an act puts on the line, from machine m with n left behind. */
  predicate Carries<O>(cb: Callbacks<O>, m: Machine<O>, c: Cause, n: Machine<O>, a: Act, pk: Packet) {
    match a
    case Scr => pk.code == CONFREQ && pk.id == n.reqid && n.reqid == (if c.repeated then m.reqid else NextId(m.id))
    case Str => pk == Packet(TERMREQ, NextId(m.id), Cut(cb, n.opts, n.reason)) && n.reqid == NextId(m.id)
    case Sta => c.got.Some? && pk == Packet(TERMACK, c.got.value.id, [])
    case Scj => pk == Packet(CODEREJ, NextId(m.id), Cut(cb, m.opts, c.whole))
    case Ser(r) => pk == Packet(r.code, r.id, Cut(cb, m.opts, r.data))
    case _ =>
      && c.got.Some?
      && var v := Verdict(cb, m, c.got.value.data);
      pk == Packet(v.code, c.got.value.id, Cut(cb, v.opts, v.reply)) && (a.Sca? <==> v.code == CONFACK)
  }

  function Left<O>(m: Machine<O>, c: Counter): int {
    match c
    case Keep => m.retransmits
    case Used => m.retransmits - 1
    case Configure(sent) => if sent then m.limits.maxConfigure - 1 else m.limits.maxConfigure
    case Terminate => m.limits.maxTerminate - 1
    case Zero => 0
  }

  /** The packets sent from m to n are those of the acts, in order, and no others. */
  predicate Sends<O>(cb: Callbacks<O>, m: Machine<O>, c: Cause, n: Machine<O>, acts: seq<Act>) {
    && m.sent <= n.sent && |n.sent| == |m.sent| + |acts|
    && forall i | 0 <= i < |acts| :: Carries(cb, m, c, n, acts[i], n.sent[|m.sent| + i])
  }

  /** From m to n exactly what the entry says: the next state, the calls in order and no others, the counter, and
      the packets. */
  predicate Follows<O>(cb: Callbacks<O>, m: Machine<O>, c: Cause, n: Machine<O>, r: Entry) {
    && n.state == r.next && n.calls == m.calls + r.calls && n.retransmits == Left(m, r.counter)
    && Sends(cb, m, c, n, r.acts)
  }

  function CauseOf(e: Event): Cause {
    if e.EvInput? && Parse(e.frame).Some? then
      var p := Parse(e.frame).value;
      Cause(Some(p), e.frame[..|p.data| + HEADERLEN], false)
    else Cause(None, [], e.EvTimeout?)
  }

  // ---- Steps follow the table ----

  /** A Configure-Request holds what the protocol makes of its options, which start afresh unless a negotiation is
      going on, and those options are then the current ones. */
  lemma RequestIs<O>(cb: Callbacks<O>, m: Machine<O>, retransmit: bool)
    ensures var n := SendConfReq(cb, m, retransmit);
            var o := if Negotiating(m.state) then m.opts else cb.resetci(m.opts);
            var asked := cb.addci(o, cb.mru(o) - HEADERLEN);
            && |n.sent| == |m.sent| + 1 && n.sent[..|m.sent|] == m.sent
            && n.sent[|m.sent|] == Packet(CONFREQ, n.reqid, Cut(cb, asked.0, asked.1)) && n.opts == asked.0
            && n.reqid == (if retransmit then m.reqid else NextId(m.id))
            && n.retransmits == (if retransmit then m.retransmits else m.limits.maxConfigure) - 1
            && n.nakloops == (if Negotiating(m.state) then m.nakloops else 0) && !n.seenAck && n.timers == m.timers + 1
            && n.state == m.state && n.calls == m.calls && n.limits == m.limits && n.reason == m.reason
  {
    hide Clip;
  }

  lemma TermRequestIs<O>(cb: Callbacks<O>, m: Machine<O>)
    ensures var n := SendTermReq(cb, m);
            && n.sent == m.sent + [Packet(TERMREQ, NextId(m.id), Cut(cb, m.opts, m.reason))]
            && n.reqid == NextId(m.id) && n.retransmits == m.retransmits - 1
            && n.state == m.state && n.calls == m.calls && n.opts == m.opts && n.reason == m.reason
  {
    hide Clip;
  }

  lemma SendsNone<O>(cb: Callbacks<O>, m: Machine<O>, c: Cause, n: Machine<O>)
    requires n.sent == m.sent
    ensures Sends(cb, m, c, n, [])
  {
  }

  lemma NoneSent<O>(cb: Callbacks<O>, m: Machine<O>, c: Cause, n: Machine<O>)
    requires Sends(cb, m, c, n, [])
    ensures n.sent == m.sent
  {
  }

  lemma SendsRequest<O>(cb: Callbacks<O>, m: Machine<O>, c: Cause, n: Machine<O>)
    requires |n.sent| == |m.sent| + 1 && n.sent[..|m.sent|] == m.sent
    requires n.sent[|m.sent|].code == CONFREQ && n.sent[|m.sent|].id == n.reqid
    requires n.reqid == if c.repeated then m.reqid else NextId(m.id)
    ensures Sends(cb, m, c, n, [Scr])
  {
  }

  lemma SendsOne<O>(cb: Callbacks<O>, m: Machine<O>, c: Cause, n: Machine<O>, a: Act, pk: Packet)
    requires n.sent == m.sent + [pk] && Carries(cb, m, c, n, a, pk)
    ensures Sends(cb, m, c, n, [a])
  {
  }

  lemma SendsAfter<O>(cb: Callbacks<O>, m: Machine<O>, c: Cause, n: Machine<O>, a: Act, b: Act, pk: Packet, pk': Packet)
    requires n.sent == m.sent + [pk] + [pk'] && Carries(cb, m, c, n, a, pk) && Carries(cb, m, c, n, b, pk')
    ensures Sends(cb, m, c, n, [a, b]) && Sends(cb, m, c, n, [a] + [b])
  {
    assert [a] + [b] == [a, b];
  }

  lemma SendsNew<O>(cb: Callbacks<O>, m: Machine<O>, c: Cause, j: Machine<O>, n: Machine<O>, retransmit: bool)
    requires j.sent == m.sent && j.id == m.id && j.reqid == m.reqid && c.repeated == retransmit
    requires var r := SendConfReq(cb, j, retransmit); n.sent == r.sent && n.reqid == r.reqid
    ensures Sends(cb, m, c, n, [Scr])
  {
    hide SendConfReq, Sends;
    RequestIs(cb, j, retransmit);
    SendsRequest(cb, m, c, n);
  }

  lemma SendsTerm<O>(cb: Callbacks<O>, m: Machine<O>, c: Cause, j: Machine<O>, n: Machine<O>)
    requires j.sent == m.sent && j.id == m.id
    requires var r := SendTermReq(cb, j); n == r.(state := n.state)
    ensures Sends(cb, m, c, n, [Str])
  {
    hide SendTermReq, Sends, Clip;
    TermRequestIs(cb, j);
    SendsOne(cb, m, c, n, Str, Packet(TERMREQ, NextId(m.id), Cut(cb, j.opts, j.reason)));
  }

  lemma SendsReply<O>(cb: Callbacks<O>, m: Machine<O>, c: Cause, j: Machine<O>, n: Machine<O>, id: byte)
    requires j.sent == m.sent && c.got.Some? && id == c.got.value.id
    requires n.sent == Send(cb, j, TERMACK, id, []).sent
    ensures Sends(cb, m, c, n, [Sta])
  {
    hide Sends;
    SendsOne(cb, m, c, n, Sta, Packet(TERMACK, id, []));
  }

  lemma DownUpFollow<O>(cb: Callbacks<O>, m: Machine<O>, c: Cause)
    requires !c.repeated
    ensures Follows(cb, m, c, LowerUp(cb, m), Upward(m.state, m.flags))
    ensures Follows(cb, m, c, LowerDown(cb, m), Entered(m.state, LineDown))
  {
    hide SendConfReq, Sends;
    RequestIs(cb, m, false);
    var n := LowerUp(cb, m);
    if m.state.Starting? && !m.flags.silent {
      SendsNew(cb, m, c, m, n, false);
    } else {
      SendsNone(cb, m, c, n);
    }
    SendsNone(cb, m, c, LowerDown(cb, m));
  }

  lemma LowerDownIs<O>(cb: Callbacks<O>, m: Machine<O>)
    ensures var d := LowerDown(cb, m);
            && d.state == Entered(m.state, LineDown).next && d.calls == m.calls + Entered(m.state, LineDown).calls
            && d.sent == m.sent && d.retransmits == m.retransmits && d.id == m.id && d.reqid == m.reqid
            && d.flags == m.flags && d.limits == m.limits && Entered(m.state, LineDown).acts == []
            && Entered(m.state, LineDown).counter.Keep?
  {
  }

  lemma UpwardIs(s: State, flags: Flags)
    ensures var r := Upward(s, flags);
            if s.Starting? && !flags.silent then r == Entry(ReqSent, [Scr], [], Configure(true))
            else r == Entry(if s.Starting? then Stopped else if s.Initial? then Closed else s, [], [], Keep)
  {
  }

  lemma DownThenUp<O>(cb: Callbacks<O>, m: Machine<O>, c: Cause)
    requires !c.repeated
    ensures var d := Entered(m.state, LineDown);
            Follows(cb, m, c, LowerUp(cb, LowerDown(cb, m)), Then(d, Upward(d.next, m.flags)))
  {
    hide SendConfReq, Sends, LowerDown, Entered, Upward;
    LowerDownIs(cb, m);
    var d := LowerDown(cb, m);
    UpwardIs(d.state, m.flags);
    var n := LowerUp(cb, d);
    if d.state.Starting? && !d.flags.silent {
      RequestIs(cb, d, false);
      SendsNew(cb, m, c, d, n, false);
      assert [] + [Scr] == [Scr];
    } else {
      SendsNone(cb, m, c, n);
      assert Then(Entered(m.state, LineDown), Upward(d.state, m.flags)).acts == [];
    }
  }

  lemma ThenNothing(s: State, r: Entry)
    ensures Then(Entry(s, [], [], Keep), r) == r
  {
  }

  lemma RestartFollows<O>(cb: Callbacks<O>, m: Machine<O>, flags: Flags)
    requires flags.restart && (m.state.Closing? || m.state.Stopped? || m.state.Opened?)
    ensures Follows(cb, m, CauseOf(EvOpen(flags)), Open(cb, m, flags), Opening(m.state, flags))
  {
    hide LowerUp, LowerDown, Upward, Sends, Opening, Entered;
    var c := CauseOf(EvOpen(flags));
    var m1 := m.(flags := flags);
    var s := if m1.state.Closing? then m1.(state := Stopping) else m1;
    DownThenUp(cb, s, c);
    RestartEntry(m.state, flags);
    SameSends(cb, s, m, c, Open(cb, m, flags), Opening(m.state, flags).acts);
  }

  lemma OpenFollows<O>(cb: Callbacks<O>, m: Machine<O>, flags: Flags)
    ensures Follows(cb, m, CauseOf(EvOpen(flags)), Open(cb, m, flags), Opening(m.state, flags))
  {
    hide SendConfReq, LowerUp, LowerDown, Upward, Sends;
    var c := CauseOf(EvOpen(flags));
    var m1 := m.(flags := flags);
    if flags.restart && (m.state.Closing? || m.state.Stopped? || m.state.Opened?) {
      RestartFollows(cb, m, flags);
    } else if m.state.Closed? && !flags.silent {
      RequestIs(cb, m1, false);
      SendsNew(cb, m, c, m1, Open(cb, m, flags), false);
    } else {
      SendsNone(cb, m, c, Open(cb, m, flags));
    }
  }

  /** Where there is nothing else to do, opening with the restart option is going down and up. */
  lemma RestartEntry(s: State, flags: Flags)
    requires flags.restart && (s.Closing? || s.Stopped? || s.Opened?)
    ensures var t := if s.Closing? then Stopping else s;
            var d := Entered(t, LineDown);
            Opening(s, flags) == Then(d, Upward(d.next, flags))
  {
    var r := Entered(s, AskOpen);
    assert r.acts == [] && r.calls == [] && r.counter.Keep?;
    ThenNothing(r.next, Entered(r.next, LineDown));
  }

  lemma SameSends<O>(cb: Callbacks<O>, s: Machine<O>, m: Machine<O>, c: Cause, n: Machine<O>, acts: seq<Act>)
    requires s.sent == m.sent && s.id == m.id && s.reqid == m.reqid && s.opts == m.opts && c.got.None?
    requires Sends(cb, s, c, n, acts)
    ensures Sends(cb, m, c, n, acts)
  {
    forall i | 0 <= i < |acts|
      ensures Carries(cb, m, c, n, acts[i], n.sent[|m.sent| + i])
    {
      assert Carries(cb, s, c, n, acts[i], n.sent[|s.sent| + i]);
    }
  }

  lemma CloseFollows<O>(cb: Callbacks<O>, m: Machine<O>, reason: bytes, c: Cause)
    ensures Follows(cb, m, c, Close(cb, m, reason), Closes(cb, m))
  {
    hide SendTermReq, Sends;
    var n := Silenced(cb, m.(reason := reason));
    var j := n.(retransmits := n.limits.maxTerminate);
    TermRequestIs(cb, j);
    if Negotiating(m.state) || m.state.Opened? {
      SendsTerm(cb, m, c, j, Close(cb, m, reason));
    } else {
      SendsNone(cb, m, c, Close(cb, m, reason));
    }
  }

  lemma RetransmitFollows<O>(cb: Callbacks<O>, m: Machine<O>)
    requires m.timers > 0 && m.retransmits > 0 && FsmRuns.Timed(m.state)
    ensures Follows(cb, m, CauseOf(EvTimeout), Timeout(cb, m), Entered(m.state, TimeoutPlus))
  {
    hide SendConfReq, SendTermReq, Sends;
    var c, n := CauseOf(EvTimeout), Timeout(cb, m);
    var t := m.(timers := m.timers - 1);
    if Terminating(m.state) {
      TermRequestIs(cb, t);
      SendsTerm(cb, m, c, t, n);
    } else {
      RequestIs(cb, t, true);
      SendsNew(cb, m, c, t, n, true);
    }
  }

  lemma TimeoutFollows<O>(cb: Callbacks<O>, m: Machine<O>)
    ensures Follows(cb, m, CauseOf(EvTimeout), Timeout(cb, m), TimesOut(m))
  {
    hide SendConfReq, SendTermReq, Sends;
    if m.timers > 0 && m.retransmits > 0 && FsmRuns.Timed(m.state) {
      RetransmitFollows(cb, m);
    } else {
      SendsNone(cb, m, CauseOf(EvTimeout), Timeout(cb, m));
    }
  }

  lemma ProtRejectFollows<O>(cb: Callbacks<O>, m: Machine<O>)
    ensures Follows(cb, m, CauseOf(EvProtReject), ProtReject(cb, m), Entered(m.state, RxjFatal))
  {
    hide SendTermReq, Sends;
    var d := CallDown(cb, m);
    var j := d.(retransmits := d.limits.maxTerminate);
    TermRequestIs(cb, j);
    if m.state.Opened? {
      SendsTerm(cb, m, CauseOf(EvProtReject), j, ProtReject(cb, m));
    } else {
      SendsNone(cb, m, CauseOf(EvProtReject), ProtReject(cb, m));
    }
  }

  lemma TermReqFollows<O>(cb: Callbacks<O>, m: Machine<O>, c: Cause)
    requires !Early(m.state) && c.got.Some?
    ensures Follows(cb, m, c, RTermReq(cb, m, c.got.value.id), Entered(m.state, Rtr))
  {
    hide Sends;
    SendsReply(cb, m, c, m, RTermReq(cb, m, c.got.value.id), c.got.value.id);
  }

  lemma TermAckFollows<O>(cb: Callbacks<O>, m: Machine<O>, c: Cause)
    requires !Early(m.state) && !c.repeated
    ensures Follows(cb, m, c, RTermAck(cb, m), Entered(m.state, Rta))
  {
    hide SendConfReq, Sends;
    RequestIs(cb, CallDown(cb, m), false);
    if m.state.Opened? {
      SendsNew(cb, m, c, CallDown(cb, m), RTermAck(cb, m), false);
    } else {
      SendsNone(cb, m, c, RTermAck(cb, m));
    }
  }

  lemma {:induction false} SendAllFollows<O>(cb: Callbacks<O>, m: Machine<O>, c: Cause, ps: seq<Packet>)
    ensures Sends(cb, m, c, SendAll(cb, m, ps), seq(|ps|, i requires 0 <= i < |ps| => Ser(ps[i])))
    decreases |ps|
  {
    FsmRuns.SendAllKeeps(cb, m, ps);
    if ps != [] {
      var n := Send(cb, m, ps[0].code, ps[0].id, ps[0].data);
      SendAllFollows(cb, n, c, ps[1..]);
      var r := SendAll(cb, m, ps);
      var rest := seq(|ps[1..]|, i requires 0 <= i < |ps[1..]| => Ser(ps[1..][i]));
      forall i | 0 <= i < |ps|
        ensures Carries(cb, m, c, r, Ser(ps[i]), r.sent[|m.sent| + i])
      {
        if i > 0 {
          assert rest[i - 1] == Ser(ps[i]);
          assert Carries(cb, n, c, r, rest[i - 1], r.sent[|n.sent| + (i - 1)]);
        }
      }
    }
  }

  lemma UnknownFollows<O>(cb: Callbacks<O>, m: Machine<O>, c: Cause)
    requires !Early(m.state) && c.got.Some?
    ensures var h := cb.extcode(m.opts, m.state.Opened?, c.got.value);
            Follows(cb, m, c, RUnknown(cb, m, c.got.value, c.whole),
                    Entered(m.state, if h.known then Rxr(h.reply) else Ruc))
  {
    hide SendAll, Sends, Clip;
    var h := cb.extcode(m.opts, m.state.Opened?, c.got.value);
    var n := RUnknown(cb, m, c.got.value, c.whole);
    if h.known {
      FsmRuns.SendAllKeeps(cb, m, h.reply);
      SendAllFollows(cb, m, c, h.reply);
    } else {
      SendsOne(cb, m, c, n, Scj, Packet(CODEREJ, NextId(m.id), Cut(cb, m.opts, c.whole)));
    }
  }

  // ---- Requests and the replies to ours ----

  lemma CallUpFollows<O>(cb: Callbacks<O>, m: Machine<O>)
    requires m.state.Opened?
    ensures var n := CallUp(cb, m);
            if cb.up(m.opts).close.None? then
              n.state.Opened? && n.calls == m.calls + [Up] && n.retransmits == m.retransmits && n.sent == m.sent
            else
              && n.state.Closing? && n.calls == m.calls + [Up, Down] && n.retransmits == m.limits.maxTerminate - 1
              && n.reqid == NextId(m.id)
              && n.sent == m.sent + [Packet(TERMREQ, NextId(m.id), Cut(cb, n.opts, n.reason))]
  {
    hide SendTermReq, Clip;
    var r := cb.up(m.opts);
    if r.close.Some? {
      var u := Called(m, Up).(opts := r.opts, reason := r.close.value);
      var d := CallDown(cb, u);
      TermRequestIs(cb, d.(retransmits := d.limits.maxTerminate));
      assert m.calls + [Up] + [Down] == m.calls + [Up, Down];
    }
  }

  /** The machine in which a request is judged, against the one that receives it. */
  lemma JudgedIs<O>(cb: Callbacks<O>, m: Machine<O>)
    requires FsmRuns.Judges(m.state)
    ensures var j := FsmRuns.Judged(cb, m);
            && j.limits == m.limits && j.state == (if m.state.Stopped? then ReqSent else m.state)
            && if m.state.Stopped? || m.state.Opened? then
                 && j.calls == m.calls + (if m.state.Opened? then [Down] else [])
                 && j.retransmits == m.limits.maxConfigure - 1 && j.reqid == NextId(m.id)
                 && |j.sent| == |m.sent| + 1 && j.sent[..|m.sent|] == m.sent
                 && j.sent[|m.sent|].code == CONFREQ && j.sent[|m.sent|].id == j.reqid
               else j == m
  {
    hide SendConfReq;
    RequestIs(cb, CallDown(cb, m), false);
    RequestIs(cb, m, false);
  }

  /** Answering a request in the machine that judges it; the count of Naks starts again with an Ack. */
  lemma AnswerIs<O>(cb: Callbacks<O>, j: Machine<O>, id: byte, data: bytes)
    ensures var v := cb.reqci(j.opts, data, j.nakloops >= j.limits.maxNak);
            var n := Judge(cb, j, id, data);
            var sent := j.sent + [Packet(v.code, id, Cut(cb, v.opts, v.reply))];
            if v.code == CONFACK && j.state.AckRcvd? then
              if cb.up(v.opts).close.None? then
                n.state.Opened? && n.calls == j.calls + [Up] && n.retransmits == j.retransmits && n.sent == sent
              else
                && n.state.Closing? && n.calls == j.calls + [Up, Down] && n.retransmits == j.limits.maxTerminate - 1
                && n.reqid == NextId(j.id)
                && n.sent == sent + [Packet(TERMREQ, NextId(j.id), Cut(cb, n.opts, n.reason))]
            else
              && n.state == (if v.code == CONFACK then AckSent else if j.state.AckRcvd? then AckRcvd else ReqSent)
              && n.calls == j.calls && n.retransmits == j.retransmits && n.sent == sent && n.reqid == j.reqid
    ensures var code := cb.reqci(j.opts, data, j.nakloops >= j.limits.maxNak).code;
            Judge(cb, j, id, data).nakloops ==
              if code == CONFACK then 0 else if code == CONFNAK then j.nakloops + 1 else j.nakloops
  {
    hide CallUp, Clip;
    var v := cb.reqci(j.opts, data, j.nakloops >= j.limits.maxNak);
    var n := Send(cb, j.(opts := v.opts), v.code, id, v.reply);
    CallUpFollows(cb, n.(timers := 0, state := Opened));
  }

  lemma AskedFollows<O>(cb: Callbacks<O>, m: Machine<O>, c: Cause)
    requires (m.state.Stopped? || m.state.Opened?) && c.got.Some? && !c.repeated && c.got.value.code == CONFREQ
    ensures Follows(cb, m, c, RConfReq(cb, m, c.got.value.id, c.got.value.data), Takes(cb, m, c.got.value))
  {
    hide Sends, Judge, FsmRuns.Judged, RConfReq, Clip;
    var p := c.got.value;
    FsmRuns.RConfReqJudges(cb, m, p.id, p.data);
    JudgedIs(cb, m);
    var j := FsmRuns.Judged(cb, m);
    var v := Verdict(cb, m, p.data);
    AnswerIs(cb, j, p.id, p.data);
    assert j.sent == m.sent + [j.sent[|m.sent|]];
    SendsAfter(cb, m, c, RConfReq(cb, m, p.id, p.data), Scr, if v.code == CONFACK then Sca else Scn,
               j.sent[|m.sent|], Packet(v.code, p.id, Cut(cb, v.opts, v.reply)));
  }

  lemma JudgedFollows<O>(cb: Callbacks<O>, m: Machine<O>, c: Cause)
    requires Negotiating(m.state) && c.got.Some? && !c.repeated && c.got.value.code == CONFREQ
    ensures Follows(cb, m, c, RConfReq(cb, m, c.got.value.id, c.got.value.data), Takes(cb, m, c.got.value))
  {
    hide Sends, Judge, FsmRuns.Judged, RConfReq, Clip;
    var p := c.got.value;
    var n := RConfReq(cb, m, p.id, p.data);
    FsmRuns.RConfReqJudges(cb, m, p.id, p.data);
    JudgedIs(cb, m);
    var v := Verdict(cb, m, p.data);
    AnswerIs(cb, m, p.id, p.data);
    var pk := Packet(v.code, p.id, Cut(cb, v.opts, v.reply));
    if v.code == CONFACK && m.state.AckRcvd? && cb.up(v.opts).close.Some? {
      SendsAfter(cb, m, c, n, Sca, Str, pk, Packet(TERMREQ, NextId(m.id), Cut(cb, n.opts, n.reason)));
      assert [Up] + [Down] == [Up, Down];
    } else {
      SendsOne(cb, m, c, n, if v.code == CONFACK then Sca else Scn, pk);
    }
  }

  lemma RequestFollows<O>(cb: Callbacks<O>, m: Machine<O>, c: Cause)
    requires !Early(m.state) && c.got.Some? && !c.repeated && c.got.value.code == CONFREQ
    ensures Follows(cb, m, c, RConfReq(cb, m, c.got.value.id, c.got.value.data), Takes(cb, m, c.got.value))
  {
    var p := c.got.value;
    var n := RConfReq(cb, m, p.id, p.data);
    if m.state.Stopped? || m.state.Opened? {
      AskedFollows(cb, m, c);
    } else if Negotiating(m.state) {
      JudgedFollows(cb, m, c);
    } else {
      hide Sends, Judge, Send, SendConfReq, Verdict, CallDown;
      if m.state.Closed? {
        SendIs(cb, m, TERMACK, p.id, []);
        SendsReply(cb, m, c, m, n, p.id);
      } else {
        SendsNone(cb, m, c, n);
      }
    }
  }

  lemma AckOpens<O>(cb: Callbacks<O>, m: Machine<O>, c: Cause)
    requires m.state.AckSent? && c.got.Some? && c.got.value.code == CONFACK && KindOf(cb, m, c.got.value).Rca?
    ensures Follows(cb, m, c, RConfAck(cb, m, c.got.value.id, c.got.value.data), Takes(cb, m, c.got.value))
  {
    hide Sends, CallUp, Clip;
    var n := RConfAck(cb, m, c.got.value.id, c.got.value.data);
    CallUpFollows(cb, m.(seenAck := true, timers := 0, state := Opened, retransmits := m.limits.maxConfigure));
    if cb.up(m.opts).close.Some? {
      SendsOne(cb, m, c, n, Str, Packet(TERMREQ, NextId(m.id), Cut(cb, n.opts, n.reason)));
      assert [] + [Str] == [Str] && [Up] + [Down] == [Up, Down];
    } else {
      SendsNone(cb, m, c, n);
    }
  }

  lemma AckAsksAgain<O>(cb: Callbacks<O>, m: Machine<O>, c: Cause)
    requires (m.state.AckRcvd? || m.state.Opened?) && c.got.Some? && !c.repeated
    requires c.got.value.code == CONFACK && KindOf(cb, m, c.got.value).Rca?
    ensures Follows(cb, m, c, RConfAck(cb, m, c.got.value.id, c.got.value.data), Takes(cb, m, c.got.value))
  {
    hide Sends, SendConfReq, CallDown;
    var a := m.(seenAck := true);
    var j := if m.state.AckRcvd? then a.(timers := 0) else CallDown(cb, a);
    CallDownIs(cb, a);
    RequestIs(cb, j, false);
    SendsNew(cb, m, c, j, RConfAck(cb, m, c.got.value.id, c.got.value.data), false);
  }

  lemma AckFollows<O>(cb: Callbacks<O>, m: Machine<O>, c: Cause)
    requires !Early(m.state) && c.got.Some? && !c.repeated && c.got.value.code == CONFACK
    ensures Follows(cb, m, c, RConfAck(cb, m, c.got.value.id, c.got.value.data), Takes(cb, m, c.got.value))
  {
    hide Sends, SendConfReq, CallDown, CallUp, Send;
    var p := c.got.value;
    var n := RConfAck(cb, m, p.id, p.data);
    if KindOf(cb, m, p).Rca? && (m.state.AckRcvd? || m.state.Opened?) {
      AckAsksAgain(cb, m, c);
    } else if KindOf(cb, m, p).Rca? && m.state.AckSent? {
      AckOpens(cb, m, c);
    } else if KindOf(cb, m, p).Rca? && (m.state.Closed? || m.state.Stopped?) {
      SendIs(cb, m.(seenAck := true), TERMACK, p.id, []);
      SendsReply(cb, m, c, m.(seenAck := true), n, p.id);
    } else {
      SendsNone(cb, m, c, n);
    }
  }

  lemma SendIs<O>(cb: Callbacks<O>, m: Machine<O>, code: byte, id: byte, data: bytes)
    ensures var n := Send(cb, m, code, id, data); n == m.(sent := n.sent)
  {
  }

  lemma CallDownIs<O>(cb: Callbacks<O>, m: Machine<O>)
    ensures var d := CallDown(cb, m);
            d == m.(calls := m.calls + [Down], opts := d.opts)
  {
  }

  /** Trying again after a good refusal. */
  lemma RefusedFollows<O>(cb: Callbacks<O>, m: Machine<O>, c: Cause, ret: int)
    requires c.got.Some? && !c.repeated && ret != 0
    ensures Follows(cb, m, c, Refused(cb, m, c.got.value.id, ret), Entered(m.state, if ret < 0 then Hopeless else Rcn))
  {
    hide Sends, SendConfReq, CallDown, Send;
    var n := Refused(cb, m, c.got.value.id, ret);
    CallDownIs(cb, m);
    if m.state.Closed? || m.state.Stopped? {
      SendIs(cb, m, TERMACK, c.got.value.id, []);
      SendsReply(cb, m, c, m, n, c.got.value.id);
    } else if m.state.Opened? || m.state.AckRcvd? || ((m.state.ReqSent? || m.state.AckSent?) && ret > 0) {
      var j := if m.state.Opened? then CallDown(cb, m) else m.(timers := 0);
      RequestIs(cb, j, false);
      SendsNew(cb, m, c, j, n, false);
    } else {
      SendsNone(cb, m, c, n);
    }
  }

  /** After a close nothing is left to try, so only a closed machine still answers. */
  lemma ClosedThenRefused<O>(cb: Callbacks<O>, m: Machine<O>, k: Kind)
    requires !Early(m.state) && (k.Rcn? || k.Hopeless?)
    ensures var s := Closes(cb, m).next;
            (s.Closed? || s.Closing?) && Entered(s, k) == Entry(s, if s.Closed? then [Sta] else [], [], Keep)
  {
  }

  lemma RefusalFollows<O>(cb: Callbacks<O>, m: Machine<O>, c: Cause)
    requires !Early(m.state) && c.got.Some? && !c.repeated
    requires c.got.value.code == CONFNAK || c.got.value.code == CONFREJ
    requires c.got.value.id == m.reqid && !m.seenAck && Refusal(cb, m, c.got.value).close.None?
    ensures Follows(cb, m, c, RConfRefused(cb, m, c.got.value.code == CONFNAK, c.got.value.id, c.got.value.data),
                    Takes(cb, m, c.got.value))
  {
    hide Sends, Refused, Entered;
    var p := c.got.value;
    var r := Refusal(cb, m, p);
    var m1 := m.(opts := r.opts);
    if r.ret == 0 {
      SendsNone(cb, m, c, m1);
      NothingEntered(m.state);
    } else {
      var m2 := m1.(seenAck := true);
      RefusedFollows(cb, m2, c, r.ret);
      var n := Refused(cb, m2, p.id, r.ret);
      RefusedActs(m.state, if r.ret < 0 then Hopeless else Rcn);
      AlikeSends(cb, m2, m, c, n, Entered(m.state, if r.ret < 0 then Hopeless else Rcn).acts);
    }
  }

  lemma NothingEntered(s: State)
    ensures Entered(s, Nothing) == Entry(s, [], [], Keep)
  {
  }

  lemma RefusedActs(s: State, k: Kind)
    requires k.Rcn? || k.Hopeless?
    ensures forall a | a in Entered(s, k).acts :: a.Scr? || a.Sta?
  {
  }

  lemma AlikeSends<O>(cb: Callbacks<O>, s: Machine<O>, m: Machine<O>, c: Cause, n: Machine<O>, acts: seq<Act>)
    requires s.sent == m.sent && s.id == m.id && s.reqid == m.reqid && forall a | a in acts :: a.Scr? || a.Sta?
    requires Sends(cb, s, c, n, acts)
    ensures Sends(cb, m, c, n, acts)
  {
    forall i | 0 <= i < |acts|
      ensures Carries(cb, m, c, n, acts[i], n.sent[|m.sent| + i])
    {
      assert Carries(cb, s, c, n, acts[i], n.sent[|s.sent| + i]);
    }
  }

  lemma RefusedAfterClose<O>(cb: Callbacks<O>, n: Machine<O>, id: byte, ret: int)
    requires n.state.Closed? || n.state.Closing?
    ensures Refused(cb, n, id, ret) == if n.state.Closed? then Send(cb, n, TERMACK, id, []) else n
  {
  }

  lemma RefusalClosesFollows<O>(cb: Callbacks<O>, m: Machine<O>, c: Cause)
    requires !Early(m.state) && c.got.Some? && !c.repeated
    requires c.got.value.code == CONFNAK || c.got.value.code == CONFREJ
    requires c.got.value.id == m.reqid && !m.seenAck && Refusal(cb, m, c.got.value).close.Some?
    ensures Follows(cb, m, c, RConfRefused(cb, m, c.got.value.code == CONFNAK, c.got.value.id, c.got.value.data),
                    Takes(cb, m, c.got.value))
  {
    hide Sends, Refused, Entered, Close, Closes, Send;
    var p := c.got.value;
    var r := Refusal(cb, m, p);
    var m1 := m.(opts := r.opts);
    CloseFollows(cb, m1, r.close.value, c);
    CloseSends(cb, m, m1, c, r.close.value);
    var n := Close(cb, m1, r.close.value);
    assert Closes(cb, m1) == Closes(cb, m) by { SameCloses(cb, m, m1); }
    if r.ret == 0 {
      NothingEntered(n.state);
      assert Closes(cb, m).acts + [] == Closes(cb, m).acts;
    } else {
      var k := if r.ret < 0 then Hopeless else Rcn;
      ClosedThenRefused(cb, m, k);
      RefusedAfterClose(cb, n.(seenAck := true), p.id, r.ret);
      if n.state.Closed? {
        SendIs(cb, n.(seenAck := true), TERMACK, p.id, []);
        ClosedQuietly(cb, m);
        NoneSent(cb, m, c, n);
        SendsReply(cb, m, c, n.(seenAck := true), Send(cb, n.(seenAck := true), TERMACK, p.id, []), p.id);
        assert [] + [Sta] == [Sta];
      } else {
        assert Closes(cb, m).acts + [] == Closes(cb, m).acts;
        SeenSends(cb, m, c, n);
      }
    }
  }

  lemma SameCloses<O>(cb: Callbacks<O>, m: Machine<O>, m1: Machine<O>)
    requires m1 == m.(opts := m1.opts)
    ensures Closes(cb, m1) == Closes(cb, m)
  {
    hide Entered;
  }

  lemma ClosedQuietly<O>(cb: Callbacks<O>, m: Machine<O>)
    ensures Closes(cb, m).next.Closed? ==> Closes(cb, m).acts == []
  {
  }

  lemma CloseSends<O>(cb: Callbacks<O>, m: Machine<O>, m1: Machine<O>, c: Cause, reason: bytes)
    requires m1 == m.(opts := m1.opts) && Sends(cb, m1, c, Close(cb, m1, reason), Closes(cb, m1).acts)
    ensures Sends(cb, m, c, Close(cb, m1, reason), Closes(cb, m1).acts)
  {
    hide Close;
    var acts, n := Closes(cb, m1).acts, Close(cb, m1, reason);
    assert acts == [] || acts == [Str];
    forall i | 0 <= i < |acts|
      ensures Carries(cb, m, c, n, acts[i], n.sent[|m.sent| + i])
    {
      assert Carries(cb, m1, c, n, acts[i], n.sent[|m1.sent| + i]);
    }
  }

  lemma SeenSends<O>(cb: Callbacks<O>, m: Machine<O>, c: Cause, n: Machine<O>)
    requires Sends(cb, m, c, n, Closes(cb, m).acts)
    ensures Sends(cb, m, c, n.(seenAck := true), Closes(cb, m).acts)
  {
    var acts, n1 := Closes(cb, m).acts, n.(seenAck := true);
    forall i | 0 <= i < |acts|
      ensures Carries(cb, m, c, n1, acts[i], n1.sent[|m.sent| + i])
    {
      assert Carries(cb, m, c, n, acts[i], n.sent[|m.sent| + i]);
    }
  }

  lemma InputFollows<O>(cb: Callbacks<O>, m: Machine<O>, frame: bytes)
    ensures Follows(cb, m, CauseOf(EvInput(frame)), Input(cb, m, frame), Expected(cb, m, EvInput(frame)))
  {
    hide Sends, Parse, RConfReq, RConfAck, RConfRefused, RTermReq, RTermAck, RUnknown, Follows, Entered, Verdict;
    var c, e := CauseOf(EvInput(frame)), EvInput(frame);
    if Parse(frame).None? || Early(m.state) {
      StayFollows(cb, m, c);
    } else {
      var p := Parse(frame).value;
      if p.code == CONFREQ {
        RequestFollows(cb, m, c);
      } else if p.code == CONFACK {
        AckFollows(cb, m, c);
      } else if p.code == CONFNAK || p.code == CONFREJ {
        RefusalsFollow(cb, m, c);
      } else if p.code == TERMREQ {
        TermReqFollows(cb, m, c);
      } else if p.code == TERMACK {
        TermAckFollows(cb, m, c);
      } else if p.code == CODEREJ {
        CodeRejFollows(cb, m, c);
      } else {
        UnknownFollows(cb, m, c);
      }
    }
  }

  lemma StayFollows<O>(cb: Callbacks<O>, m: Machine<O>, c: Cause)
    ensures Follows(cb, m, c, m, Entered(m.state, Nothing))
  {
    hide Sends;
    SendsNone(cb, m, c, m);
  }

  lemma CodeRejFollows<O>(cb: Callbacks<O>, m: Machine<O>, c: Cause)
    requires !Early(m.state) && c.got.Some?
    ensures Follows(cb, m, c, RCodeRej(m, c.got.value.data),
                    Entered(m.state, if |c.got.value.data| >= HEADERLEN then Rxj else Nothing))
  {
    hide Sends;
    SendsNone(cb, m, c, RCodeRej(m, c.got.value.data));
  }

  lemma RefusalsFollow<O>(cb: Callbacks<O>, m: Machine<O>, c: Cause)
    requires !Early(m.state) && c.got.Some? && !c.repeated
    requires c.got.value.code == CONFNAK || c.got.value.code == CONFREJ
    ensures Follows(cb, m, c, RConfRefused(cb, m, c.got.value.code == CONFNAK, c.got.value.id, c.got.value.data),
                    Takes(cb, m, c.got.value))
  {
    hide Follows, Entered, Refused, Close;
    if c.got.value.id != m.reqid || m.seenAck {
      StayFollows(cb, m, c);
    } else if Refusal(cb, m, c.got.value).close.None? {
      RefusalFollows(cb, m, c);
    } else {
      RefusalClosesFollows(cb, m, c);
    }
  }

  /** Every step of every protocol is its entry in the table: the next state, each packet sent with its code, id and
      contents, each call and the restart counter. The two exceptions are in `Entered`. */
  lemma StepFollows<O>(cb: Callbacks<O>, m: Machine<O>, e: Event)
    ensures Follows(cb, m, CauseOf(e), Step(cb, m, e), Expected(cb, m, e))
  {
    hide Follows, Entered, Opening, Closes, TimesOut, Takes;
    hide LowerUp, LowerDown, Open, Close, Timeout, Input, ProtReject;
    match e
    case EvUp => DownUpFollow(cb, m, CauseOf(e));
    case EvDown => DownUpFollow(cb, m, CauseOf(e));
    case EvOpen(flags) => OpenFollows(cb, m, flags);
    case EvClose(reason) => CloseFollows(cb, m, reason, CauseOf(e));
    case EvTimeout => TimeoutFollows(cb, m);
    case EvInput(frame) => InputFollows(cb, m, frame);
    case EvProtReject => ProtRejectFollows(cb, m);
  }

  /** Any Terminate-Request that reaches a machine whose lower layer is up draws exactly one packet, a Terminate-Ack
      with its id and nothing in it. */
  lemma TermReqAnswered<O>(cb: Callbacks<O>, m: Machine<O>, id: byte, data: bytes, padding: bytes)
    requires !Early(m.state) && |data| + HEADERLEN < 0x1_0000
    ensures var n := Step(cb, m, EvInput(Format(Packet(TERMREQ, id, data)) + padding));
            && n.sent == m.sent + [Packet(TERMACK, id, [])]
            && n.state == (if m.state.Opened? then Stopping
                           else if m.state.AckRcvd? || m.state.AckSent? then ReqSent else m.state)
  {
    hide Parse, Format, Step, Clip;
    var e := EvInput(Format(Packet(TERMREQ, id, data)) + padding);
    ParseFormat(Packet(TERMREQ, id, data), padding);
    StepFollows(cb, m, e);
    var n := Step(cb, m, e);
    assert Expected(cb, m, e).acts == [Sta];
    assert Carries(cb, m, CauseOf(e), n, [Sta][0], n.sent[|m.sent| + 0]);
    assert n.sent == m.sent + [n.sent[|m.sent|]];
  }
}
