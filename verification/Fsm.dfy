/** The PPP option-negotiation automaton: one step function per entry point and
    receiver of the machine, over a value that records everything the machine
    can change. The protocol on top of the automaton is a record of callbacks
    over an option state of any type. */
module Fsm {
  import opened Wire

  const HEADERLEN := 4

  const CONFREQ: byte := 1
  const CONFACK: byte := 2
  const CONFNAK: byte := 3
  const CONFREJ: byte := 4
  const TERMREQ: byte := 5
  const TERMACK: byte := 6
  const CODEREJ: byte := 7

  datatype Option<+T> = None | Some(value: T)

  datatype State =
    | Initial | Starting | Closed | Stopped | Closing | Stopping
    | ReqSent | AckRcvd | AckSent | Opened

  datatype Packet = Packet(code: byte, id: byte, data: bytes)

  /** Calls made to the layer above and the layer below. */
  datatype Call = Up | Down | LowerNeeded | LowerDone

  datatype Flags = Flags(passive: bool, restart: bool, silent: bool)

  datatype Limits = Limits(maxConfigure: int, maxTerminate: int, maxNak: int)

  /** What judging a peer's request, a Nak or Reject, an up call and an unknown code produce. */
  datatype Verdict<O> = Verdict(opts: O, code: byte, reply: bytes)
  datatype Refusal<O> = Refusal(opts: O, ret: int, close: Option<bytes>)
  datatype Raised<O> = Raised(opts: O, close: Option<bytes>)
  datatype Handled = Handled(known: bool, reply: seq<Packet>)

  /** The callback table. `addci` is given the room left for options and never
      returns more; `mru` is the size limit of outgoing packets; `up` and the
      refusal callbacks may ask for the machine to be closed. `endsWhenStopped`
      tells whether closing a passive or silent stopped machine ends it. */
  datatype Callbacks<!O> = Callbacks(
    resetci: O -> O,
    addci: (O, int) -> (O, bytes),
    ackci: (O, bytes) -> bool,
    nakci: (O, bool, bytes) -> Refusal<O>,
    rejci: (O, bool, bytes) -> Refusal<O>,
    reqci: (O, bytes, bool) -> Verdict<O>,
    up: O -> Raised<O>,
    down: O -> O,
    extcode: (O, bool, Packet) -> Handled,
    mru: O -> int,
    endsWhenStopped: bool)

  /** One machine: the automaton's own fields, the options it negotiates, the
      number of pending restart timers, every packet sent and every call made. */
  datatype Machine<O> = Machine(
    state: State,
    flags: Flags,
    limits: Limits,
    id: byte,
    reqid: byte,
    seenAck: bool,
    retransmits: int,
    nakloops: int,
    reason: bytes,
    opts: O,
    timers: nat,
    sent: seq<Packet>,
    calls: seq<Call>)

  predicate Negotiating(s: State) {
    s.ReqSent? || s.AckRcvd? || s.AckSent?
  }

  predicate Terminating(s: State) {
    s.Closing? || s.Stopping?
  }

  function Clip(data: bytes, room: int): (r: bytes)
    ensures |data| <= room ==> r == data
    ensures r <= data
  {
    if |data| <= room then data else if room <= 0 then [] else data[..room]
  }

  function NextId(id: byte): byte {
    (id + 1) % 256
  }

  function Called<O>(m: Machine<O>, c: Call): Machine<O> {
    m.(calls := m.calls + [c])
  }

  function Send<O>(cb: Callbacks<O>, m: Machine<O>, code: byte, id: byte, data: bytes): Machine<O> {
    m.(sent := m.sent + [Packet(code, id, Clip(data, cb.mru(m.opts) - HEADERLEN))])
  }

  function CallDown<O>(cb: Callbacks<O>, m: Machine<O>): Machine<O> {
    Called(m, Down).(opts := cb.down(m.opts))
  }

  /** A new Terminate-Request under a new id, with its timer. */
  function SendTermReq<O>(cb: Callbacks<O>, m: Machine<O>): Machine<O> {
    var id := NextId(m.id);
    var n := Send(cb, m.(id := id, reqid := id), TERMREQ, id, m.reason);
    n.(timers := n.timers + 1, retransmits := n.retransmits - 1)
  }

  /** Before a request: outside negotiation the options start afresh, and unless
      it repeats the last one it gets a new id and a full transmission count. */
  function NewRequest<O>(cb: Callbacks<O>, m: Machine<O>, retransmit: bool): Machine<O> {
    var n := if Negotiating(m.state) then m else m.(opts := cb.resetci(m.opts), nakloops := 0);
    if retransmit then n.(seenAck := false)
    else n.(seenAck := false, retransmits := n.limits.maxConfigure, id := NextId(n.id), reqid := NextId(n.id))
  }

  /** Send a Configure-Request holding the current options, with its timer. */
  function SendConfReq<O>(cb: Callbacks<O>, m: Machine<O>, retransmit: bool): Machine<O> {
    var n := NewRequest(cb, m, retransmit);
    var ci := cb.addci(n.opts, cb.mru(n.opts) - HEADERLEN);
    var s := Send(cb, n.(opts := ci.0), CONFREQ, n.reqid, ci.1);
    s.(retransmits := s.retransmits - 1, timers := s.timers + 1)
  }

  function LowerUp<O>(cb: Callbacks<O>, m: Machine<O>): Machine<O> {
    match m.state
    case Initial => m.(state := Closed)
    case Starting =>
      if m.flags.silent then m.(state := Stopped)
      else SendConfReq(cb, m, false).(state := ReqSent)
    case _ => m
  }

  function LowerDown<O>(cb: Callbacks<O>, m: Machine<O>): Machine<O> {
    match m.state
    case Closed => m.(state := Initial)
    case Stopped => Called(m.(state := Starting), LowerNeeded)
    case Closing => m.(state := Initial, timers := 0)
    case Stopping => m.(state := Starting, timers := 0)
    case ReqSent => m.(state := Starting, timers := 0)
    case AckRcvd => m.(state := Starting, timers := 0)
    case AckSent => m.(state := Starting, timers := 0)
    case Opened => CallDown(cb, m).(state := Starting)
    case _ => m
  }

  /** Restarting an opened machine is a Down followed by an Up. */
  function Restart<O>(cb: Callbacks<O>, m: Machine<O>): Machine<O> {
    if m.flags.restart then LowerUp(cb, LowerDown(cb, m)) else m
  }

  function Open<O>(cb: Callbacks<O>, m: Machine<O>, flags: Flags): Machine<O> {
    var m := m.(flags := flags);
    match m.state
    case Initial => Called(m.(state := Starting), LowerNeeded)
    case Closed =>
      if m.flags.silent then m.(state := Stopped)
      else SendConfReq(cb, m, false).(state := ReqSent)
    case Closing => Restart(cb, m.(state := Stopping))
    case Stopped => Restart(cb, m)
    case Opened => Restart(cb, m)
    case _ => m
  }

  /** An open or negotiating machine about to terminate: timers cancelled, or the layer above told. */
  function Silenced<O>(cb: Callbacks<O>, m: Machine<O>): Machine<O> {
    if m.state.Opened? then CallDown(cb, m) else m.(timers := 0)
  }

  function CloseWith<O>(cb: Callbacks<O>, m: Machine<O>, reason: bytes): Machine<O> {
    var m := m.(reason := reason);
    match m.state
    case Starting => m.(state := Initial)
    case Stopped => m.(state := Closed)
    case Stopping => m.(state := Closing)
    case Initial => m
    case Closed => m
    case Closing => m
    case _ => Terminated(cb, m)
  }

  /** Silent, a Terminate-Request out with a full transmission count, closing. */
  function Terminated<O>(cb: Callbacks<O>, m: Machine<O>): Machine<O> {
    var n := Silenced(cb, m);
    SendTermReq(cb, n.(retransmits := n.limits.maxTerminate)).(state := Closing)
  }

  /** The protocol's own close. */
  function Close<O>(cb: Callbacks<O>, m: Machine<O>, reason: bytes): Machine<O> {
    if cb.endsWhenStopped && m.state.Stopped? && (m.flags.passive || m.flags.silent) then
      Called(m.(state := Closed), LowerDone)
    else
      CloseWith(cb, m, reason)
  }

  function CloseIfAsked<O>(cb: Callbacks<O>, m: Machine<O>, ask: Option<bytes>): Machine<O> {
    if ask.Some? then Close(cb, m, ask.value) else m
  }

  function CallUp<O>(cb: Callbacks<O>, m: Machine<O>): Machine<O> {
    var r := cb.up(m.opts);
    CloseIfAsked(cb, Called(m, Up).(opts := r.opts), r.close)
  }

  /** The handler run after a pending timer has fired. */
  function TimeoutHandler<O>(cb: Callbacks<O>, m: Machine<O>): Machine<O> {
    if Terminating(m.state) then
      if m.retransmits <= 0 then
        Called(m.(state := if m.state.Closing? then Closed else Stopped), LowerDone)
      else
        SendTermReq(cb, m)
    else if Negotiating(m.state) then
      if m.retransmits <= 0 then
        var n := m.(state := Stopped);
        if m.flags.passive then n else Called(n, LowerDone)
      else
        var n := SendConfReq(cb, m, true);
        if n.state.AckRcvd? then n.(state := ReqSent) else n
    else m
  }

  function Timeout<O>(cb: Callbacks<O>, m: Machine<O>): Machine<O> {
    if m.timers == 0 then m else TimeoutHandler(cb, m.(timers := m.timers - 1))
  }

  function RConfReq<O>(cb: Callbacks<O>, m: Machine<O>, id: byte, data: bytes): Machine<O> {
    match m.state
    case Closed => Send(cb, m, TERMACK, id, [])
    case Closing => m
    case Stopping => m
    case Opened => Judge(cb, SendConfReq(cb, CallDown(cb, m), false), id, data)
    case Stopped => Judge(cb, SendConfReq(cb, m, false).(state := ReqSent), id, data)
    case _ => Judge(cb, m, id, data)
  }

  /** Answer a Configure-Request with an Ack, Nak or Reject. */
  function Judge<O>(cb: Callbacks<O>, m: Machine<O>, id: byte, data: bytes): Machine<O> {
    var v := cb.reqci(m.opts, data, m.nakloops >= m.limits.maxNak);
    Settled(cb, Send(cb, m.(opts := v.opts), v.code, id, v.reply), v.code)
  }

  /** What an answer to the peer's request leads to. */
  function Settled<O>(cb: Callbacks<O>, n: Machine<O>, code: byte): Machine<O> {
    if code == CONFACK then
      if n.state.AckRcvd? then
        CallUp(cb, n.(timers := 0, state := Opened)).(nakloops := 0)
      else
        n.(state := AckSent, nakloops := 0)
    else
      n.(state := if n.state.AckRcvd? then AckRcvd else ReqSent,
      nakloops := if code == CONFNAK then n.nakloops + 1 else n.nakloops)
  }

  function RConfAck<O>(cb: Callbacks<O>, m: Machine<O>, id: byte, data: bytes): Machine<O> {
    if id != m.reqid || m.seenAck then m
    else if !cb.ackci(m.opts, data) then m
    else
      var m := m.(seenAck := true);
      match m.state
      case Closed => Send(cb, m, TERMACK, id, [])
      case Stopped => Send(cb, m, TERMACK, id, [])
      case ReqSent => m.(state := AckRcvd, retransmits := m.limits.maxConfigure)
      case AckRcvd => SendConfReq(cb, m.(timers := 0), false).(state := ReqSent)
      case AckSent =>
        CallUp(cb, m.(timers := 0, state := Opened, retransmits := m.limits.maxConfigure))
      case Opened => SendConfReq(cb, CallDown(cb, m), false).(state := ReqSent)
      case _ => m
  }

  function RConfRefused<O>(cb: Callbacks<O>, m: Machine<O>, nak: bool, id: byte, data: bytes): Machine<O> {
    if id != m.reqid || m.seenAck then m
    else
      var r := if nak then cb.nakci(m.opts, m.state.Opened?, data) else cb.rejci(m.opts, m.state.Opened?, data);
      var n := CloseIfAsked(cb, m.(opts := r.opts), r.close);
      if r.ret == 0 then n else Refused(cb, n.(seenAck := true), id, r.ret)
  }

  /** Try again after a good Nak or Reject. */
  function Refused<O>(cb: Callbacks<O>, m: Machine<O>, id: byte, ret: int): Machine<O> {
    match m.state
    case Closed => Send(cb, m, TERMACK, id, [])
    case Stopped => Send(cb, m, TERMACK, id, [])
    case ReqSent =>
      var n := m.(timers := 0);
      if ret < 0 then n.(state := Stopped) else SendConfReq(cb, n, false)
    case AckSent =>
      var n := m.(timers := 0);
      if ret < 0 then n.(state := Stopped) else SendConfReq(cb, n, false)
    case AckRcvd => SendConfReq(cb, m.(timers := 0), false).(state := ReqSent)
    case Opened => SendConfReq(cb, CallDown(cb, m), false).(state := ReqSent)
    case _ => m
  }

  function RTermReq<O>(cb: Callbacks<O>, m: Machine<O>, id: byte): Machine<O> {
    var n := match m.state
      case AckRcvd => m.(state := ReqSent)
      case AckSent => m.(state := ReqSent)
      case Opened =>
        var d := CallDown(cb, m.(retransmits := 0, state := Stopping));
        d.(timers := d.timers + 1)
      case _ => m;
    Send(cb, n, TERMACK, id, [])
  }

  /** An opened machine goes down and sends a request but stays opened. */
  function RTermAck<O>(cb: Callbacks<O>, m: Machine<O>): Machine<O> {
    match m.state
    case Closing => Called(m.(timers := 0, state := Closed), LowerDone)
    case Stopping => Called(m.(timers := 0, state := Stopped), LowerDone)
    case AckRcvd => m.(state := ReqSent)
    case Opened => SendConfReq(cb, CallDown(cb, m), false)
    case _ => m
  }

  function RCodeRej<O>(m: Machine<O>, data: bytes): Machine<O> {
    if |data| >= HEADERLEN && m.state.AckRcvd? then m.(state := ReqSent) else m
  }

  function RUnknown<O>(cb: Callbacks<O>, m: Machine<O>, p: Packet, whole: bytes): Machine<O> {
    var h := cb.extcode(m.opts, m.state.Opened?, p);
    if h.known then SendAll(cb, m, h.reply)
    else Send(cb, m.(id := NextId(m.id)), CODEREJ, NextId(m.id), whole)
  }

  function SendAll<O>(cb: Callbacks<O>, m: Machine<O>, ps: seq<Packet>): Machine<O>
    decreases |ps|
  {
    if ps == [] then m
    else SendAll(cb, Send(cb, m, ps[0].code, ps[0].id, ps[0].data), ps[1..])
  }

  function ProtReject<O>(cb: Callbacks<O>, m: Machine<O>): Machine<O> {
    match m.state
    case Closing => Called(m.(timers := 0, state := Closed), LowerDone)
    case Closed => Called(m, LowerDone)
    case Stopping => Called(m.(timers := 0, state := Stopped), LowerDone)
    case ReqSent => Called(m.(timers := 0, state := Stopped), LowerDone)
    case AckRcvd => Called(m.(timers := 0, state := Stopped), LowerDone)
    case AckSent => Called(m.(timers := 0, state := Stopped), LowerDone)
    case Stopped => Called(m, LowerDone)
    case Opened =>
      var n := CallDown(cb, m);
      SendTermReq(cb, n.(retransmits := n.limits.maxTerminate)).(state := Stopping)
    case _ => m
  }

  /** The octets of a packet on the line. */
  function Format(p: Packet): (r: bytes) {
    [p.code, p.id] + PutShort(|p.data| + HEADERLEN) + p.data
  }

  /** The packet at the front of a frame; octets past the length field are padding. */
  function Parse(frame: bytes): (r: Option<Packet>)
    ensures r.Some? ==> |r.value.data| + HEADERLEN <= |frame|
  {
    if |frame| < HEADERLEN then None
    else
      var len := GetShort(frame[2..4]);
      if len < HEADERLEN || len > |frame| then None
      else Some(Packet(frame[0], frame[1], frame[HEADERLEN..len]))
  }

  /** Every packet short enough for its length field survives the line, whatever padding follows. */
  lemma ParseFormat(p: Packet, padding: bytes)
    requires |p.data| + HEADERLEN < 0x1_0000
    ensures Parse(Format(p) + padding) == Some(p)
  {
    var f := Format(p) + padding;
    assert f[2..4] == PutShort(|p.data| + HEADERLEN);
    ShortRoundTrip(|p.data| + HEADERLEN, f[2..4]);
    assert f[HEADERLEN..HEADERLEN + |p.data|] == p.data;
  }

  function Input<O>(cb: Callbacks<O>, m: Machine<O>, frame: bytes): Machine<O> {
    var r := Parse(frame);
    if r.None? || m.state.Initial? || m.state.Starting? then m
    else
      var p := r.value;
      if p.code == CONFREQ then RConfReq(cb, m, p.id, p.data)
      else if p.code == CONFACK then RConfAck(cb, m, p.id, p.data)
      else if p.code == CONFNAK then RConfRefused(cb, m, true, p.id, p.data)
      else if p.code == CONFREJ then RConfRefused(cb, m, false, p.id, p.data)
      else if p.code == TERMREQ then RTermReq(cb, m, p.id)
      else if p.code == TERMACK then RTermAck(cb, m)
      else if p.code == CODEREJ then RCodeRej(m, p.data)
      else RUnknown(cb, m, p, frame[..|p.data| + HEADERLEN])
  }

  datatype Event =
    | EvUp | EvDown | EvOpen(flags: Flags) | EvClose(reason: bytes)
    | EvTimeout | EvInput(frame: bytes) | EvProtReject

  function Step<O>(cb: Callbacks<O>, m: Machine<O>, e: Event): Machine<O> {
    match e
    case EvUp => LowerUp(cb, m)
    case EvDown => LowerDown(cb, m)
    case EvOpen(flags) => Open(cb, m, flags)
    case EvClose(reason) => Close(cb, m, reason)
    case EvTimeout => Timeout(cb, m)
    case EvInput(frame) => Input(cb, m, frame)
    case EvProtReject => ProtReject(cb, m)
  }

  /** The machine after a whole run. */
  function Run<O>(cb: Callbacks<O>, m: Machine<O>, es: seq<Event>): Machine<O>
    decreases |es|
  {
    if es == [] then m
    else Step(cb, Run(cb, m, es[..|es| - 1]), es[|es| - 1])
  }

  /** A machine as initialised: nothing pending, nothing sent. */
  function Fresh<O>(opts: O, limits: Limits): Machine<O> {
    Machine(Initial, Flags(false, false, false), limits, 0, 0, false, 0, 0, [], opts, 0, [], [])
  }
}
