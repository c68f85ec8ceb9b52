/** The CHAP authenticator: challenges, retransmissions, verdicts and the two timers. */
module Chap {
  import opened Wire

  datatype ServerState = Initial | Closed | Pending | InitialChal | Open | Rechallenge | BadAuth

  /** What the outside sees. Statuses and challenges carry the number of the challenge they belong to. */
  datatype Out =
    | Challenge(gen: nat, id: byte, value: bytes)
    | Status(gen: nat, id: byte, ok: bool)
    | PeerFailed
    | PeerPassed

  datatype Config = Config(maxTransmits: int, interval: int)

  /** The server half of the CHAP state; `made` counts the challenges generated so far and the timer
      fields count pending timeouts. */
  datatype Auth = Auth(ss: ServerState, id: byte, chalId: byte, challenge: bytes, transmits: nat,
                       chalTimers: nat, reTimers: nat, made: nat, log: seq<Out>)

  function Start(): Auth {
    Auth(Initial, 0, 0, [], 0, 0, 0, 0, [])
  }

  // ---- Handlers ----

  function Generate(s: Auth, value: bytes): Auth {
    var id := (s.id + 1) % 256;
    s.(id := id, chalId := id, challenge := value, transmits := 0, made := s.made + 1)
  }

  function SendChallenge(s: Auth): Auth {
    s.(log := s.log + [Challenge(s.made, s.chalId, s.challenge)], chalTimers := s.chalTimers + 1,
       transmits := s.transmits + 1)
  }

  function Reply(s: Auth, ok: bool): Auth {
    s.(log := s.log + [Status(s.made, s.chalId, ok)])
  }

  function Tell(s: Auth, o: Out): Auth {
    s.(log := s.log + [o])
  }

  function NewChallenge(s: Auth, value: bytes, ss: ServerState): Auth {
    SendChallenge(Generate(s, value)).(ss := ss)
  }

  function AuthPeer(s: Auth, value: bytes): Auth {
    if s.ss == Initial || s.ss == Pending then s.(ss := Pending) else NewChallenge(s, value, InitialChal)
  }

  predicate Challenging(s: Auth) {
    s.ss == InitialChal || s.ss == Rechallenge
  }

  function ChallengeTimeout(c: Config, s: Auth): Auth
    requires s.chalTimers > 0
  {
    var t := s.(chalTimers := s.chalTimers - 1);
    if !Challenging(t) then t
    else if t.transmits >= c.maxTransmits then Tell(t.(ss := BadAuth), PeerFailed)
    else SendChallenge(t)
  }

  function RechallengeTimeout(s: Auth, value: bytes): Auth
    requires s.reTimers > 0
  {
    var t := s.(reTimers := s.reTimers - 1);
    if t.ss != Open then t else NewChallenge(t, value, Rechallenge)
  }

  function LowerUp(s: Auth, value: bytes): Auth {
    if s.ss == Initial then s.(ss := Closed)
    else if s.ss == Pending then NewChallenge(s, value, InitialChal)
    else s
  }

  function LowerDown(c: Config, s: Auth): Auth {
    var t := if Challenging(s) then s.(chalTimers := 0)
             else if s.ss == Open && c.interval != 0 then s.(reTimers := 0)
             else s;
    t.(ss := Initial)
  }

  function ProtocolReject(c: Config, s: Auth): Auth {
    LowerDown(c, if s.ss != Initial && s.ss != Closed then Tell(s, PeerFailed) else s)
  }

  /** The digest and its length octet fit the packet. */
  predicate WellFormed(body: bytes) {
    |body| >= 2 && body[0] + 1 <= |body|
  }

  /** The first proper Response to a challenge settles it. */
  function Settle(c: Config, s: Auth, ok: bool): Auth {
    var t := Reply(s.(chalTimers := 0), ok);
    if ok then
      var u := if t.ss == InitialChal then Tell(t.(ss := Open), PeerPassed) else t.(ss := Open);
      if c.interval != 0 then u.(reTimers := u.reTimers + 1) else u
    else Tell(t.(ss := BadAuth), PeerFailed)
  }

  /** `ok` is the outcome of comparing digests, or of the authentication hook. */
  function ReceiveResponse(c: Config, s: Auth, id: byte, body: bytes, ok: bool): Auth {
    if s.ss == Closed || s.ss == Pending || id != s.chalId then s
    else if s.ss == Open then Reply(s, true)
    else if s.ss == BadAuth then Reply(s, false)
    else if !WellFormed(body) then s
    else Settle(c, s, ok)
  }

  // ---- Runs ----

  datatype Event =
    | DoAuthPeer(value: bytes)
    | DoChallengeTimeout
    | DoRechallenge(value: bytes)
    | DoLowerUp(value: bytes)
    | DoLowerDown
    | DoProtocolReject
    | DoResponse(id: byte, body: bytes, ok: bool)

  /** A timer goes off only while it is pending. */
  function Step(c: Config, s: Auth, e: Event): Auth {
    match e
    case DoAuthPeer(value) => AuthPeer(s, value)
    case DoChallengeTimeout => if s.chalTimers > 0 then ChallengeTimeout(c, s) else s
    case DoRechallenge(value) => if s.reTimers > 0 then RechallengeTimeout(s, value) else s
    case DoLowerUp(value) => LowerUp(s, value)
    case DoLowerDown => LowerDown(c, s)
    case DoProtocolReject => ProtocolReject(c, s)
    case DoResponse(id, body, ok) => ReceiveResponse(c, s, id, body, ok)
  }

  function Run(c: Config, es: seq<Event>): Auth {
    if es == [] then Start() else Step(c, Run(c, es[..|es| - 1]), es[|es| - 1])
  }

  // ---- Transmissions ----

  /** How often challenge number g went out. */
  function Sends(log: seq<Out>, g: nat): nat {
    if log == [] then 0
    else
      var o := log[|log| - 1];
      Sends(log[..|log| - 1], g) + if o.Challenge? && o.gen == g then 1 else 0
  }

  function Most(c: Config): nat {
    if c.maxTransmits > 1 then c.maxTransmits else 1
  }

  /** Challenges so far were sent often enough and always alike; the current one `transmits` times. */
  ghost predicate Bounded(c: Config, s: Auth) {
    && s.transmits <= Most(c)
    && Sends(s.log, s.made) == s.transmits
    && (forall g: nat | g < s.made :: Sends(s.log, g) <= Most(c))
    && (forall g: nat | g > s.made :: Sends(s.log, g) == 0)
    && (forall i | 0 <= i < |s.log| && s.log[i].Challenge? ::
          s.log[i].gen <= s.made && (s.log[i].gen == s.made ==> s.log[i] == Challenge(s.made, s.chalId, s.challenge)))
  }

  lemma SendsMore(log: seq<Out>, o: Out, g: nat)
    ensures Sends(log + [o], g) == Sends(log, g) + if o.Challenge? && o.gen == g then 1 else 0
  {
    assert (log + [o])[..|log|] == log;
  }

  lemma TellBounded(c: Config, s: Auth, o: Out)
    requires Bounded(c, s) && !o.Challenge?
    ensures Bounded(c, Tell(s, o))
  {
    hide Sends;
    forall g: nat
      ensures Sends(Tell(s, o).log, g) == Sends(s.log, g)
    {
      SendsMore(s.log, o, g);
    }
  }

  lemma SendBounded(c: Config, s: Auth)
    requires Bounded(c, s) && s.transmits < Most(c)
    ensures Bounded(c, SendChallenge(s))
  {
    hide Sends;
    forall g: nat
      ensures Sends(SendChallenge(s).log, g) == Sends(s.log, g) + if g == s.made then 1 else 0
    {
      SendsMore(s.log, Challenge(s.made, s.chalId, s.challenge), g);
    }
  }

  lemma NewBounded(c: Config, s: Auth, value: bytes, ss: ServerState)
    requires Bounded(c, s)
    ensures Bounded(c, NewChallenge(s, value, ss))
  {
    hide Sends;
    assert Bounded(c, Generate(s, value));
    SendBounded(c, Generate(s, value));
  }

  lemma StepBounded(c: Config, s: Auth, e: Event)
    requires Bounded(c, s)
    ensures Bounded(c, Step(c, s, e))
  {
    hide Sends;
    match e
    case DoAuthPeer(value) => NewBounded(c, s, value, InitialChal);
    case DoChallengeTimeout =>
      if s.chalTimers > 0 && Challenging(s) {
        var t := s.(chalTimers := s.chalTimers - 1);
        if t.transmits >= c.maxTransmits {
          TellBounded(c, t.(ss := BadAuth), PeerFailed);
        } else {
          SendBounded(c, t);
        }
      }
    case DoRechallenge(value) =>
      if s.reTimers > 0 {
        NewBounded(c, s.(reTimers := s.reTimers - 1), value, Rechallenge);
      }
    case DoLowerUp(value) => NewBounded(c, s, value, InitialChal);
    case DoLowerDown =>
    case DoProtocolReject => TellBounded(c, s, PeerFailed);
    case DoResponse(id, body, ok) => ResponseBounded(c, s, id, body, ok);
  }

  lemma ResponseBounded(c: Config, s: Auth, id: byte, body: bytes, ok: bool)
    requires Bounded(c, s)
    ensures Bounded(c, ReceiveResponse(c, s, id, body, ok))
  {
    hide Sends;
    TellBounded(c, s, Status(s.made, s.chalId, s.ss == Open));
    var t := s.(chalTimers := 0);
    TellBounded(c, t, Status(s.made, s.chalId, ok));
    var u := Reply(t, ok);
    TellBounded(c, u.(ss := Open), PeerPassed);
    TellBounded(c, u.(ss := BadAuth), PeerFailed);
  }

  /** On every run, no challenge goes out more than max(1, max_transmits) times. */
  lemma {:induction false} RunTransmits(c: Config, es: seq<Event>, g: nat)
    ensures Sends(Run(c, es).log, g) <= Most(c)
    ensures Bounded(c, Run(c, es))
  {
    if es != [] {
      RunTransmits(c, es[..|es| - 1], g);
      StepBounded(c, Run(c, es[..|es| - 1]), es[|es| - 1]);
    }
  }

  /** A silent peer: so many challenge timeouts in a row. */
  function Timeouts(n: nat): (r: seq<Event>)
    ensures |r| == n
  {
    seq(n, i => DoChallengeTimeout)
  }

  function Steps(c: Config, s: Auth, es: seq<Event>): Auth {
    if es == [] then s else Step(c, Steps(c, s, es[..|es| - 1]), es[|es| - 1])
  }

  /** The current challenge, so many times over. */
  function Repeats(s: Auth, n: nat): (r: seq<Out>)
    ensures |r| == n
  {
    seq(n, i => Challenge(s.made, s.chalId, s.challenge))
  }

  /** To a silent peer the challenge goes out exactly max(1, max_transmits) times, and then the peer has failed. */
  lemma {:induction false} SilentPeer(c: Config, s: Auth, n: nat)
    requires Challenging(s) && s.transmits == 1 && s.chalTimers == 1 && n <= Most(c)
    ensures var t := Steps(c, s, Timeouts(n));
            if n < Most(c)
            then t == s.(transmits := 1 + n, log := s.log + Repeats(s, n))
            else t == s.(ss := BadAuth, transmits := n, chalTimers := 0,
                         log := s.log + Repeats(s, n - 1) + [PeerFailed])
  {
    if n > 0 {
      SilentPeer(c, s, n - 1);
      assert Timeouts(n)[..n - 1] == Timeouts(n - 1);
      assert Repeats(s, n) == Repeats(s, n - 1) + [Challenge(s.made, s.chalId, s.challenge)];
    } else {
      assert s.log + Repeats(s, 0) == s.log;
    }
  }

  // ---- Timers ----

  /** One challenge timer exactly while challenging; one rechallenge timer exactly while open, if used at all. */
  predicate TimersRight(c: Config, s: Auth) {
    && s.chalTimers == (if Challenging(s) then 1 else 0)
    && s.reTimers == (if s.ss == Open && c.interval != 0 then 1 else 0)
  }

  /** Being asked to authenticate again while a timer is pending. */
  predicate AskedAgain(c: Config, s: Auth, e: Event) {
    e.DoAuthPeer? && (Challenging(s) || (s.ss == Open && c.interval != 0))
  }

  /** That is the one step that puts the timers out of order. */
  lemma StepTimersIff(c: Config, s: Auth, e: Event)
    requires TimersRight(c, s)
    ensures TimersRight(c, Step(c, s, e)) <==> !AskedAgain(c, s, e)
  {
  }

  ghost predicate RightThroughout(c: Config, es: seq<Event>) {
    forall n | 0 <= n <= |es| :: TimersRight(c, Run(c, es[..n]))
  }

  ghost predicate NeverAskedAgain(c: Config, es: seq<Event>) {
    forall n | 0 <= n < |es| :: !AskedAgain(c, Run(c, es[..n]), es[n])
  }

  /** The timers are right all through a run exactly when nobody asks again while one is pending. */
  lemma {:induction false} RunTimersIff(c: Config, es: seq<Event>)
    ensures RightThroughout(c, es) <==> NeverAskedAgain(c, es)
  {
    hide TimersRight, AskedAgain, Step;
    if es == [] {
      assert es[..0] == [];
      assert TimersRight(c, Start()) by { StartRight(c); }
    } else {
      var m := |es| - 1;
      var init := es[..m];
      assert forall n | 0 <= n <= m :: init[..n] == es[..n];
      assert es[..|es|] == es;
      RunTimersIff(c, init);
      if RightThroughout(c, init) {
        assert TimersRight(c, Run(c, init[..m]));
        StepTimersIff(c, Run(c, init), es[m]);
      }
      RightSplit(c, es);
      AskedSplit(c, es);
    }
  }

  lemma StartRight(c: Config)
    ensures TimersRight(c, Start())
  {
  }

  lemma RightSplit(c: Config, es: seq<Event>)
    requires es != []
    ensures RightThroughout(c, es) <==> RightThroughout(c, es[..|es| - 1]) && TimersRight(c, Run(c, es))
  {
    hide TimersRight, Step, Run;
    var m := |es| - 1;
    assert forall n | 0 <= n <= m :: es[..m][..n] == es[..n];
    assert es[..|es|] == es;
    if RightThroughout(c, es) {
      forall n | 0 <= n <= m
        ensures TimersRight(c, Run(c, es[..m][..n]))
      {
        assert TimersRight(c, Run(c, es[..n]));
      }
      assert TimersRight(c, Run(c, es[..|es|]));
    }
    if RightThroughout(c, es[..m]) && TimersRight(c, Run(c, es)) {
      forall n | 0 <= n <= |es|
        ensures TimersRight(c, Run(c, es[..n]))
      {
        if n <= m {
          assert TimersRight(c, Run(c, es[..m][..n]));
        }
      }
    }
  }

  lemma AskedSplit(c: Config, es: seq<Event>)
    requires es != []
    ensures NeverAskedAgain(c, es) <==>
              NeverAskedAgain(c, es[..|es| - 1]) && !AskedAgain(c, Run(c, es[..|es| - 1]), es[|es| - 1])
  {
    hide AskedAgain, Step, Run;
    var m := |es| - 1;
    var init := es[..m];
    assert forall n | 0 <= n <= m :: init[..n] == es[..n];
    if NeverAskedAgain(c, init) && !AskedAgain(c, Run(c, init), es[m]) {
      forall n | 0 <= n < |es|
        ensures !AskedAgain(c, Run(c, es[..n]), es[n])
      {
        if n < m {
          assert !AskedAgain(c, Run(c, init[..n]), init[n]);
        }
      }
    }
    if NeverAskedAgain(c, es) {
      forall n | 0 <= n < m
        ensures !AskedAgain(c, Run(c, init[..n]), init[n])
      {
        assert !AskedAgain(c, Run(c, es[..n]), es[n]);
      }
    }
  }

  // ---- Verdicts ----

  /** All statuses sent for one challenge say the same. */
  ghost predicate Agreed(log: seq<Out>) {
    forall i, j | 0 <= i < |log| && 0 <= j < |log| && log[i].Status? && log[j].Status? && log[i].gen == log[j].gen ::
      log[i].ok == log[j].ok
  }

  /** Every status sent for challenge number g says ok. */
  ghost predicate Said(log: seq<Out>, g: nat, ok: bool) {
    forall i | 0 <= i < |log| && log[i].Status? && log[i].gen == g :: log[i].ok == ok
  }

  /** What the state says about the statuses sent so far. */
  ghost predicate Verdicts(s: Auth) {
    && Known(s.log, s.made)
    && (Challenging(s) ==> Said(s.log, s.made, true) && Said(s.log, s.made, false))
    && (s.ss == Open ==> Said(s.log, s.made, true))
    && (s.ss == BadAuth ==> Said(s.log, s.made, false))
  }

  /** A Response is judged again while the lower layer is down, with the other outcome. */
  ghost predicate Overturns(s: Auth, e: Event) {
    e.DoResponse? && s.ss == Initial && e.id == s.chalId && WellFormed(e.body) && !Said(s.log, s.made, e.ok)
  }

  lemma TellAgreed(log: seq<Out>, o: Out)
    requires Agreed(log)
    ensures Agreed(log + [o]) <==> !o.Status? || Said(log, o.gen, o.ok)
  {
    if Agreed(log + [o]) && o.Status? {
      forall i | 0 <= i < |log| && log[i].Status? && log[i].gen == o.gen
        ensures log[i].ok == o.ok
      {
        assert (log + [o])[i] == log[i] && (log + [o])[|log|] == o;
      }
    }
  }

  lemma TellSaid(log: seq<Out>, o: Out, g: nat, ok: bool)
    ensures Said(log + [o], g, ok) <==> Said(log, g, ok) && (o.Status? && o.gen == g ==> o.ok == ok)
  {
    if Said(log + [o], g, ok) {
      forall i | 0 <= i < |log| && log[i].Status? && log[i].gen == g
        ensures log[i].ok == ok
      {
        assert (log + [o])[i] == log[i];
      }
      assert (log + [o])[|log|] == o;
    }
  }

  /** Statuses only ever belong to challenges already made. */
  ghost predicate Known(log: seq<Out>, made: nat) {
    forall i | 0 <= i < |log| && log[i].Status? :: log[i].gen <= made
  }

  lemma NothingSaid(log: seq<Out>, made: nat, ok: bool)
    requires Known(log, made)
    ensures Said(log, made + 1, ok)
  {
  }

  lemma TellKnown(log: seq<Out>, made: nat, o: Out)
    requires Known(log, made) && (o.Status? ==> o.gen <= made)
    ensures Known(log + [o], made) && Known(log + [o], made + 1)
  {
  }

  /** A message that is no status changes nothing about the verdicts. */
  lemma Aside(log: seq<Out>, made: nat, o: Out)
    requires Agreed(log) && Known(log, made) && !o.Status?
    ensures Agreed(log + [o]) && Known(log + [o], made)
    ensures forall g: nat, ok: bool :: Said(log + [o], g, ok) <==> Said(log, g, ok)
  {
    hide Agreed, Said, Known;
    TellAgreed(log, o);
    TellKnown(log, made, o);
    forall g: nat, ok: bool
      ensures Said(log + [o], g, ok) <==> Said(log, g, ok)
    {
      TellSaid(log, o, g, ok);
    }
  }

  lemma NewVerdicts(s: Auth, value: bytes, ss: ServerState)
    requires Agreed(s.log) && Verdicts(s) && (ss == InitialChal || ss == Rechallenge)
    ensures Agreed(NewChallenge(s, value, ss).log) && Verdicts(NewChallenge(s, value, ss))
  {
    hide Agreed, Said, Known;
    var t := Generate(s, value);
    NothingSaid(s.log, s.made, true);
    NothingSaid(s.log, s.made, false);
    TellKnown(s.log, s.made, Challenge(t.made, t.chalId, t.challenge));
    TellSaid(s.log, Challenge(t.made, t.chalId, t.challenge), t.made, true);
    TellSaid(s.log, Challenge(t.made, t.chalId, t.challenge), t.made, false);
    TellAgreed(s.log, Challenge(t.made, t.chalId, t.challenge));
  }

  /** Another status for the current challenge. */
  lemma ReplyVerdicts(s: Auth, ok: bool)
    requires Agreed(s.log) && Known(s.log, s.made)
    ensures Agreed(Reply(s, ok).log) <==> Said(s.log, s.made, ok)
    ensures Said(s.log, s.made, ok) ==> Said(Reply(s, ok).log, s.made, ok)
    ensures Known(Reply(s, ok).log, s.made)
  {
    hide Agreed, Said, Known;
    var o := Status(s.made, s.chalId, ok);
    TellAgreed(s.log, o);
    TellSaid(s.log, o, s.made, ok);
    TellKnown(s.log, s.made, o);
  }

  /** Taking back the last message cannot make statuses disagree. */
  lemma AgreedShorter(log: seq<Out>, o: Out)
    requires Agreed(log + [o])
    ensures Agreed(log)
  {
    assert forall i | 0 <= i < |log| :: (log + [o])[i] == log[i];
  }

  lemma SettleVerdicts(c: Config, s: Auth, ok: bool)
    requires Agreed(s.log) && Verdicts(s)
    ensures Agreed(Settle(c, s, ok).log) <==> Said(s.log, s.made, ok)
    ensures Said(s.log, s.made, ok) ==> Verdicts(Settle(c, s, ok))
  {
    hide Agreed, Said, Known;
    var t := Reply(s.(chalTimers := 0), ok);
    ReplyVerdicts(s.(chalTimers := 0), ok);
    var o := if ok then PeerPassed else PeerFailed;
    if Said(s.log, s.made, ok) {
      Aside(t.log, t.made, o);
    } else if Agreed(t.log + [o]) {
      AgreedShorter(t.log, o);
    }
  }

  /** One step lets statuses disagree exactly when it overturns a verdict. */
  lemma StepVerdictsIff(c: Config, s: Auth, e: Event)
    requires Agreed(s.log) && Verdicts(s)
    ensures Agreed(Step(c, s, e).log) <==> !Overturns(s, e)
    ensures Verdicts(Step(c, s, e)) || Overturns(s, e)
  {
    hide Agreed, Said, Known, WellFormed;
    match e
    case DoAuthPeer(value) => NewVerdicts(s, value, InitialChal);
    case DoChallengeTimeout =>
      Aside(s.log, s.made, PeerFailed);
      Aside(s.log, s.made, Challenge(s.made, s.chalId, s.challenge));
      if Challenging(s) && s.transmits >= c.maxTransmits {
        assert Said(s.log, s.made, false);
      }
    case DoRechallenge(value) =>
      if s.reTimers > 0 {
        NewVerdicts(s.(reTimers := s.reTimers - 1), value, Rechallenge);
      }
    case DoLowerUp(value) => NewVerdicts(s, value, InitialChal);
    case DoLowerDown => {}
    case DoProtocolReject => Aside(s.log, s.made, PeerFailed);
    case DoResponse(id, body, ok) =>
      ReplyVerdicts(s, s.ss == Open);
      SettleVerdicts(c, s, ok);
  }

  ghost predicate NeverOverturned(c: Config, es: seq<Event>) {
    forall n | 0 <= n < |es| :: !Overturns(Run(c, es[..n]), es[n])
  }

  /** Messages are never taken back. */
  lemma StepLog(c: Config, s: Auth, e: Event)
    ensures s.log <= Step(c, s, e).log
  {
  }

  lemma AgreedPrefix(log: seq<Out>, log': seq<Out>)
    requires log <= log' && Agreed(log')
    ensures Agreed(log)
  {
    assert forall i | 0 <= i < |log| :: log[i] == log'[i];
  }

  /** All statuses for each challenge agree exactly when no verdict is overturned while the lower layer is down. */
  lemma {:induction false} RunVerdictsIff(c: Config, es: seq<Event>)
    ensures Agreed(Run(c, es).log) <==> NeverOverturned(c, es)
    ensures Agreed(Run(c, es).log) ==> Verdicts(Run(c, es))
  {
    hide Agreed, Verdicts, Overturns, Step;
    if es == [] {
      StartAgreed();
    } else {
      var m := |es| - 1;
      var init := es[..m];
      RunVerdictsIff(c, init);
      OverturnedSplit(c, es);
      StepLog(c, Run(c, init), es[m]);
      if Agreed(Run(c, init).log) {
        StepVerdictsIff(c, Run(c, init), es[m]);
      } else if Agreed(Run(c, es).log) {
        AgreedPrefix(Run(c, init).log, Run(c, es).log);
      }
    }
  }

  lemma StartAgreed()
    ensures Agreed(Start().log) && Verdicts(Start())
  {
  }

  lemma OverturnedSplit(c: Config, es: seq<Event>)
    requires es != []
    ensures NeverOverturned(c, es) <==>
              NeverOverturned(c, es[..|es| - 1]) && !Overturns(Run(c, es[..|es| - 1]), es[|es| - 1])
  {
    hide Overturns, Step, Run;
    var m := |es| - 1;
    var init := es[..m];
    assert forall n | 0 <= n <= m :: init[..n] == es[..n];
    if NeverOverturned(c, init) && !Overturns(Run(c, init), es[m]) {
      forall n | 0 <= n < |es|
        ensures !Overturns(Run(c, es[..n]), es[n])
      {
        if n < m {
          assert !Overturns(Run(c, init[..n]), init[n]);
        }
      }
    }
    if NeverOverturned(c, es) {
      forall n | 0 <= n < m
        ensures !Overturns(Run(c, init[..n]), init[n])
      {
        assert !Overturns(Run(c, es[..n]), es[n]);
      }
    }
  }

  lemma RunMore(c: Config, es: seq<Event>, e: Event)
    ensures Run(c, es + [e]) == Step(c, Run(c, es), e)
  {
    assert (es + [e])[..|es|] == es;
  }

  /** The link comes up and the peer is challenged. */
  lemma FirstChallenge(c: Config, value: bytes)
    ensures Run(c, [DoLowerUp([])] + [DoAuthPeer(value)]) == NewChallenge(Start().(ss := Closed), value, InitialChal)
  {
    assert Run(c, []) == Start();
    hide Run;
    RunMore(c, [], DoLowerUp([]));
    assert [] + [DoLowerUp([])] == [DoLowerUp([])];
    RunMore(c, [DoLowerUp([])], DoAuthPeer(value));
  }

  /** Asking again while a challenge is out leaves two challenge timers. */
  lemma AskedAgainExample(c: Config)
    ensures Run(c, [DoLowerUp([])] + [DoAuthPeer([7])] + [DoAuthPeer([9])]).chalTimers == 2
  {
    hide Run;
    FirstChallenge(c, [7]);
    RunMore(c, [DoLowerUp([])] + [DoAuthPeer([7])], DoAuthPeer([9]));
  }

  /** The same challenge gets both verdicts when the link goes down in between. */
  lemma OverturnedExample(c: Config)
    ensures var es := [DoLowerUp([])] + [DoAuthPeer([7])] + [DoResponse(1, [0, 0], true)] + [DoLowerDown] +
                        [DoResponse(1, [0, 0], false)];
            Run(c, es).log == [Challenge(1, 1, [7]), Status(1, 1, true), PeerPassed, Status(1, 1, false), PeerFailed]
  {
    hide Run;
    FirstChallenge(c, [7]);
    var es := [DoLowerUp([])] + [DoAuthPeer([7])];
    RunMore(c, es, DoResponse(1, [0, 0], true));
    RunMore(c, es + [DoResponse(1, [0, 0], true)], DoLowerDown);
    RunMore(c, es + [DoResponse(1, [0, 0], true)] + [DoLowerDown], DoResponse(1, [0, 0], false));
  }

  // ---- The unit ----

  /** The server half of a CHAP unit, updated in place. The log and the number of challenges are kept for
      the proof only. */
  class Server {
    const c: Config
    var ss: ServerState
    var id: byte
    var chalId: byte
    var challenge: bytes
    var transmits: nat
    var chalTimers: nat
    var reTimers: nat
    ghost var made: nat
    ghost var log: seq<Out>

    ghost function View(): Auth
      reads this
    {
      Auth(ss, id, chalId, challenge, transmits, chalTimers, reTimers, made, log)
    }

    constructor (c: Config)
      ensures View() == Start() && this.c == c
    {
      this.c := c;
      ss, id, chalId, challenge, transmits, chalTimers, reTimers := Initial, 0, 0, [], 0, 0, 0;
      made, log := 0, [];
    }

    method GenChallenge(value: bytes)
      modifies this
      ensures View() == Generate(old(View()), value)
    {
      id := (id + 1) % 256;
      chalId := id;
      transmits := 0;
      challenge := value;
      made := made + 1;
    }

    method Transmit()
      modifies this
      ensures View() == SendChallenge(old(View()))
    {
      log := log + [Challenge(made, chalId, challenge)];
      chalTimers := chalTimers + 1;
      transmits := transmits + 1;
    }

    method StartAuth(value: bytes)
      modifies this
      ensures View() == AuthPeer(old(View()), value)
    {
      if ss == Initial || ss == Pending {
        ss := Pending;
        return;
      }
      GenChallenge(value);
      Transmit();
      ss := InitialChal;
    }

    method OnChallengeTimeout()
      requires chalTimers > 0
      modifies this
      ensures View() == ChallengeTimeout(c, old(View()))
    {
      chalTimers := chalTimers - 1;
      if ss != InitialChal && ss != Rechallenge {
        return;
      }
      if transmits >= c.maxTransmits {
        ss := BadAuth;
        log := log + [PeerFailed];
        return;
      }
      Transmit();
    }

    method OnRechallenge(value: bytes)
      requires reTimers > 0
      modifies this
      ensures View() == RechallengeTimeout(old(View()), value)
    {
      reTimers := reTimers - 1;
      if ss != Open {
        return;
      }
      GenChallenge(value);
      Transmit();
      ss := Rechallenge;
    }

    method OnLowerUp(value: bytes)
      modifies this
      ensures View() == LowerUp(old(View()), value)
    {
      if ss == Initial {
        ss := Closed;
      } else if ss == Pending {
        GenChallenge(value);
        Transmit();
        ss := InitialChal;
      }
    }

    method OnLowerDown()
      modifies this
      ensures View() == LowerDown(c, old(View()))
    {
      if ss == InitialChal || ss == Rechallenge {
        chalTimers := 0;
      } else if ss == Open && c.interval != 0 {
        reTimers := 0;
      }
      ss := Initial;
    }

    method OnProtocolReject()
      modifies this
      ensures View() == ProtocolReject(c, old(View()))
    {
      if ss != Initial && ss != Closed {
        log := log + [PeerFailed];
      }
      OnLowerDown();
    }

    method OnResponse(rid: byte, body: bytes, ok: bool)
      modifies this
      ensures View() == ReceiveResponse(c, old(View()), rid, body, ok)
    {
      if ss == Closed || ss == Pending || rid != chalId {
        return;
      }
      if ss == Open {
        log := log + [Status(made, chalId, true)];
        return;
      }
      if ss == BadAuth {
        log := log + [Status(made, chalId, false)];
        return;
      }
      if |body| < 2 {
        return;
      }
      var mdLen: int := body[0];
      if |body| - (1 + mdLen) < 0 {
        return;
      }
      chalTimers := 0;
      log := log + [Status(made, chalId, ok)];
      if ok {
        var was := ss;
        ss := Open;
        if was == InitialChal {
          log := log + [PeerPassed];
        }
        if c.interval != 0 {
          reTimers := reTimers + 1;
        }
      } else {
        ss := BadAuth;
        log := log + [PeerFailed];
      }
    }

    /** Handle one event; a timer goes off only while it is pending. */
    method Handle(e: Event)
      modifies this
      ensures View() == Step(c, old(View()), e)
    {
      match e
      case DoAuthPeer(value) => StartAuth(value);
      case DoChallengeTimeout =>
        if chalTimers > 0 {
          OnChallengeTimeout();
        }
      case DoRechallenge(value) =>
        if reTimers > 0 {
          OnRechallenge(value);
        }
      case DoLowerUp(value) => OnLowerUp(value);
      case DoLowerDown => OnLowerDown();
      case DoProtocolReject => OnProtocolReject();
      case DoResponse(rid, body, ok) => OnResponse(rid, body, ok);
    }

    /** A new unit taken through any events: no challenge has gone out more than max(1, max_transmits) times;
        the timers were right throughout exactly if nobody asked again while one was pending; and all statuses
        for each challenge agree exactly if no verdict was overturned while the lower layer was down. */
    method Drive(es: seq<Event>) returns (ghost states: seq<Auth>)
      requires View() == Start()
      modifies this
      ensures |states| == |es| + 1 && View() == states[|es|]
      ensures forall k | 0 <= k <= |es| :: states[k] == Run(c, es[..k])
      ensures forall g: nat :: Sends(log, g) <= Most(c)
      ensures (forall k | 0 <= k <= |es| :: TimersRight(c, states[k])) <==> NeverAskedAgain(c, es)
      ensures Agreed(log) <==> NeverOverturned(c, es)
    {
      hide Step, Sends, TimersRight, NeverAskedAgain, NeverOverturned, Agreed, Bounded, Verdicts;
      states := [View()];
      assert es[..0] == [];
      var i := 0;
      while i < |es|
        invariant 0 <= i <= |es| && |states| == i + 1 && View() == states[i]
        invariant forall k | 0 <= k <= i :: states[k] == Run(c, es[..k])
      {
        assert es[..i + 1][..i] == es[..i];
        Handle(es[i]);
        states := states + [View()];
        i := i + 1;
      }
      assert es[..i] == es;
      forall g: nat
        ensures Sends(log, g) <= Most(c)
      {
        RunTransmits(c, es, g);
      }
      RunTimersIff(c, es);
      RunVerdictsIff(c, es);
    }
  }
}
