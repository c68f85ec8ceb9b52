/** What the CHAP authenticator says and when: each event's outputs and next state, the answer to every Response,
    and over runs that every Response taken is answered once and that nobody is let in without a good one. */
module ChapAnswers {
  import opened Wire
  import opened Chap

  // ---- Each event ----

  /** What there is to say: a new challenge, the current one again, a verdict on it, and the two things the link is
      told. */
  datatype Act = Fresh(value: bytes) | Again | Verdict(ok: bool) | Passed | Failed

  /** The number and the id a challenge has, and what it asks. */
  function Spoken(s: Auth, a: Act): Out {
    match a
    case Fresh(value) => Challenge(s.made + 1, (s.id + 1) % 256, value)
    case Again => Challenge(s.made, s.chalId, s.challenge)
    case Verdict(ok) => Status(s.made, s.chalId, ok)
    case Passed => PeerPassed
    case Failed => PeerFailed
  }

  function AllSpoken(s: Auth, acts: seq<Act>): seq<Out> {
    seq(|acts|, i requires 0 <= i < |acts| => Spoken(s, acts[i]))
  }

  datatype Entry = Entry(next: ServerState, acts: seq<Act>)

  /** A Response that is taken: it answers the last challenge, and either that was settled, or it is well formed and
      nothing has been asked since. */
  predicate Taken(s: Auth, id: byte, body: bytes) {
    && id == s.chalId && s.ss != Closed && s.ss != Pending
    && (s.ss == Open || s.ss == BadAuth || WellFormed(body))
  }

  /** State by state what each event leads to. */
  function Table(c: Config, s: Auth, e: Event): Entry {
    match e
    case DoAuthPeer(value) =>
      (match s.ss
       case Initial => Entry(Pending, [])
       case Pending => Entry(Pending, [])
       case _ => Entry(InitialChal, [Fresh(value)]))
    case DoLowerUp(value) =>
      (match s.ss
       case Initial => Entry(Closed, [])
       case Pending => Entry(InitialChal, [Fresh(value)])
       case ss => Entry(ss, []))
    case DoLowerDown => Entry(Initial, [])
    case DoProtocolReject =>
      (match s.ss
       case Initial => Entry(Initial, [])
       case Closed => Entry(Initial, [])
       case _ => Entry(Initial, [Failed]))
    case DoRechallenge(value) =>
      if s.ss == Open && s.reTimers > 0 then Entry(Rechallenge, [Fresh(value)]) else Entry(s.ss, [])
    case DoChallengeTimeout =>
      if !Challenging(s) || s.chalTimers == 0 then Entry(s.ss, [])
      else if s.transmits < c.maxTransmits then Entry(s.ss, [Again])
      else Entry(BadAuth, [Failed])
    case DoResponse(id, body, ok) =>
      if !Taken(s, id, body) then Entry(s.ss, [])
      else
        match s.ss
        case Open => Entry(Open, [Verdict(true)])
        case BadAuth => Entry(BadAuth, [Verdict(false)])
        case InitialChal =>
          if ok then Entry(Open, [Verdict(true), Passed]) else Entry(BadAuth, [Verdict(false), Failed])
        case _ => if ok then Entry(Open, [Verdict(true)]) else Entry(BadAuth, [Verdict(false), Failed])
  }

  /** Every step is its entry: the next state and everything said, in order, and nothing else. */
  lemma StepFollows(c: Config, s: Auth, e: Event)
    ensures var t := Step(c, s, e);
            t.ss == Table(c, s, e).next && t.log == s.log + AllSpoken(s, Table(c, s, e).acts)
  {
    hide WellFormed;
    var acts := Table(c, s, e).acts;
    if |acts| == 0 {
      assert AllSpoken(s, acts) == [];
    } else if |acts| == 1 {
      assert AllSpoken(s, acts) == [Spoken(s, acts[0])];
    } else {
      assert AllSpoken(s, acts) == [Spoken(s, acts[0])] + [Spoken(s, acts[1])];
    }
  }

  /** A Response to a challenge already settled gets the same verdict again, and changes nothing else; one that is not
      taken changes nothing at all. */
  lemma RepeatAnswered(c: Config, s: Auth, id: byte, body: bytes, ok: bool)
    ensures var t := Step(c, s, DoResponse(id, body, ok));
            && (!Taken(s, id, body) ==> t == s)
            && (id == s.chalId && (s.ss == Open || s.ss == BadAuth) ==>
                  t == s.(log := s.log + [Status(s.made, s.chalId, s.ss == Open)]))
  {
  }

  // ---- Over runs ----

  /** How many verdicts on challenge number g were given. */
  function Verdicts(log: seq<Out>, g: nat): nat {
    if log == [] then 0
    else
      var o := log[|log| - 1];
      Verdicts(log[..|log| - 1], g) + if o.Status? && o.gen == g then 1 else 0
  }

  predicate TakenNow(s: Auth, e: Event) {
    e.DoResponse? && Taken(s, e.id, e.body)
  }

  /** How many Responses to challenge number g were taken. */
  function Responses(c: Config, es: seq<Event>, g: nat): nat {
    if es == [] then 0
    else
      var n := |es| - 1;
      var s := Run(c, es[..n]);
      Responses(c, es[..n], g) + if TakenNow(s, es[n]) && s.made == g then 1 else 0
  }

  lemma VerdictsMore(log: seq<Out>, o: Out, g: nat)
    ensures Verdicts(log + [o], g) == Verdicts(log, g) + if o.Status? && o.gen == g then 1 else 0
  {
    assert (log + [o])[..|log|] == log;
  }

  lemma StepVerdicts(c: Config, s: Auth, e: Event, g: nat)
    ensures Verdicts(Step(c, s, e).log, g) == Verdicts(s.log, g) + if TakenNow(s, e) && s.made == g then 1 else 0
  {
    hide Verdicts, Step, WellFormed;
    StepFollows(c, s, e);
    var acts := Table(c, s, e).acts;
    if |acts| == 0 {
      assert s.log + AllSpoken(s, acts) == s.log;
    } else if |acts| == 1 {
      assert AllSpoken(s, acts) == [Spoken(s, acts[0])];
      VerdictsMore(s.log, Spoken(s, acts[0]), g);
    } else {
      assert s.log + AllSpoken(s, acts) == s.log + [Spoken(s, acts[0])] + [Spoken(s, acts[1])];
      VerdictsMore(s.log, Spoken(s, acts[0]), g);
      VerdictsMore(s.log + [Spoken(s, acts[0])], Spoken(s, acts[1]), g);
    }
  }

  /** On every run the verdicts given on a challenge are as many as the Responses to it that were taken. */
  lemma {:induction false} RunVerdicts(c: Config, es: seq<Event>, g: nat)
    ensures Verdicts(Run(c, es).log, g) == Responses(c, es, g)
  {
    hide Step, Taken;
    if es != [] {
      RunVerdicts(c, es[..|es| - 1], g);
      StepVerdicts(c, Run(c, es[..|es| - 1]), es[|es| - 1], g);
    }
  }

  /** A Response to the challenge that is then the last one was taken and its digest was right. */
  predicate ProvenAt(c: Config, es: seq<Event>, k: nat)
    requires k < |es|
  {
    var s := Run(c, es[..k]);
    TakenNow(s, es[k]) && es[k].ok && s.ss != BadAuth && s.ss != Open && s.made == Run(c, es).made
  }

  lemma StepOpens(c: Config, s: Auth, e: Event)
    requires Step(c, s, e).ss == Open
    ensures Step(c, s, e).made == s.made
    ensures s.ss != Open ==> TakenNow(s, e) && e.ok && s.ss != BadAuth
  {
    hide WellFormed;
  }

  /** On every run, whenever the peer is let in, it has given a good Response to the last challenge. */
  lemma {:induction false} OpenMeansProven(c: Config, es: seq<Event>)
    requires Run(c, es).ss == Open
    ensures exists k: nat | k < |es| :: ProvenAt(c, es, k)
  {
    hide Step, TakenNow;
    if es != [] {
      var n := |es| - 1;
      var s := Run(c, es[..n]);
      StepOpens(c, s, es[n]);
      if s.ss == Open {
        OpenMeansProven(c, es[..n]);
        var k: nat :| k < n && ProvenAt(c, es[..n], k);
        assert es[..n][..k] == es[..k];
        assert ProvenAt(c, es, k);
      } else {
        assert ProvenAt(c, es, n);
      }
    }
  }
}
