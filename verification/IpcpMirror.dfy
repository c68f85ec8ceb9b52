/** What an accepted IPCP request means: the peer that Acks our request has recorded exactly the addresses and
    the compression we asked for. */
module IpcpMirror {
  import opened Wire
  import opened IpcpOptions
  import opened IpcpRequest
  import M = LcpMirror
  import L = LcpOptions
  import R = LcpRequest
  import F = Fsm

  /** The record of a peer that asked for some options. Its own address becomes the address of the other side,
      and the older address form names ours too; the older compression form stands for sixteen slots with the
      connection id compressed; name servers leave no record. */
  function Mirror(o: Options): Options {
    var oldForm := OldAddrs in o.neg && NegAddr !in o.neg;
    var short := NegVj in o.neg && OldVj in o.neg;
    NoOptions.(
    neg := (if NegAddr in o.neg then {NegAddr} else {}) + (if oldForm then {OldAddrs} else {})
           + (if NegVj in o.neg then {NegVj} else {}) + (if short then {OldVj} else {}),
    hisaddr := if NegAddr in o.neg || oldForm then o.ouraddr else 0,
    ouraddr := if oldForm then o.hisaddr else 0,
    vjProtocol := if NegVj in o.neg then o.vjProtocol else 0,
    maxSlot := if short then MAX_STATES - 1 else if NegVj in o.neg then o.maxSlot else 0,
    cflag := if short then 1 else if NegVj in o.neg then o.cflag else 0)
  }

  /** Accepting the option in slot k records its flags and its values, and nothing else. */
  function RecordSlot(o: Options, ho: Options, k: nat): Options {
    if CiOf(o, k) == [] then ho
    else
      match k
      case 0 => Recorded(ho.(hisaddr := o.ouraddr, ouraddr := o.hisaddr), OldAddrs)
      case 1 =>
        var vj := Recorded(ho.(vjProtocol := o.vjProtocol), NegVj);
        if OldVj in o.neg then Recorded(vj.(maxSlot := MAX_STATES - 1, cflag := 1), OldVj)
        else vj.(maxSlot := o.maxSlot, cflag := o.cflag)
      case 2 => Recorded(ho.(hisaddr := o.ouraddr), NegAddr)
      case _ => ho
  }

  function RecordTo(o: Options, k: nat): Options {
    if k == 0 then NoOptions else RecordSlot(o, RecordTo(o, k - 1), k - 1)
  }

  lemma SlotSent(o: Options)
    ensures CiOf(o, 0) == [] <==> !(OldAddrs in o.neg && NegAddr !in o.neg)
    ensures (CiOf(o, 1) == [] <==> NegVj !in o.neg) && (CiOf(o, 2) == [] <==> NegAddr !in o.neg)
  {
    hide PutLong, PutShort;
  }

  lemma RecordIsMirror(o: Options)
    ensures RecordTo(o, SLOTS) == Mirror(o)
  {
    hide CiOf;
    SlotSent(o);
    var r0, r1, r2, r3 := RecordTo(o, 0), RecordTo(o, 1), RecordTo(o, 2), RecordTo(o, 3);
    assert r1 == RecordSlot(o, r0, 0) && r2 == RecordSlot(o, r1, 1) && r3 == RecordSlot(o, r2, 2);
    assert RecordTo(o, 4) == r3;
    assert RecordTo(o, 5) == r3;
    assert RecordTo(o, 6) == r3;
    assert r3 == Mirror(o);
  }

  /** What accepting one option of a request records. */
  lemma AcceptedSlot(ao: Options, s: Known, o: Options, k: nat, tough: bool)
    requires k < SLOTS && CiOf(o, k) != []
    requires RulingOn(ao, s, R.Piece(CiOf(o, k), true), tough).code == F.CONFACK
    ensures JudgePiece(ao, s, R.Piece(CiOf(o, k), true), tough).known.ho == RecordSlot(o, s.ho, k)
  {
    hide PutLong, PutShort, GetLong, GetShort;
    var c := CiOf(o, k);
    match k
    case 0 =>
      assert c[2..6] == PutLong(o.ouraddr) && c[6..10] == PutLong(o.hisaddr);
      LongRoundTrip(o.ouraddr, PutLong(o.ouraddr));
      LongRoundTrip(o.hisaddr, PutLong(o.hisaddr));
    case 1 =>
      assert c[2..4] == PutShort(o.vjProtocol);
      ShortRoundTrip(o.vjProtocol, PutShort(o.vjProtocol));
    case 2 =>
      assert c[2..6] == PutLong(o.ouraddr);
      LongRoundTrip(o.ouraddr, PutLong(o.ouraddr));
    case _ =>
  }

  function Slots(o: Options): (r: seq<bytes>)
    ensures |r| == SLOTS && forall k | 0 <= k < SLOTS :: r[k] == CiOf(o, k)
  {
    [CiOf(o, 0), CiOf(o, 1), CiOf(o, 2), CiOf(o, 3), CiOf(o, 4), CiOf(o, 5), CiOf(o, 6)]
  }

  lemma {:induction false} SlotsJoined(o: Options, k: nat)
    requires k <= SLOTS
    ensures Flatten(Slots(o)[..k]) == FullTo(o, k)
  {
    hide CiOf, Flatten, Slots;
    if k == 0 {
      assert Slots(o)[..0] == [];
      NothingJoined();
    } else {
      SlotsJoined(o, k - 1);
      assert Slots(o)[..k] == Slots(o)[..k - 1] + [CiOf(o, k - 1)];
      FlattenSnoc(Slots(o)[..k - 1], CiOf(o, k - 1));
    }
  }

  lemma NothingJoined()
    ensures Flatten([]) == []
  {
  }

  lemma SlotFormed(o: Options, k: nat)
    requires k < SLOTS
    ensures M.Formed(CiOf(o, k))
  {
    hide L.Ci, M.Formed, PutLong, PutShort;
    match k
    case 0 =>
      M.CiFormed(NegAddr !in o.neg && OldAddrs in o.neg, CI_ADDRS, PutLong(o.ouraddr) + PutLong(o.hisaddr));
    case 1 => M.CiFormed(NegVj in o.neg, CI_COMPRESSTYPE, VjBody(o));
    case 2 => M.CiFormed(NegAddr in o.neg, CI_ADDR, PutLong(o.ouraddr));
    case 3 => M.CiFormed(ReqDns1 in o.neg, CI_MS_DNS1, PutLong(o.dns1));
    case 4 => M.CiFormed(ReqDns2 in o.neg, CI_MS_DNS2, PutLong(o.dns2));
    case 5 => M.CiFormed(ReqWins1 in o.neg, CI_MS_WINS1, PutLong(o.wins1));
    case _ => M.CiFormed(ReqWins2 in o.neg, CI_MS_WINS2, PutLong(o.wins2));
  }

  /** A request is cut apart again into the options it was made of. */
  lemma PiecesOfFull(o: Options)
    ensures R.Pieces(Full(o)) == M.Whole(Slots(o))
  {
    hide CiOf, Flatten, R.Pieces, M.Whole, Slots, FullTo;
    forall k | 0 <= k < SLOTS
      ensures var c := Slots(o)[k]; c == [] || (|c| >= 2 && c[1] as int == |c|)
    {
      SlotFormed(o, k);
    }
    M.PiecesOfFlatten(Slots(o));
    SlotsJoined(o, SLOTS);
    assert Slots(o)[..SLOTS] == Slots(o);
  }

  lemma {:induction false} AcceptedTo(ao: Options, wo: Options, o: Options, k: nat, tough: bool)
    requires k <= SLOTS
    requires Worst(Rulings(ao, Known(wo, NoOptions), M.Whole(Slots(o)[..k]), tough)) == F.CONFACK
    ensures KnownAfter(ao, Known(wo, NoOptions), M.Whole(Slots(o)[..k]), tough).ho == RecordTo(o, k)
  {
    hide CiOf, Slots, JudgePiece, RecordSlot, Toughened;
    var s := Known(wo, NoOptions);
    if k > 0 {
      var cs, n := Slots(o)[..k], k - 1;
      assert cs[..n] == Slots(o)[..n];
      var xs, c := M.Whole(cs[..n]), CiOf(o, n);
      if c == [] {
        assert M.Whole(cs) == xs + [] == xs;
        AcceptedTo(ao, wo, o, n, tough);
        NoRecord(o, RecordTo(o, n), n);
      } else {
        var all := xs + [R.Piece(c, true)];
        assert M.Whole(cs) == all && all[..|xs|] == xs;
        var rs := Rulings(ao, s, all, tough);
        WorstIs(rs);
        assert rs[..|xs|] == Rulings(ao, s, xs, tough);
        RulingCodes(ao, KnownAfter(ao, s, xs, tough), R.Piece(c, true), tough);
        assert rs[|xs|] == RulingOn(ao, KnownAfter(ao, s, xs, tough), R.Piece(c, true), tough);
        WorstIs(rs[..|xs|]);
        AcceptedTo(ao, wo, o, n, tough);
        AcceptedSlot(ao, KnownAfter(ao, s, xs, tough), o, n, tough);
      }
    }
  }

  lemma NoRecord(o: Options, ho: Options, k: nat)
    requires CiOf(o, k) == []
    ensures RecordSlot(o, ho, k) == ho
  {
  }

  /** If a peer Acks the request our options produce, its record of us is the mirror of those options: exactly
      the addresses and the compression asked for, value for value. */
  lemma AckMirrors(ao: Options, wo: Options, o: Options, tough: bool)
    requires ReqCi(ao, wo, Full(o), tough).code == F.CONFACK
    ensures ReqCi(ao, wo, Full(o), tough).known.ho == Mirror(o)
  {
    hide CiOf, Slots, Full, Mirror, RecordTo, Rulings, Worst, Part, KnownAfter, R.Pieces, M.Whole;
    PiecesOfFull(o);
    assert Slots(o)[..SLOTS] == Slots(o);
    AcceptedTo(ao, wo, o, SLOTS, tough);
    RecordIsMirror(o);
  }
}
