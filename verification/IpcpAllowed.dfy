/** Which options of a peer IPCP accepts, which it counters and with what, and which it refuses; and that a peer that
    takes up what a Nak suggests is Acked. */
module IpcpAllowed {
  import opened Wire
  import opened IpcpOptions
  import opened IpcpRequest
  import M = LcpMirror
  import R = LcpRequest
  import F = Fsm

  // ---- One option ----

  /** The address an address option names for the peer, and the one an old one names for us. */
  function Theirs(opt: bytes): nat
    requires |opt| >= CILEN_ADDR
  {
    GetLong(opt[2..6])
  }

  function Ours(opt: bytes): nat
    requires |opt| >= CILEN_ADDRS
  {
    GetLong(opt[6..10])
  }

  predicate Server(t: byte) {
    t == CI_MS_DNS1 || t == CI_MS_DNS2 || t == CI_MS_WINS1 || t == CI_MS_WINS2
  }

  /** An option there can be talk about: allowed, well formed, not on top of the other form of address, and for an
      address not unknown to both sides. */
  predicate Negotiable(ao: Options, s: Known, opt: bytes) {
    && |opt| >= 2
    && var t := opt[0];
    if t == CI_ADDRS then
      |opt| == 10 && OldAddrs in ao.neg && NegAddr !in s.ho.neg && (Theirs(opt) != 0 || s.wo.hisaddr != 0)
    else if t == CI_ADDR then
      |opt| == 6 && NegAddr in ao.neg && OldAddrs !in s.ho.neg && (Theirs(opt) != 0 || s.wo.hisaddr != 0)
    else if Server(t) then |opt| == 6 && ServerAddr(ao, t) != 0
    else
      && t == CI_COMPRESSTYPE && NegVj in ao.neg
      && ((|opt| == 6 && GetShort(opt[2..4]) == VJ_COMP as int)
          || (|opt| == 4 && (GetShort(opt[2..4]) == VJ_COMP as int || GetShort(opt[2..4]) == VJ_COMP_OLD as int)))
  }

  /** An address we want, or leave to the one who names it: not zero, and accepted. */
  predicate Welcome(addr: nat, wanted: nat, accepted: bool) {
    addr == wanted || (addr != 0 && accepted)
  }

  /** The value is one we can live with. */
  predicate Suits(ao: Options, wo: Options, opt: bytes)
    requires |opt| >= 2 && (opt[0] == CI_ADDRS ==> |opt| >= 10) && (opt[0] == CI_ADDR || Server(opt[0]) ==> |opt| >= 6)
  {
    var t := opt[0];
    if t == CI_ADDRS then
      && Welcome(Theirs(opt), wo.hisaddr, AcceptRemote in wo.neg)
      && Welcome(Ours(opt), wo.ouraddr, AcceptLocal in wo.neg)
    else if t == CI_ADDR then Welcome(Theirs(opt), wo.hisaddr, AcceptRemote in wo.neg)
    else if Server(t) then Theirs(opt) == ServerAddr(ao, t)
    else |opt| == 6 ==> opt[4] <= ao.maxSlot && (opt[5] == 0 || ao.cflag != 0)
  }

  lemma NegotiableSized(ao: Options, s: Known, opt: bytes)
    requires Negotiable(ao, s, opt)
    ensures |opt| >= 2 && (opt[0] == CI_ADDRS ==> |opt| == 10) && (opt[0] == CI_ADDR || Server(opt[0]) ==> |opt| == 6)
    ensures opt[0] == CI_COMPRESSTYPE ==> |opt| == 4 || |opt| == 6
    ensures opt[0] == CI_ADDRS || opt[0] == CI_ADDR || Server(opt[0]) || opt[0] == CI_COMPRESSTYPE
  {
    hide GetLong, GetShort;
  }

  /** An option is refused exactly if there can be no talk about it, accepted exactly if there can be and its value
      suits, and countered otherwise. */
  lemma CodeIff(ao: Options, s: Known, opt: bytes, tough: bool)
    requires |opt| >= 2
    ensures var code := JudgeOption(ao, s, opt, tough).code;
            && (code == F.CONFREJ <==> !Negotiable(ao, s, opt))
            && (code == F.CONFACK <==> Negotiable(ao, s, opt) && Suits(ao, s.wo, opt))
  {
    hide GetLong, GetShort, PutLong;
  }

  /** What a counter-offer says: our idea of the peer's address, and of ours, where the one named is not welcome; the
      name server we know; as many slots as we have, and no compressed connection id. */
  predicate CounterSays(ao: Options, wo: Options, opt: bytes, nak: bytes)
    requires |opt| >= 2 && (opt[0] == CI_ADDRS ==> |opt| == 10) && (opt[0] == CI_ADDR || Server(opt[0]) ==> |opt| == 6)
    requires opt[0] == CI_COMPRESSTYPE ==> |opt| == 4 || |opt| == 6
  {
    && |nak| == |opt| && nak[..2] == opt[..2]
    && var t := opt[0];
    if t == CI_ADDRS then
      && Theirs(nak) == (if Welcome(Theirs(opt), wo.hisaddr, AcceptRemote in wo.neg) then Theirs(opt) else wo.hisaddr)
      && Ours(nak) == (if Welcome(Ours(opt), wo.ouraddr, AcceptLocal in wo.neg) then Ours(opt) else wo.ouraddr)
    else if t == CI_ADDR then Theirs(nak) == wo.hisaddr as int
    else if Server(t) then Theirs(nak) == ServerAddr(ao, t)
    else
      t == CI_COMPRESSTYPE && |opt| == 6 ==>
        && nak[2..4] == opt[2..4]
        && nak[4] == (if opt[4] <= ao.maxSlot then opt[4] else ao.maxSlot)
        && nak[5] == (if opt[5] == 0 || ao.cflag != 0 then opt[5] else wo.cflag)
  }

  lemma AddrsCounter(ao: Options, s: Known, opt: bytes)
    requires |opt| == 10 && opt[0] == CI_ADDRS && JudgeOption(ao, s, opt, false).code == F.CONFNAK
    ensures CounterSays(ao, s.wo, opt, JudgeOption(ao, s, opt, false).octets)
  {
    hide GetLong, PutLong;
    var nak := JudgeOption(ao, s, opt, false).octets;
    var first := if Contradicts(s.wo, Theirs(opt)) then PutLong(s.wo.hisaddr) else opt[2..6];
    assert |first| == 4 && nak[2..6] == first;
    LongRoundTrip(s.wo.hisaddr, PutLong(s.wo.hisaddr));
    LongRoundTrip(s.wo.ouraddr, PutLong(s.wo.ouraddr));
    var nakOurs := Ours(opt) != s.wo.ouraddr && (Ours(opt) == 0 || AcceptLocal !in s.wo.neg);
    assert nak[6..10] == if nakOurs then PutLong(s.wo.ouraddr) else opt[6..10];
    assert nak[..2] == opt[..2];
  }

  lemma OtherCounter(ao: Options, s: Known, opt: bytes)
    requires Negotiable(ao, s, opt) && opt[0] != CI_ADDRS && JudgeOption(ao, s, opt, false).code == F.CONFNAK
    ensures |opt| >= 2 && (opt[0] == CI_ADDR || Server(opt[0]) ==> |opt| == 6)
    ensures opt[0] == CI_COMPRESSTYPE ==> |opt| == 4 || |opt| == 6
    ensures CounterSays(ao, s.wo, opt, JudgeOption(ao, s, opt, false).octets)
  {
    hide GetLong, PutLong, GetShort;
    var nak := JudgeOption(ao, s, opt, false).octets;
    if opt[0] == CI_ADDR {
      LongRoundTrip(s.wo.hisaddr, PutLong(s.wo.hisaddr));
      assert nak[2..6] == PutLong(s.wo.hisaddr);
    } else if Server(opt[0]) {
      var a := ServerAddr(ao, opt[0]);
      LongRoundTrip(a, PutLong(a));
      assert nak[2..6] == PutLong(a);
    }
    assert nak[..2] == opt[..2];
  }

  /** What makes a counter-offer one this side would accept: the address to suggest for an unwelcome one is known, and
      the connection id to suggest is not one it refuses. */
  predicate Offerable(ao: Options, wo: Options, opt: bytes)
    requires |opt| >= 2 && (opt[0] == CI_ADDRS ==> |opt| == 10) && (opt[0] == CI_ADDR || Server(opt[0]) ==> |opt| == 6)
    requires opt[0] == CI_COMPRESSTYPE ==> |opt| == 4 || |opt| == 6
  {
    && (opt[0] == CI_ADDR || opt[0] == CI_ADDRS ==>
          Welcome(Theirs(opt), wo.hisaddr, AcceptRemote in wo.neg) || wo.hisaddr != 0)
    && (opt[0] == CI_COMPRESSTYPE && |opt| == 6 && opt[5] != 0 && ao.cflag == 0 ==> wo.cflag == 0)
  }

  /** Every counter-offer says that, and sent back alone it is accepted, if and only if it is offerable. */
  lemma CounterIff(ao: Options, s: Known, opt: bytes)
    requires |opt| >= 2 && JudgeOption(ao, s, opt, false).code == F.CONFNAK
    ensures Negotiable(ao, s, opt)
    ensures (opt[0] == CI_ADDRS ==> |opt| == 10) && (opt[0] == CI_ADDR || Server(opt[0]) ==> |opt| == 6)
    ensures opt[0] == CI_COMPRESSTYPE ==> |opt| == 4 || |opt| == 6
    ensures CounterSays(ao, s.wo, opt, JudgeOption(ao, s, opt, false).octets)
    ensures JudgeOption(ao, Known(s.wo, NoOptions), JudgeOption(ao, s, opt, false).octets, false).code == F.CONFACK <==>
              Offerable(ao, s.wo, opt)
  {
    hide JudgeOption, CounterSays, Offerable, Negotiable;
    CodeIff(ao, s, opt, false);
    NegotiableSized(ao, s, opt);
    var nak := JudgeOption(ao, s, opt, false).octets;
    if opt[0] == CI_ADDRS {
      AddrsCounter(ao, s, opt);
    } else {
      OtherCounter(ao, s, opt);
    }
    CounterSized(ao, s.wo, opt, nak);
    CounterKeeps(ao, s.wo, opt, nak);
    CounterSuits(ao, s, Known(s.wo, NoOptions), opt, nak);
    CodeIff(ao, Known(s.wo, NoOptions), nak, false);
  }

  lemma CounterKeeps(ao: Options, wo: Options, opt: bytes, nak: bytes)
    requires |opt| >= 2 && (opt[0] == CI_ADDRS ==> |opt| == 10) && (opt[0] == CI_ADDR || Server(opt[0]) ==> |opt| == 6)
    requires opt[0] == CI_COMPRESSTYPE ==> |opt| == 4 || |opt| == 6
    requires CounterSays(ao, wo, opt, nak) && |nak| == |opt| && nak[0] == opt[0]
    ensures Keeps(wo, nak)
  {
    hide GetLong, GetShort;
  }

  lemma CounterSized(ao: Options, wo: Options, opt: bytes, nak: bytes)
    requires |opt| >= 2 && (opt[0] == CI_ADDRS ==> |opt| == 10) && (opt[0] == CI_ADDR || Server(opt[0]) ==> |opt| == 6)
    requires opt[0] == CI_COMPRESSTYPE ==> |opt| == 4 || |opt| == 6
    requires CounterSays(ao, wo, opt, nak)
    ensures |nak| == |opt| && nak[0] == opt[0] && nak[1] == opt[1]
  {
    hide GetLong, GetShort;
    assert nak[0] == nak[..2][0] && nak[1] == nak[..2][1] && opt[0] == opt[..2][0] && opt[1] == opt[..2][1];
  }

  /** A later state of the judgement, or one of a second pass: wishes differ at most in our own address, and only if
      that is left to the peer; and no more is recorded. */
  predicate Related(s: Known, t: Known) {
    && t.wo.hisaddr == s.wo.hisaddr && t.wo.cflag == s.wo.cflag && t.ho.neg <= s.ho.neg
    && (AcceptRemote in t.wo.neg <==> AcceptRemote in s.wo.neg)
    && (AcceptLocal in t.wo.neg <==> AcceptLocal in s.wo.neg)
    && (AcceptLocal !in s.wo.neg ==> t.wo.ouraddr == s.wo.ouraddr)
  }

  /** An old address option does not take back an address we have. */
  predicate Keeps(wo: Options, opt: bytes) {
    |opt| == CILEN_ADDRS && opt[0] == CI_ADDRS ==> Ours(opt) != 0 || wo.ouraddr == 0
  }

  lemma CounterSuits(ao: Options, s: Known, t: Known, opt: bytes, nak: bytes)
    requires Negotiable(ao, s, opt) && !Suits(ao, s.wo, opt) && Related(s, t)
    requires (opt[0] == CI_ADDRS ==> |opt| == 10) && (opt[0] == CI_ADDR || Server(opt[0]) ==> |opt| == 6)
    requires opt[0] == CI_COMPRESSTYPE ==> |opt| == 4 || |opt| == 6
    requires CounterSays(ao, s.wo, opt, nak) && |nak| == |opt| && nak[0] == opt[0]
    ensures Negotiable(ao, t, nak) && Suits(ao, t.wo, nak) <==> Offerable(ao, s.wo, opt) && Keeps(t.wo, nak)
  {
    hide GetLong, GetShort;
  }

  /** Compression with the connection id compressed, which we do not allow but want ourselves, is Nak'd with the very
      option that was asked for. */
  lemma VjCounterExample()
    ensures var ao, wo := NoOptions.(neg := {NegVj}, maxSlot := 15), NoOptions.(cflag := 1);
            var j := JudgeOption(ao, Known(wo, NoOptions), [2, 6, 0, 0x2d, 15, 1], false);
            j.code == F.CONFNAK && j.octets == [2, 6, 0, 0x2d, 15, 1] && !Offerable(ao, wo, [2, 6, 0, 0x2d, 15, 1])
  {
    var opt: bytes := [2, 6, 0, 0x2d, 15, 1];
    assert opt[2..4] == [0, 0x2d] && opt[..4] == [2, 6, 0, 0x2d];
  }

  // ---- Taking up what a Nak suggests ----

  /** What is sent next by a peer that puts the counter-offers in the place of the options they answer; with only those
      for `all` false, which is what the Nak itself carries. */
  function Amended(xs: seq<R.Piece>, rs: seq<Ruling>, all: bool): seq<R.Piece>
    requires |xs| == |rs|
  {
    if xs == [] then []
    else
      var n := |xs| - 1;
      Amended(xs[..n], rs[..n], all) +
      (if rs[n].code == F.CONFNAK then [R.Piece(rs[n].octets, true)] else if all then [xs[n]] else [])
  }

  /** What judging a piece leaves of our wishes. */
  lemma JudgeWishes(ao: Options, s: Known, x: R.Piece, tough: bool)
    ensures var t := JudgePiece(ao, s, x, tough).known;
            && t.wo.hisaddr == s.wo.hisaddr && t.wo.cflag == s.wo.cflag
            && (AcceptRemote in t.wo.neg <==> AcceptRemote in s.wo.neg)
            && (AcceptLocal in t.wo.neg <==> AcceptLocal in s.wo.neg)
            && (AcceptLocal !in s.wo.neg ==> t.wo.ouraddr == s.wo.ouraddr)
            && (s.wo.ouraddr != 0 ==> t.wo.ouraddr != 0) && s.ho.neg <= t.ho.neg
            && (JudgePiece(ao, s, x, tough).code != F.CONFREJ ==> (ReqAddr in t.wo.neg <==> ReqAddr in s.wo.neg))
  {
    hide GetLong, PutLong, GetShort;
  }

  /** The wishes after some pieces are those before, but for our address if that is left to the peer. */
  predicate Later(s: Known, t: Known) {
    && t.wo.hisaddr == s.wo.hisaddr && t.wo.cflag == s.wo.cflag
    && (AcceptRemote in t.wo.neg <==> AcceptRemote in s.wo.neg)
    && (AcceptLocal in t.wo.neg <==> AcceptLocal in s.wo.neg)
    && (AcceptLocal !in s.wo.neg ==> t.wo.ouraddr == s.wo.ouraddr)
    && (s.wo.ouraddr != 0 ==> t.wo.ouraddr != 0)
  }

  lemma {:induction false} KnownLater(ao: Options, s: Known, xs: seq<R.Piece>, k: nat)
    requires k <= |xs|
    ensures Later(KnownAfter(ao, s, xs[..k], false), KnownAfter(ao, s, xs, false))
    decreases |xs|
  {
    hide JudgePiece;
    if k < |xs| {
      var n := |xs| - 1;
      assert xs[..n][..k] == xs[..k];
      KnownLater(ao, s, xs[..n], k);
      JudgeWishes(ao, KnownAfter(ao, s, xs[..n], false), xs[n], false);
    } else {
      assert xs[..k] == xs;
    }
  }

  /** What piece x, judged in state s, becomes in the amended request. */
  function Becomes(ao: Options, s: Known, x: R.Piece): R.Piece {
    if JudgePiece(ao, s, x, false).code == F.CONFNAK then R.Piece(JudgePiece(ao, s, x, false).octets, true) else x
  }

  /** An option of the right length for its type. */
  predicate Sized(opt: bytes) {
    && |opt| >= 2 && (opt[0] == CI_ADDRS ==> |opt| == 10) && (opt[0] == CI_ADDR || Server(opt[0]) ==> |opt| == 6)
    && (opt[0] == CI_COMPRESSTYPE ==> |opt| == 4 || |opt| == 6)
  }

  predicate Good(ao: Options, wo: Options, x: R.Piece) {
    Sized(x.octets) && Offerable(ao, wo, x.octets)
  }

  /** In a second pass an amended option is accepted, if and only if it was offerable and does not take back our
      address. */
  lemma BecomesAccepted(ao: Options, s: Known, t: Known, x: R.Piece)
    requires Related(s, t) && JudgePiece(ao, s, x, false).code != F.CONFREJ
    ensures var y := Becomes(ao, s, x);
            && y.whole && |y.octets| == |x.octets| >= 2 && y.octets[0] == x.octets[0] && y.octets[1] == x.octets[1]
            && (JudgePiece(ao, t, y, false).code == F.CONFACK <==>
                  (JudgePiece(ao, s, x, false).code == F.CONFNAK ==> Good(ao, s.wo, x)) && Keeps(t.wo, y.octets))
  {
    hide JudgeOption, CounterSays, Offerable, Negotiable, Suits, Keeps;
    var opt := x.octets;
    CodeIff(ao, s, opt, false);
    NegotiableSized(ao, s, opt);
    if JudgeOption(ao, s, opt, false).code == F.CONFNAK {
      var nak := JudgeOption(ao, s, opt, false).octets;
      CounterIff(ao, s, opt);
      CounterSized(ao, s.wo, opt, nak);
      CounterSuits(ao, s, t, opt, nak);
      CodeIff(ao, t, nak, false);
    } else {
      JudgeCodes(ao, s, x, false);
      CodeIff(ao, t, opt, false);
      StillSuits(ao, s, t, opt);
    }
  }

  lemma StillSuits(ao: Options, s: Known, t: Known, opt: bytes)
    requires Negotiable(ao, s, opt) && |opt| >= 2 && (opt[0] == CI_ADDRS ==> |opt| == 10)
    requires (opt[0] == CI_ADDR || Server(opt[0]) ==> |opt| == 6) && Suits(ao, s.wo, opt) && Related(s, t)
    ensures Negotiable(ao, t, opt) && Suits(ao, t.wo, opt) <==> Keeps(t.wo, opt)
  {
    hide GetLong, GetShort;
  }

  /** Both passes move on together. */
  lemma RelatedMore(ao: Options, s: Known, t: Known, x: R.Piece, y: R.Piece)
    requires Related(s, t) && JudgePiece(ao, s, x, false).code != F.CONFREJ
    requires y == Becomes(ao, s, x) && JudgePiece(ao, t, y, false).code == F.CONFACK
    ensures Related(JudgePiece(ao, s, x, false).known, JudgePiece(ao, t, y, false).known)
    ensures Related(JudgePiece(ao, s, x, false).known, t)
  {
    hide JudgePiece, Becomes;
    JudgeWishes(ao, s, x, false);
    JudgeWishes(ao, t, y, false);
    SameFlags(ao, s, t, x, y);
  }

  /** What is recorded of an option that is not refused depends only on its type and length. */
  function FlagsFor(t: byte, n: nat): set<Flag> {
    if t == CI_ADDRS then {OldAddrs} else if t == CI_ADDR then {NegAddr}
    else if t == CI_COMPRESSTYPE then if n == 4 then {NegVj, OldVj} else {NegVj}
    else {}
  }

  lemma FlagsRecorded(ao: Options, s: Known, x: R.Piece)
    requires JudgePiece(ao, s, x, false).code != F.CONFREJ
    ensures |x.octets| >= 2
    ensures JudgePiece(ao, s, x, false).known.ho.neg == s.ho.neg + FlagsFor(x.octets[0], |x.octets|)
  {
    hide GetLong, PutLong, GetShort;
  }

  lemma SameFlags(ao: Options, s: Known, t: Known, x: R.Piece, y: R.Piece)
    requires Related(s, t) && JudgePiece(ao, s, x, false).code != F.CONFREJ
    requires y == Becomes(ao, s, x) && JudgePiece(ao, t, y, false).code == F.CONFACK
    ensures JudgePiece(ao, t, y, false).known.ho.neg <= JudgePiece(ao, s, x, false).known.ho.neg
  {
    hide JudgePiece, FlagsFor;
    BecomesAccepted(ao, s, t, x);
    FlagsRecorded(ao, s, x);
    FlagsRecorded(ao, t, y);
  }

  /** The old address option of an amended request names no address for us while we have none. */
  lemma BecomesZero(ao: Options, s: Known, x: R.Piece)
    requires JudgePiece(ao, s, x, false).code != F.CONFREJ && JudgePiece(ao, s, x, false).known.wo.ouraddr == 0
    ensures var y := Becomes(ao, s, x).octets; |y| == CILEN_ADDRS && y[0] == CI_ADDRS ==> Ours(y) == 0
  {
    hide JudgeOption, CounterSays;
    var opt := x.octets;
    CodeIff(ao, s, opt, false);
    NegotiableSized(ao, s, opt);
    if opt[0] == CI_ADDRS {
      OursTaken(ao, s, opt);
      JudgeWishes(ao, s, x, false);
      JudgeCodes(ao, s, x, false);
      if JudgeOption(ao, s, opt, false).code == F.CONFNAK {
        CounterIff(ao, s, opt);
        CounterOurs(ao, s.wo, opt, JudgeOption(ao, s, opt, false).octets);
      }
    } else if JudgeOption(ao, s, opt, false).code == F.CONFNAK {
      CounterIff(ao, s, opt);
      CounterSized(ao, s.wo, opt, JudgeOption(ao, s, opt, false).octets);
    }
  }

  lemma OursTaken(ao: Options, s: Known, opt: bytes)
    requires |opt| == 10 && opt[0] == CI_ADDRS && JudgeOption(ao, s, opt, false).code != F.CONFREJ
    ensures JudgeOption(ao, s, opt, false).known.wo.ouraddr ==
              if Welcome(Ours(opt), s.wo.ouraddr, AcceptLocal in s.wo.neg) then Ours(opt) else s.wo.ouraddr
  {
    hide GetLong, PutLong;
  }

  lemma CounterOurs(ao: Options, wo: Options, opt: bytes, nak: bytes)
    requires |opt| == 10 && opt[0] == CI_ADDRS && CounterSays(ao, wo, opt, nak)
    ensures Ours(nak) == if Welcome(Ours(opt), wo.ouraddr, AcceptLocal in wo.neg) then Ours(opt) else wo.ouraddr
  {
    hide GetLong, GetShort;
  }

  lemma ZeroStays(ao: Options, t: Known, y: R.Piece)
    requires t.wo.ouraddr == 0 && JudgePiece(ao, t, y, false).code == F.CONFACK
    requires |y.octets| == CILEN_ADDRS && y.octets[0] == CI_ADDRS ==> Ours(y.octets) == 0
    ensures JudgePiece(ao, t, y, false).known.wo.ouraddr == 0
  {
    hide GetLong, PutLong, GetShort;
  }

  // ---- The second pass ----

  function First(ao: Options, wo: Options, xs: seq<R.Piece>): Known {
    KnownAfter(ao, Known(wo, NoOptions), xs, false)
  }

  function Codes(ao: Options, wo: Options, xs: seq<R.Piece>): (r: seq<Ruling>)
    ensures |r| == |xs|
  {
    Rulings(ao, Known(wo, NoOptions), xs, false)
  }

  predicate Acked(ao: Options, wo: Options, ys: seq<R.Piece>) {
    Worst(Codes(ao, wo, ys)) == F.CONFACK
  }

  predicate NoneRefused(rs: seq<Ruling>) {
    forall k | 0 <= k < |rs| :: rs[k].code != F.CONFREJ
  }

  /** Some piece is an address option. */
  ghost predicate NamesAddress(ys: seq<R.Piece>) {
    exists k | 0 <= k < |ys| :: |ys[k].octets| >= 2 && (ys[k].octets[0] == CI_ADDR || ys[k].octets[0] == CI_ADDRS)
  }

  ghost predicate AllKeep(wo: Options, ys: seq<R.Piece>) {
    forall k | 0 <= k < |ys| :: Keeps(wo, ys[k].octets)
  }

  ghost predicate AllOfferable(ao: Options, wo: Options, xs: seq<R.Piece>, rs: seq<Ruling>)
    requires |xs| == |rs|
  {
    forall k | 0 <= k < |xs| && rs[k].code == F.CONFNAK :: Good(ao, wo, xs[k])
  }

  lemma AckedMore(ao: Options, wo: Options, ys: seq<R.Piece>, y: R.Piece)
    ensures Acked(ao, wo, ys + [y]) <==>
              Acked(ao, wo, ys) && JudgePiece(ao, First(ao, wo, ys), y, false).code == F.CONFACK
    ensures First(ao, wo, ys + [y]) == JudgePiece(ao, First(ao, wo, ys), y, false).known
  {
    hide JudgePiece;
    var all := ys + [y];
    assert all[..|ys|] == ys;
    var rs := Codes(ao, wo, all);
    assert rs[..|ys|] == Codes(ao, wo, ys);
    JudgeCodes(ao, First(ao, wo, ys), y, false);
    WorstIs(rs[..|ys|]);
  }

  lemma AddressMore(ys: seq<R.Piece>, y: R.Piece)
    requires |y.octets| >= 2
    ensures NamesAddress(ys + [y]) <==> NamesAddress(ys) || y.octets[0] == CI_ADDR || y.octets[0] == CI_ADDRS
  {
    var all := ys + [y];
    assert forall k | 0 <= k < |ys| :: all[k] == ys[k];
    if NamesAddress(ys) {
      var k :| 0 <= k < |ys| && |ys[k].octets| >= 2 && (ys[k].octets[0] == CI_ADDR || ys[k].octets[0] == CI_ADDRS);
      assert all[k] == ys[k];
    }
    assert all[|ys|] == y;
  }

  lemma KeepMore(wo: Options, ys: seq<R.Piece>, y: R.Piece)
    ensures AllKeep(wo, ys + [y]) <==> AllKeep(wo, ys) && Keeps(wo, y.octets)
  {
    hide Keeps;
    var all := ys + [y];
    assert forall k | 0 <= k < |ys| :: all[k] == ys[k];
    assert all[|ys|] == y;
    if AllKeep(wo, all) {
      forall k | 0 <= k < |ys|
        ensures Keeps(wo, ys[k].octets)
      {
        assert Keeps(wo, all[k].octets);
      }
    }
  }

  /** How the second pass stands after an amended request that has been accepted so far. */
  ghost predicate Apace(ao: Options, wo: Options, wo': Options, xs: seq<R.Piece>, ys: seq<R.Piece>) {
    var s, t := First(ao, wo, xs), First(ao, wo', ys);
    && Related(s, t) && (t.wo.ouraddr == 0 <==> wo'.ouraddr == 0) && (ReqAddr in t.wo.neg <==> ReqAddr in wo'.neg)
    && (NegAddr in t.ho.neg || OldAddrs in t.ho.neg <==> NamesAddress(ys))
  }

  lemma ApaceMore(ao: Options, wo: Options, wo': Options, xs: seq<R.Piece>, ys: seq<R.Piece>, x: R.Piece)
    requires Apace(ao, wo, wo', xs, ys) && JudgePiece(ao, First(ao, wo, xs), x, false).code != F.CONFREJ
    requires Later(First(ao, wo, xs + [x]), Known(wo', NoOptions))
    ensures var y := Becomes(ao, First(ao, wo, xs), x);
            && (JudgePiece(ao, First(ao, wo', ys), y, false).code == F.CONFACK <==>
                  && (JudgePiece(ao, First(ao, wo, xs), x, false).code == F.CONFNAK ==> Good(ao, wo, x))
                  && Keeps(wo', y.octets))
            && (JudgePiece(ao, First(ao, wo', ys), y, false).code == F.CONFACK ==>
                  Apace(ao, wo, wo', xs + [x], ys + [y]))
    ensures Apace(ao, wo, wo', xs + [x], ys)
  {
    hide JudgePiece, Becomes, Good, Keeps, First, NamesAddress;
    var s, t := First(ao, wo, xs), First(ao, wo', ys);
    var y := Becomes(ao, s, x);
    AckedMore(ao, wo, xs, x);
    AckedMore(ao, wo', ys, y);
    BecomesAccepted(ao, s, t, x);
    GoodSame(ao, s.wo, wo, x) by { FirstLater(ao, wo, xs); }
    KeepsSame(t.wo, wo', y.octets);
    AddressMore(ys, y);
    JudgeWishes(ao, s, x, false);
    if JudgePiece(ao, t, y, false).code == F.CONFACK {
      RelatedMore(ao, s, t, x, y);
      JudgeWishes(ao, t, y, false);
      AddressRecorded(ao, t, y);
      if wo'.ouraddr == 0 {
        BecomesZero(ao, s, x);
        ZeroStays(ao, t, y);
      }
    }
  }

  lemma AddressRecorded(ao: Options, t: Known, y: R.Piece)
    requires JudgePiece(ao, t, y, false).code != F.CONFREJ && |y.octets| >= 2
    ensures var n := JudgePiece(ao, t, y, false).known.ho.neg;
            NegAddr in n || OldAddrs in n <==>
              NegAddr in t.ho.neg || OldAddrs in t.ho.neg || y.octets[0] == CI_ADDR || y.octets[0] == CI_ADDRS
  {
    hide JudgePiece;
    FlagsRecorded(ao, t, y);
  }

  lemma FirstLater(ao: Options, wo: Options, xs: seq<R.Piece>)
    ensures Later(Known(wo, NoOptions), First(ao, wo, xs))
  {
    hide KnownAfter;
    KnownLater(ao, Known(wo, NoOptions), xs, 0);
    assert xs[..0] == [];
    NothingKnown(ao, wo);
  }

  lemma NothingKnown(ao: Options, wo: Options)
    ensures KnownAfter(ao, Known(wo, NoOptions), [], false) == Known(wo, NoOptions)
  {
  }

  lemma GoodSame(ao: Options, wo1: Options, wo2: Options, x: R.Piece)
    requires Later(Known(wo2, NoOptions), Known(wo1, NoOptions))
    ensures Good(ao, wo1, x) <==> Good(ao, wo2, x)
  {
    hide GetLong;
  }

  lemma KeepsSame(wo1: Options, wo2: Options, opt: bytes)
    requires wo1.ouraddr == 0 <==> wo2.ouraddr == 0
    ensures Keeps(wo1, opt) <==> Keeps(wo2, opt)
  {
    hide GetLong;
  }

  lemma CodesMore(ao: Options, wo: Options, xs: seq<R.Piece>)
    requires xs != []
    ensures var n := |xs| - 1;
            var j := JudgePiece(ao, First(ao, wo, xs[..n]), xs[n], false);
            Codes(ao, wo, xs) == Codes(ao, wo, xs[..n]) + [Ruling(j.code, j.octets)]
  {
    hide JudgePiece;
  }

  lemma AmendedMore(ao: Options, wo: Options, xs: seq<R.Piece>, all: bool)
    requires xs != []
    ensures var n := |xs| - 1;
            var code := JudgePiece(ao, First(ao, wo, xs[..n]), xs[n], false).code;
            var before := Amended(xs[..n], Codes(ao, wo, xs[..n]), all);
            Amended(xs, Codes(ao, wo, xs), all) ==
              if all || code == F.CONFNAK then before + [Becomes(ao, First(ao, wo, xs[..n]), xs[n])] else before
  {
    hide JudgePiece, Codes, First;
    CodesMore(ao, wo, xs);
    var n := |xs| - 1;
    assert Codes(ao, wo, xs)[..n] == Codes(ao, wo, xs[..n]);
    var before := Amended(xs[..n], Codes(ao, wo, xs[..n]), all);
    assert before + [] == before;
  }

  lemma OfferableMore(ao: Options, wo: Options, xs: seq<R.Piece>)
    requires xs != []
    ensures var n := |xs| - 1;
            var code := JudgePiece(ao, First(ao, wo, xs[..n]), xs[n], false).code;
            AllOfferable(ao, wo, xs, Codes(ao, wo, xs)) <==>
              && AllOfferable(ao, wo, xs[..n], Codes(ao, wo, xs[..n]))
              && (code == F.CONFNAK ==> Good(ao, wo, xs[n]))
  {
    hide JudgePiece, Codes, First, Good;
    CodesMore(ao, wo, xs);
    var n := |xs| - 1;
    var rs := Codes(ao, wo, xs);
    assert rs[..n] == Codes(ao, wo, xs[..n]);
    assert forall k | 0 <= k < n :: rs[k] == rs[..n][k] && xs[k] == xs[..n][k];
  }

  /** The second pass over an amended request, as far as it goes. */
  lemma {:induction false} SecondPass(ao: Options, wo: Options, wo': Options, xs: seq<R.Piece>, all: bool)
    requires NoneRefused(Codes(ao, wo, xs)) && Later(First(ao, wo, xs), Known(wo', NoOptions))
    ensures var ys := Amended(xs, Codes(ao, wo, xs), all);
            && (Acked(ao, wo', ys) <==> AllOfferable(ao, wo, xs, Codes(ao, wo, xs)) && AllKeep(wo', ys))
            && (Acked(ao, wo', ys) ==> Apace(ao, wo, wo', xs, ys))
    decreases |xs|
  {
    hide JudgePiece, Becomes, Good, AllKeep, AllOfferable, Acked, Apace, Codes, Amended, First;
    if xs == [] {
      SecondStarts(ao, wo, wo', all);
    } else {
      var n := |xs| - 1;
      var init, x := xs[..n], xs[n];
      assert init + [x] == xs;
      var s := First(ao, wo, init);
      CodesMore(ao, wo, xs);
      assert Codes(ao, wo, xs)[n].code != F.CONFREJ;
      PrefixNone(ao, wo, xs);
      AckedMore(ao, wo, init, x);
      JudgeWishes(ao, s, x, false);
      SecondPass(ao, wo, wo', init, all);
      var before := Amended(init, Codes(ao, wo, init), all);
      AmendedMore(ao, wo, xs, all);
      OfferableMore(ao, wo, xs);
      var y := Becomes(ao, s, x);
      AckedMore(ao, wo', before, y);
      KeepMore(wo', before, y);
      if Acked(ao, wo', before) {
        ApaceMore(ao, wo, wo', init, before, x);
      }
    }
  }

  lemma PrefixNone(ao: Options, wo: Options, xs: seq<R.Piece>)
    requires xs != [] && NoneRefused(Codes(ao, wo, xs))
    ensures NoneRefused(Codes(ao, wo, xs[..|xs| - 1]))
  {
    hide Codes;
    CodesMore(ao, wo, xs);
    var n := |xs| - 1;
    assert Codes(ao, wo, xs)[..n] == Codes(ao, wo, xs[..n]);
    forall k | 0 <= k < n
      ensures Codes(ao, wo, xs[..n])[k].code != F.CONFREJ
    {
      assert Codes(ao, wo, xs)[k] == Codes(ao, wo, xs[..n])[k];
    }
  }

  lemma SecondStarts(ao: Options, wo: Options, wo': Options, all: bool)
    requires Later(First(ao, wo, []), Known(wo', NoOptions))
    ensures var ys := Amended([], Codes(ao, wo, []), all);
            && Acked(ao, wo', ys) && AllOfferable(ao, wo, [], Codes(ao, wo, [])) && AllKeep(wo', ys)
            && Apace(ao, wo, wo', [], ys)
  {
  }

  // ---- Whole requests ----

  /** The address asked for in addition to what a peer asked for itself. */
  function Wished(ao: Options, wo: Options, xs: seq<R.Piece>): seq<R.Piece> {
    if AsksAddr(Worst(Codes(ao, wo, xs)), First(ao, wo, xs), false)
    then [R.Piece(AskAddr(First(ao, wo, xs).wo), true)] else []
  }

  /** The request of a peer that takes up all that a Nak suggests, or of one that sends the Nak back. */
  function NextPieces(ao: Options, wo: Options, p: bytes, all: bool): seq<R.Piece> {
    var xs := R.Pieces(p);
    Amended(xs, Codes(ao, wo, xs), all) + Wished(ao, wo, xs)
  }

  lemma WishJudged(ao: Options, wo: Options, wo': Options, xs: seq<R.Piece>, ys: seq<R.Piece>)
    requires Apace(ao, wo, wo', xs, ys) && Wished(ao, wo, xs) != [] && Later(First(ao, wo, xs), Known(wo', NoOptions))
    ensures var y := Wished(ao, wo, xs)[0];
            && (JudgePiece(ao, First(ao, wo', ys), y, false).code == F.CONFACK <==>
                  NegAddr in ao.neg && wo'.hisaddr != 0)
            && |y.octets| >= 2 && y.octets[0] == CI_ADDR && Keeps(wo', y.octets)
  {
    hide GetLong, PutLong, JudgeOption, First, Codes, Worst;
    var t, y := First(ao, wo', ys), Wished(ao, wo, xs)[0];
    var his := First(ao, wo, xs).wo.hisaddr;
    assert y.octets == AskAddr(First(ao, wo, xs).wo);
    assert y.octets[2..6] == PutLong(his);
    LongRoundTrip(his, PutLong(his));
    CodeIff(ao, t, y.octets, false);
  }

  /** An option that announces its own length. */
  predicate Formed(x: R.Piece) {
    x.whole && |x.octets| >= 2 && x.octets[1] as int == |x.octets|
  }

  lemma {:induction false} PiecesFormed(p: bytes)
    ensures forall k | 0 <= k < |R.Pieces(p)| && R.Pieces(p)[k].whole :: Formed(R.Pieces(p)[k])
  {
    if p != [] && R.Cut(p) {
      PiecesFormed(p[p[1]..]);
      assert R.Pieces(p) == [R.Piece(p[..p[1]], true)] + R.Pieces(p[p[1]..]);
    }
  }

  lemma {:induction false} PiecesOfJoined(ys: seq<R.Piece>)
    requires forall k | 0 <= k < |ys| :: Formed(ys[k])
    ensures R.Pieces(Joined(ys)) == ys
  {
    hide Joined;
    if ys == [] {
      JoinedNone();
      R.NoPieces();
    } else {
      var y, rest := ys[0], ys[1..];
      assert forall k | 0 <= k < |rest| :: rest[k] == ys[k + 1];
      PiecesOfJoined(rest);
      assert [y] + rest == ys;
      JoinedFront(y, rest);
      var p := Joined(ys);
      assert p[..|y.octets|] == y.octets && p[|y.octets|..] == Joined(rest);
    }
  }

  lemma {:induction false} AmendedFormed(ao: Options, wo: Options, xs: seq<R.Piece>, all: bool)
    requires NoneRefused(Codes(ao, wo, xs)) && forall k | 0 <= k < |xs| && xs[k].whole :: Formed(xs[k])
    ensures forall y | y in Amended(xs, Codes(ao, wo, xs), all) :: Formed(y)
    decreases |xs|
  {
    hide JudgePiece, Codes, First, Becomes;
    if xs != [] {
      var n := |xs| - 1;
      var s, x := First(ao, wo, xs[..n]), xs[n];
      CodesMore(ao, wo, xs);
      assert Codes(ao, wo, xs)[n].code != F.CONFREJ;
      PrefixNone(ao, wo, xs);
      AmendedFormed(ao, wo, xs[..n], all);
      AmendedMore(ao, wo, xs, all);
      NotRefusedWhole(ao, s, x);
      RelatedSelf(s);
      BecomesAccepted(ao, s, s, x);
    }
  }

  lemma NotRefusedWhole(ao: Options, s: Known, x: R.Piece)
    requires JudgePiece(ao, s, x, false).code != F.CONFREJ
    ensures x.whole
  {
  }

  lemma RelatedSelf(s: Known)
    ensures Related(s, s)
  {
  }

  /** Sent back, the Nak is the counter-offers and the wish for an address, and nothing else. */
  lemma {:induction false} NakIsAmended(xs: seq<R.Piece>, rs: seq<Ruling>)
    requires |xs| == |rs|
    ensures Joined(Amended(xs, rs, false)) == Part(rs, F.CONFNAK)
  {
    if xs != [] {
      var n := |xs| - 1;
      NakIsAmended(xs[..n], rs[..n]);
      var before := Amended(xs[..n], rs[..n], false);
      if rs[n].code == F.CONFNAK {
        JoinedMore(before, R.Piece(rs[n].octets, true));
      } else {
        assert before + [] == before;
      }
    }
  }

  /** The condition under which a peer that takes up a Nak is Acked. Every counter-offer can be made good; if an
      address was wished for, it is known and its option allowed; no old address option takes back an address we have;
      and an address is named as long as one is asked for. */
  ghost predicate Settles(ao: Options, wo: Options, wo': Options, xs: seq<R.Piece>, ys: seq<R.Piece>) {
    && AllOfferable(ao, wo, xs, Codes(ao, wo, xs)) && AllKeep(wo', ys)
    && (Wished(ao, wo, xs) != [] ==> NegAddr in ao.neg && wo.hisaddr != 0)
    && (ReqAddr in wo'.neg ==> NamesAddress(ys))
  }

  lemma NakKnown(ao: Options, wo: Options, p: bytes)
    requires ReqCi(ao, wo, p, false).code == F.CONFNAK
    ensures var xs := R.Pieces(p);
            && NoneRefused(Codes(ao, wo, xs))
            && Later(First(ao, wo, xs), Known(ReqCi(ao, wo, p, false).known.wo, NoOptions))
            && (ReqAddr in ReqCi(ao, wo, p, false).known.wo.neg ==> ReqAddr in First(ao, wo, xs).wo.neg)
  {
    hide R.Pieces, Rulings, Worst, Part, KnownAfter;
    WorstIs(Codes(ao, wo, R.Pieces(p)));
    WorstCodes(ao, Known(wo, NoOptions), R.Pieces(p), false);
  }

  lemma SecondAnswer(ao: Options, wo: Options, ys: seq<R.Piece>)
    requires forall k | 0 <= k < |ys| :: Formed(ys[k])
    ensures ReqCi(ao, wo, Joined(ys), false).code == F.CONFACK <==>
              Acked(ao, wo, ys) && !AsksAddr(F.CONFACK, First(ao, wo, ys), false)
  {
    hide R.Pieces, Rulings, Worst, Part, KnownAfter, Joined;
    PiecesOfJoined(ys);
  }

  lemma NextFormed(ao: Options, wo: Options, p: bytes, all: bool)
    requires NoneRefused(Codes(ao, wo, R.Pieces(p)))
    ensures var ys := NextPieces(ao, wo, p, all); forall k | 0 <= k < |ys| :: Formed(ys[k])
  {
    hide Codes, R.Pieces, First, Amended, PutLong;
    PiecesFormed(p);
    AmendedFormed(ao, wo, R.Pieces(p), all);
  }

  /** A peer whose request was Nak'd, and that asks again with every counter-offer in its place, is Acked, if and only
      if the condition above holds; and so is one that only sends the Nak back. */
  lemma TakenUpIff(ao: Options, wo: Options, p: bytes, all: bool)
    requires ReqCi(ao, wo, p, false).code == F.CONFNAK
    ensures var wo' := ReqCi(ao, wo, p, false).known.wo;
            var ys := NextPieces(ao, wo, p, all);
            ReqCi(ao, wo', Joined(ys), false).code == F.CONFACK <==> Settles(ao, wo, wo', R.Pieces(p), ys)
  {
    hide ReqCi, R.Pieces, Codes, First, Amended, Acked, Apace, AllKeep, AllOfferable, NamesAddress, Joined, Later;
    hide NoneRefused, JudgePiece;
    var wo', xs := ReqCi(ao, wo, p, false).known.wo, R.Pieces(p);
    NakKnown(ao, wo, p);
    SecondPass(ao, wo, wo', xs, all);
    NextFormed(ao, wo, p, all);
    var ys0, wish := Amended(xs, Codes(ao, wo, xs), all), Wished(ao, wo, xs);
    var ys := NextPieces(ao, wo, p, all);
    SecondAnswer(ao, wo', ys);
    if wish == [] {
      assert ys == ys0;
      if Acked(ao, wo', ys0) {
        AsksAgain(ao, wo, wo', xs, ys0);
      }
    } else {
      assert ys == ys0 + [wish[0]];
      AckedMore(ao, wo', ys0, wish[0]);
      KeepMore(wo', ys0, wish[0]);
      WishOctets(ao, wo, xs, wo');
      AddressMore(ys0, wish[0]);
      if Acked(ao, wo', ys0) {
        WishJudged(ao, wo, wo', xs, ys0);
        LaterSame(ao, wo, xs, wo');
        if JudgePiece(ao, First(ao, wo', ys0), wish[0], false).code == F.CONFACK {
          AddressRecorded(ao, First(ao, wo', ys0), wish[0]);
        }
      }
    }
  }

  lemma AsksAgain(ao: Options, wo: Options, wo': Options, xs: seq<R.Piece>, ys: seq<R.Piece>)
    requires Apace(ao, wo, wo', xs, ys)
    ensures AsksAddr(F.CONFACK, First(ao, wo', ys), false) <==> ReqAddr in wo'.neg && !NamesAddress(ys)
  {
    hide First, NamesAddress;
  }

  lemma WishOctets(ao: Options, wo: Options, xs: seq<R.Piece>, wo': Options)
    requires Wished(ao, wo, xs) != []
    ensures var y := Wished(ao, wo, xs)[0];
            |y.octets| == CILEN_ADDR && y.octets[0] == CI_ADDR && Keeps(wo', y.octets)
  {
    hide PutLong, First, Codes, Worst;
  }

  lemma LaterSame(ao: Options, wo: Options, xs: seq<R.Piece>, wo': Options)
    requires Later(First(ao, wo, xs), Known(wo', NoOptions))
    ensures wo'.hisaddr == wo.hisaddr
  {
    hide First;
    FirstLater(ao, wo, xs);
  }

  /** What a Nak carries is what `NextPieces` says it does. */
  lemma NakCarries(ao: Options, wo: Options, p: bytes)
    requires ReqCi(ao, wo, p, false).code == F.CONFNAK
    ensures ReqCi(ao, wo, p, false).out == Joined(NextPieces(ao, wo, p, false))
  {
    hide R.Pieces, Rulings, KnownAfter, AskAddr, Amended, Joined, Worst, Part;
    var xs := R.Pieces(p);
    var rs := Codes(ao, wo, xs);
    var ys := Amended(xs, rs, false);
    NakIsAmended(xs, rs);
    WorstIs(rs);
    WorstCodes(ao, Known(wo, NoOptions), xs, false);
    if Worst(rs) == F.CONFACK {
      PartNone(rs, F.CONFNAK);
    }
    if Wished(ao, wo, xs) != [] {
      JoinedMore(ys, Wished(ao, wo, xs)[0]);
      assert [] + AskAddr(First(ao, wo, xs).wo) == AskAddr(First(ao, wo, xs).wo);
    } else {
      assert ys + [] == ys;
    }
  }
}
