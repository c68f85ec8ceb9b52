/** The size-class pool allocator: superblocks from the system are carved into
    blocks that move between a free list and a used list per size class. */
module MemPool {
  import opened Wire
  import opened Dlist

  const POOLS := 22
  const MEMBLK_SIGN := 0x55aa
  const SUPER_SIGN := 0x5a5a

  /** How many blocks a superblock of each size class holds. */
  function Increase(s: nat): nat {
    if s < 2 then 0
    else if s < 12 then 8
    else if s == 12 then 4
    else if s == 13 then 2
    else if s < 22 then 1
    else 0
  }

  function Pow2(n: nat): (r: nat)
    ensures r >= 1
  {
    if n == 0 then 1 else 2 * Pow2(n - 1)
  }

  // ---- The lists ----

  /** One list: the used or the free one of a size class. */
  datatype Spot = Spot(used: bool, k: nat)

  /** The contents of all lists, and which list each entry is on. */
  datatype Lists = Lists(lists: map<Spot, seq<Node>>, spot: map<Node, Spot>)

  function HeadOf(p: Spot): Node {
    if p.used then UsedHead(p.k) else FreeHead(p.k)
  }

  /** Every class has its two lists, and every entry is on exactly one list. */
  ghost predicate Tidy(l: Lists) {
    && (forall p: Spot :: p in l.lists <==> p.k < POOLS)
    && (forall p, i {:trigger l.lists[p][i]} | p in l.lists && 0 <= i < |l.lists[p]| ::
          l.lists[p][i].Entry? && l.lists[p][i] in l.spot && l.spot[l.lists[p][i]] == p)
    && (forall e {:trigger l.spot[e]} | e in l.spot :: l.spot[e] in l.lists && e in l.lists[l.spot[e]])
  }

  ghost predicate Linked(l: Lists, next: map<Node, Node>, prev: map<Node, Node>) {
    forall p | p in l.lists :: Ring(next, prev, HeadOf(p), l.lists[p])
  }

  /** The other lists keep their rings when one list is relinked. */
  lemma OthersKept(l: Lists, next: map<Node, Node>, prev: map<Node, Node>,
                   next': map<Node, Node>, prev': map<Node, Node>,
                   p: Spot, e: Node, q: Spot)
    requires Tidy(l) && Linked(l, next, prev) && p in l.lists && q in l.lists && p != q
    requires e.Entry? && (e in l.spot ==> l.spot[e] == p)
    requires SameElsewhere(next, next', {e, HeadOf(p)} + Members(l.lists[p]))
    requires SameElsewhere(prev, prev', {e, HeadOf(p)} + Members(l.lists[p]))
    ensures Ring(next', prev', HeadOf(q), l.lists[q])
  {
    var touched := {e, HeadOf(p)} + Members(l.lists[p]);
    forall i | 0 <= i < |l.lists[q]|
      ensures l.lists[q][i] !in touched
    {
      assert l.spot[l.lists[q][i]] == q;
    }
    RingKept(next, prev, next', prev', HeadOf(q), l.lists[q], touched);
  }

  /** An entry that was on no list, put on one. */
  function Placed(l: Lists, p: Spot, s: seq<Node>, e: Node): Lists {
    Lists(l.lists[p := s], l.spot[e := p])
  }

  /** An entry taken off its list. */
  function Lifted(l: Lists, p: Spot, s: seq<Node>, e: Node): Lists {
    Lists(l.lists[p := s], l.spot - {e})
  }

  lemma PlacedTidy(l: Lists, p: Spot, s: seq<Node>, e: Node)
    requires Tidy(l) && p in l.lists && e.Entry? && e !in l.spot
    requires s == [e] + l.lists[p] || s == l.lists[p] + [e]
    ensures Tidy(Placed(l, p, s, e))
  {
    var l' := Placed(l, p, s, e);
    forall q, i | q in l'.lists && 0 <= i < |l'.lists[q]|
      ensures l'.lists[q][i].Entry? && l'.lists[q][i] in l'.spot && l'.spot[l'.lists[q][i]] == q
    {
      if q == p && s[i] != e {
        assert s[i] in l.lists[p];
        var j :| 0 <= j < |l.lists[p]| && l.lists[p][j] == s[i];
      }
    }
    forall x | x in l'.spot
      ensures l'.spot[x] in l'.lists && x in l'.lists[l'.spot[x]]
    {
      if x != e {
        assert x in l.lists[l.spot[x]];
      }
    }
  }

  lemma LiftedTidy(l: Lists, p: Spot, i: nat)
    requires Tidy(l) && p in l.lists && i < |l.lists[p]| && NoRepeat(HeadOf(p), l.lists[p])
    ensures Tidy(Lifted(l, p, l.lists[p][..i] + l.lists[p][i + 1..], l.lists[p][i]))
  {
    var s := l.lists[p];
    var e, t := s[i], s[..i] + s[i + 1..];
    var l' := Lifted(l, p, t, e);
    forall q, j | q in l'.lists && 0 <= j < |l'.lists[q]|
      ensures l'.lists[q][j].Entry? && l'.lists[q][j] in l'.spot && l'.spot[l'.lists[q][j]] == q
    {
      if q == p {
        var m := if j < i then j else j + 1;
        assert t[j] == s[m] && s[m] != e;
      } else {
        assert l.spot[l.lists[q][j]] == q && l.spot[s[i]] == p;
      }
    }
    forall x | x in l'.spot
      ensures l'.spot[x] in l'.lists && x in l'.lists[l'.spot[x]]
    {
      assert x in l.lists[l.spot[x]];
      if l.spot[x] == p {
        var j :| 0 <= j < |s| && s[j] == x;
        assert j != i;
        assert t[if j < i then j else j - 1] == x;
      }
    }
  }

  // ---- Memory ----

  /** A stretch of memory obtained from the system. */
  datatype Region = Region(base: int, size: int)

  predicate Apart(a: int, n: int, b: int, m: int) {
    a + n <= b || b + m <= a
  }

  /** The header word of an entry on some list. */
  function FlagsOf(k: nat): int {
    if k == 0 then SUPER_SIGN * 0x1_0000 else MEMBLK_SIGN * 0x1_0000 + k
  }

  predicate IsBlock(f: int) {
    f / 0x1_0000 == MEMBLK_SIGN
  }

  function SizeClass(f: int): nat {
    f % 0x1_0000
  }

  /** How much memory an entry takes up: its header, and its payload if it is a block. */
  function Extent(hdr: nat, f: int): nat {
    hdr + if IsBlock(f) then Pow2(SizeClass(f)) else 0
  }

  ghost predicate Inside(a: int, n: int, r: Region) {
    r.base <= a && a + n <= r.base + r.size
  }

  /** Owned stretches do not meet, every entry lies in one, and no two entries meet. */
  ghost predicate Laid(hdr: nat, flags: map<int, int>, owned: seq<Region>) {
    && (forall i, j | 0 <= i < j < |owned| :: Apart(owned[i].base, owned[i].size, owned[j].base, owned[j].size))
    && (forall i | 0 <= i < |owned| :: owned[i].base > 0)
    && (forall a | a in flags :: exists i :: 0 <= i < |owned| && Inside(a, Extent(hdr, flags[a]), owned[i]))
    && (forall a, b | a in flags && b in flags && a != b ::
          Apart(a, Extent(hdr, flags[a]), b, Extent(hdr, flags[b])))
  }

  /** The entries with a header are those on the lists, and each header tells its list's class. */
  ghost predicate Marked(l: Lists, flags: map<int, int>) {
    && (forall a {:trigger a in flags} {:trigger Entry(a)} :: a in flags <==> Entry(a) in l.spot)
    && (forall a | a in flags :: flags[a] == FlagsOf(l.spot[Entry(a)].k))
    && Spot(true, 0) in l.lists && l.lists[Spot(true, 0)] == []
  }

  lemma FlagsTell(k: nat)
    requires k < POOLS
    ensures IsBlock(FlagsOf(k)) <==> k > 0
    ensures k > 0 ==> SizeClass(FlagsOf(k)) == k
  {
  }

  /** A new entry just past what has been carved out of a new stretch. */
  lemma LaidMore(hdr: nat, flags: map<int, int>, owned: seq<Region>, a: int, f: int)
    requires Laid(hdr, flags, owned) && hdr > 0 && owned != []
    requires var r := owned[|owned| - 1];
             && Inside(a, Extent(hdr, f), r)
             && (forall b | b in flags && b >= r.base && b < r.base + r.size :: b + Extent(hdr, flags[b]) <= a)
    ensures a !in flags && Laid(hdr, flags[a := f], owned)
  {
    var r := owned[|owned| - 1];
    var flags' := flags[a := f];
    forall b | b in flags
      ensures b != a && Apart(a, Extent(hdr, f), b, Extent(hdr, flags[b]))
    {
      var i :| 0 <= i < |owned| && Inside(b, Extent(hdr, flags[b]), owned[i]);
      if i != |owned| - 1 {
        assert Apart(owned[i].base, owned[i].size, r.base, r.size);
      }
    }
    forall b | b in flags'
      ensures exists i :: 0 <= i < |owned| && Inside(b, Extent(hdr, flags'[b]), owned[i])
    {
      if b == a {
        assert Inside(a, Extent(hdr, f), owned[|owned| - 1]);
      }
    }
  }

  /** A new stretch from the system meets none of the owned ones. */
  ghost predicate NewRegion(owned: seq<Region>, r: Region) {
    r.base > 0 && forall i | 0 <= i < |owned| :: Apart(owned[i].base, owned[i].size, r.base, r.size)
  }

  lemma LaidRegion(hdr: nat, flags: map<int, int>, owned: seq<Region>, r: Region)
    requires Laid(hdr, flags, owned) && NewRegion(owned, r) && hdr > 0
    ensures Laid(hdr, flags, owned + [r])
    ensures forall b | b in flags :: !(r.base <= b < r.base + r.size)
  {
    var owned' := owned + [r];
    forall b | b in flags
      ensures exists i :: 0 <= i < |owned'| && Inside(b, Extent(hdr, flags[b]), owned'[i])
      ensures !(r.base <= b < r.base + r.size)
    {
      var i :| 0 <= i < |owned| && Inside(b, Extent(hdr, flags[b]), owned[i]);
      assert owned'[i] == owned[i];
      assert Apart(owned[i].base, owned[i].size, r.base, r.size);
    }
  }

  /** The system: the address of a new stretch, or 0; it may answer differently each time it is asked. */
  type System = (nat, seq<Region>, nat) -> int

  ghost predicate Honest(sys: System) {
    forall n: nat, owned: seq<Region>, size: nat {:trigger sys(n, owned, size)} ::
      sys(n, owned, size) == 0 || NewRegion(owned, Region(sys(n, owned, size), size))
  }

  function SuperSize(hdr: nat, s: nat): nat
    requires s < POOLS
  {
    hdr + (hdr + Pow2(s)) * Increase(s)
  }

  function AllSpots(): set<Spot> {
    set u: bool, k: nat | k < POOLS :: Spot(u, k)
  }

  function NoLists(): Lists {
    Lists(map p | p in AllSpots() :: [], map[])
  }

  ghost predicate EmptyHeads(next: map<Node, Node>, prev: map<Node, Node>, k: nat) {
    Ring(next, prev, FreeHead(k), []) && Ring(next, prev, UsedHead(k), [])
  }

  lemma AllEmpty(next: map<Node, Node>, prev: map<Node, Node>)
    requires forall j | 0 <= j < POOLS :: EmptyHeads(next, prev, j)
    ensures Tidy(NoLists()) && Linked(NoLists(), next, prev)
    ensures forall k | 0 <= k < POOLS ::
              && Spot(false, k) in NoLists().lists && NoLists().lists[Spot(false, k)] == []
              && Spot(true, k) in NoLists().lists && NoLists().lists[Spot(true, k)] == []
  {
    hide Ring;
    var l := NoLists();
    assert forall p: Spot :: p in AllSpots() <==> p.k < POOLS;
    forall p | p in l.lists
      ensures Ring(next, prev, HeadOf(p), l.lists[p])
    {
      assert EmptyHeads(next, prev, p.k);
    }
  }

  lemma NothingPlaced(hdr: nat)
    ensures Marked(NoLists(), map[]) && Laid(hdr, map[], [])
  {
  }

  /** The headers of the owned stretches, as listed. */
  function Bases(owned: seq<Region>): (r: seq<Node>)
    ensures |r| == |owned|
  {
    seq(|owned|, i requires 0 <= i < |owned| => Entry(owned[i].base))
  }

  lemma BasesMore(owned: seq<Region>, r: Region)
    ensures Bases(owned + [r]) == Bases(owned) + [Entry(r.base)]
  {
  }

  /** The counters tell how many entries each list has. */
  ghost predicate Counted(l: Lists, free: seq<nat>, used: seq<nat>) {
    && |free| == |used| == POOLS
    && forall k | 1 <= k < POOLS ::
         && Spot(false, k) in l.lists && free[k] == |l.lists[Spot(false, k)]|
         && Spot(true, k) in l.lists && used[k] == |l.lists[Spot(true, k)]|
  }

  /** Every block of every superblock is on one of the two lists of its class. */
  ghost predicate Balanced(pools: seq<nat>, free: seq<nat>, used: seq<nat>) {
    && |free| == |used| == |pools| == POOLS
    && forall k | 1 <= k < POOLS :: pools[k] * Increase(k) == free[k] + used[k]
  }

  /** The high-water marks. */
  ghost predicate Topped(most: seq<nat>, used: seq<nat>) {
    && |most| == |used| == POOLS
    && forall k | 0 <= k < POOLS :: used[k] <= most[k]
  }

  lemma CountedPlaced(l: Lists, free: seq<nat>, used: seq<nat>, k: nat, e: Node)
    requires Counted(l, free, used) && k < POOLS && Spot(false, k) in l.lists
    ensures |free| == POOLS
    ensures Counted(Placed(l, Spot(false, k), l.lists[Spot(false, k)] + [e], e),
                    if k == 0 then free else free[k := free[k] + 1], used)
  {
  }

  lemma BalancedGrown(pools: seq<nat>, free: seq<nat>, used: seq<nat>, s: nat)
    requires Balanced(pools, free, used) && s < POOLS
    ensures |pools| == |free| == POOLS
    ensures Balanced(pools[s := pools[s] + 1], free[s := free[s] + Increase(s)], used)
  {
    hide Increase;
    Balance(pools[s], Increase(s));
  }

  /** A block of class s goes to the used list, or back. */
  lemma CountedMoved(l: Lists, l': Lists, free: seq<nat>, used: seq<nat>, p: Spot, q: Spot, i: nat, a: int)
    requires Counted(l, free, used) && p in l.lists && i < |l.lists[p]| && 0 < p.k < POOLS
    requires q == Spot(!p.used, p.k) && Moved(l, l', p, q, i, a)
    ensures |free| == |used| == POOLS
    ensures !p.used ==> free[p.k] > 0 && Counted(l', free[p.k := free[p.k] - 1], used[p.k := used[p.k] + 1])
    ensures p.used ==> used[p.k] > 0 && Counted(l', free[p.k := free[p.k] + 1], used[p.k := used[p.k] - 1])
  {
  }

  lemma BalancedMoved(pools: seq<nat>, free: seq<nat>, used: seq<nat>, s: nat)
    requires Balanced(pools, free, used) && s < POOLS
    ensures free[s] > 0 ==> Balanced(pools, free[s := free[s] - 1], used[s := used[s] + 1])
    ensures used[s] > 0 ==> Balanced(pools, free[s := free[s] + 1], used[s := used[s] - 1])
  {
    hide Increase;
  }

  // ---- The pool ----

  class Pool {
    const hdr: nat
    const sys: System
    const links: Links
    var flags: map<int, int>
    var usedCount: seq<nat>
    var freeCount: seq<nat>
    var maxUsed: seq<nat>
    var poolCount: seq<nat>
    var mem: int -> byte
    var asked: nat
    var owned: seq<Region>
    ghost var l: Lists

    /** Lists, headers, placement and list lengths are in order. */
    ghost predicate Sound()
      reads this, links
    {
      && hdr > 0 && Honest(sys)
      && Tidy(l) && Linked(l, links.next, links.prev)
      && Marked(l, flags) && Laid(hdr, flags, owned)
      && Counted(l, freeCount, usedCount)
    }

    /** ... and each class holds a whole number of superblocks' worth of blocks. */
    ghost predicate Valid()
      reads this, links
    {
      && Sound()
      && Balanced(poolCount, freeCount, usedCount) && Topped(maxUsed, usedCount)
      && Spot(false, 0) in l.lists && l.lists[Spot(false, 0)] == Bases(owned)
    }

    /** Nothing owned, nothing listed. */
    constructor (hdr: nat, sys: System, mem: int -> byte)
      requires hdr > 0 && Honest(sys)
      ensures Valid() && View() == map[] && owned == [] && l == NoLists() && fresh(links)
      ensures this.hdr == hdr && this.sys == sys && asked == 0
    {
      this.hdr, this.sys, this.mem, asked := hdr, sys, mem, 0;
      flags, owned, l := map[], [], NoLists();
      usedCount, freeCount, maxUsed, poolCount := [], [], [], [];
      links := new Links();
      new;
      InitAll();
      NothingSeen(hdr, mem);
    }

    /** Initialise the two list heads of one size class. */
    method InitHeads(i: nat)
      requires forall j | 0 <= j < i :: EmptyHeads(links.next, links.prev, j)
      modifies links
      ensures forall j | 0 <= j <= i :: EmptyHeads(links.next, links.prev, j)
    {
      hide Ring;
      ghost var n0, p0 := links.next, links.prev;
      links.Init(FreeHead(i));
      ghost var n1, p1 := links.next, links.prev;
      links.Init(UsedHead(i));
      forall j | 0 <= j < i
        ensures EmptyHeads(links.next, links.prev, j)
      {
        assert EmptyHeads(n0, p0, j);
        RingKept(n0, p0, n1, p1, FreeHead(j), [], {FreeHead(i)});
        RingKept(n0, p0, n1, p1, UsedHead(j), [], {FreeHead(i)});
        RingKept(n1, p1, links.next, links.prev, FreeHead(j), [], {UsedHead(i)});
        RingKept(n1, p1, links.next, links.prev, UsedHead(j), [], {UsedHead(i)});
      }
      RingKept(n1, p1, links.next, links.prev, FreeHead(i), [], {UsedHead(i)});
    }

    /** Empty every list. */
    method InitAll()
      requires hdr > 0 && Honest(sys) && flags == map[] && owned == []
      modifies this`usedCount, this`freeCount, this`maxUsed, this`poolCount, this`l, links
      ensures Valid() && l == NoLists()
    {
      hide EmptyHeads, Honest, NoLists, Tidy, Linked, Marked, Laid, Increase;
      var zeros := seq(POOLS, i => 0);
      var i := 0;
      while i < POOLS
        invariant 0 <= i <= POOLS
        invariant forall j | 0 <= j < i :: EmptyHeads(links.next, links.prev, j)
      {
        InitHeads(i);
        i := i + 1;
      }
      usedCount, freeCount, maxUsed, poolCount := zeros, zeros, zeros, zeros;
      l := NoLists();
      AllEmpty(links.next, links.prev);
      NothingPlaced(hdr);
      assert Bases(owned) == [];
    }

    /** The blocks handed out. */
    ghost function Live(): set<int>
      reads this
    {
      LiveIn(l, flags)
    }

    /** Put an entry that is on no list at the back of one. */
    method PutBack(a: int, p: Spot)
      requires Tidy(l) && Linked(l, links.next, links.prev) && p in l.lists && Entry(a) !in l.spot
      modifies this`l, links
      ensures l == Placed(old(l), p, old(l).lists[p] + [Entry(a)], Entry(a))
      ensures Tidy(l) && Linked(l, links.next, links.prev)
    {
      hide Ring, SameElsewhere;
      ghost var l0, s := l, l.lists[p];
      NotListed(l, p, a);
      ghost var n0, p0 := links.next, links.prev;
      links.AddTail(Entry(a), HeadOf(p), s);
      l := Placed(l, p, s + [Entry(a)], Entry(a));
      PlacedTidy(l0, p, s + [Entry(a)], Entry(a));
      forall q | q in l.lists
        ensures Ring(links.next, links.prev, HeadOf(q), l.lists[q])
      {
        if q != p {
          OthersKept(l0, n0, p0, links.next, links.prev, p, Entry(a), q);
        }
      }
    }

    /** Put an entry that is on no list at the front of one. */
    method PutFront(a: int, p: Spot)
      requires Tidy(l) && Linked(l, links.next, links.prev) && p in l.lists && Entry(a) !in l.spot
      modifies this`l, links
      ensures l == Placed(old(l), p, [Entry(a)] + old(l).lists[p], Entry(a))
      ensures Tidy(l) && Linked(l, links.next, links.prev)
    {
      hide Ring, SameElsewhere;
      ghost var l0, s := l, l.lists[p];
      NotListed(l, p, a);
      ghost var n0, p0 := links.next, links.prev;
      links.Add(Entry(a), HeadOf(p), s);
      l := Placed(l, p, [Entry(a)] + s, Entry(a));
      PlacedTidy(l0, p, [Entry(a)] + s, Entry(a));
      forall q | q in l.lists
        ensures Ring(links.next, links.prev, HeadOf(q), l.lists[q])
      {
        if q != p {
          OthersKept(l0, n0, p0, links.next, links.prev, p, Entry(a), q);
        }
      }
    }

    /** Take an entry off the list it is on. */
    method Lift(a: int, ghost p: Spot, ghost i: nat)
      requires Tidy(l) && Linked(l, links.next, links.prev)
      requires p in l.lists && i < |l.lists[p]| && l.lists[p][i] == Entry(a)
      modifies this`l, links
      ensures l == Lifted(old(l), p, old(l).lists[p][..i] + old(l).lists[p][i + 1..], Entry(a))
      ensures Tidy(l) && Linked(l, links.next, links.prev)
      ensures Entry(a) !in l.spot
    {
      hide SameElsewhere;
      ghost var l0, s := l, l.lists[p];
      ghost var n0, p0 := links.next, links.prev;
      links.Del(Entry(a), HeadOf(p), s, i);
      l := Lifted(l, p, s[..i] + s[i + 1..], Entry(a));
      LiftedTidy(l0, p, i);
      forall q | q in l.lists
        ensures Ring(links.next, links.prev, HeadOf(q), l.lists[q])
      {
        if q != p {
          OthersKept(l0, n0, p0, links.next, links.prev, p, Entry(a), q);
        }
      }
    }

    /** A new free entry right after those already carved out of the newest stretch. */
    method AddEntry(a: int, k: nat)
      requires Sound() && k < POOLS && owned != []
      requires var r := owned[|owned| - 1];
               && Inside(a, Extent(hdr, FlagsOf(k)), r)
               && (forall b | b in flags && b >= r.base && b < r.base + r.size :: b + Extent(hdr, flags[b]) <= a)
      modifies this`flags, this`freeCount, this`l, links
      ensures Sound() && Entry(a) !in old(l).spot && a !in old(flags)
      ensures flags == old(flags)[a := FlagsOf(k)]
      ensures l == Placed(old(l), Spot(false, k), old(l).lists[Spot(false, k)] + [Entry(a)], Entry(a))
      ensures freeCount == if k == 0 then old(freeCount) else old(freeCount)[k := old(freeCount)[k] + 1]
    {
      hide Tidy, Linked, Laid, Honest, FlagsOf, Extent, Counted;
      LaidMore(hdr, flags, owned, a, FlagsOf(k));
      ghost var l0 := l;
      assert a !in flags && Entry(a) !in l.spot;
      assert Spot(false, k) in l.lists by { SpotsThere(l, Spot(false, k)); }
      PlacedMarked(l, flags, Spot(false, k), l.lists[Spot(false, k)] + [Entry(a)], a);
      flags := flags[a := FlagsOf(k)];
      PutBack(a, Spot(false, k));
      CountedPlaced(l0, freeCount, usedCount, k, Entry(a));
      if k > 0 {
        freeCount := freeCount[k := freeCount[k] + 1];
      }
    }

    /** Carve the newest stretch, after its header, into blocks of one size class. */
    method Carve(base: int, s: nat)
      requires Sound() && 0 < s < POOLS && owned != [] && Spot(false, 0) in l.lists
      requires owned[|owned| - 1] == Region(base, SuperSize(hdr, s))
      requires forall b | b in flags && b >= base && b < base + SuperSize(hdr, s) ::
                 b + Extent(hdr, flags[b]) <= base + hdr
      modifies this`flags, this`freeCount, this`l, links
      ensures Sound() && Grown(old(l), l)
      ensures HeadersKept(old(flags), flags)
      ensures freeCount == old(freeCount)[s := old(freeCount)[s] + Increase(s)]
      ensures ListsKept(old(l), l, Spot(false, s))
      ensures Increase(s) > 0 ==> l.lists[Spot(false, s)] != []
    {
      hide Tidy, Linked, Laid, Marked, Honest, FlagsOf, Extent, Grown, Pow2, Increase, ListsKept, Counted;
      KeptSelf(l, Spot(false, s));
      FreeLength(l, freeCount, usedCount);
      SpotsThere(l, Spot(false, s));
      var blockSize := hdr + Pow2(s);
      ghost var l0, f0, c0, total := l, flags, freeCount, SuperSize(hdr, s);
      GrownSelf(l);
      Extents(hdr, s);
      var ptr, i := base + hdr, 0;
      while i < Increase(s)
        invariant 0 <= i <= Increase(s) && ptr == base + hdr + i * blockSize
        invariant Sound() && Grown(l0, l)
        invariant forall b | b in flags && b >= base && b < base + total :: b + Extent(hdr, flags[b]) <= ptr
        invariant HeadersKept(f0, flags)
        invariant freeCount == c0[s := c0[s] + i]
        invariant ListsKept(l0, l, Spot(false, s))
        invariant Spot(false, s) in l.lists && (i > 0 ==> l.lists[Spot(false, s)] != [])
      {
        Fits(blockSize, i, Increase(s));
        ghost var l1 := l;
        SpotsThere(l, Spot(false, s));
        AddEntry(ptr, s);
        PlacedGrown(l0, l1, Spot(false, s), l1.lists[Spot(false, s)] + [Entry(ptr)], Entry(ptr));
        PlacedKept(l0, l1, Spot(false, s), l1.lists[Spot(false, s)] + [Entry(ptr)], Entry(ptr));
        ptr, i := ptr + blockSize, i + 1;
      }
    }

    /** Own a new stretch and put its header on the list of superblocks. */
    method Claim(base: int, required: nat)
      requires Valid() && hdr <= required && NewRegion(owned, Region(base, required))
      modifies this`flags, this`freeCount, this`owned, this`l, links
      ensures freeCount == old(freeCount)
      ensures Sound() && owned == old(owned) + [Region(base, required)] && base !in old(flags)
      ensures Spot(false, 0) in old(l).lists && Entry(base) !in old(l).spot
      ensures l == Placed(old(l), Spot(false, 0), old(l).lists[Spot(false, 0)] + [Entry(base)], Entry(base))
      ensures l.lists[Spot(false, 0)] == Bases(owned)
      ensures flags == old(flags)[base := FlagsOf(0)]
      ensures forall b | b in flags && b >= base && b < base + required :: b + Extent(hdr, flags[b]) <= base + hdr
    {
      hide Tidy, Linked, Laid, Marked, Honest, FlagsOf, Extent, Bases, Counted, Balanced, Topped;
      LaidRegion(hdr, flags, owned, Region(base, required));
      BasesMore(owned, Region(base, required));
      owned := owned + [Region(base, required)];
      Extents(hdr, 1);
      SpotsThere(l, Spot(false, 0));
      AddEntry(base, 0);
    }

    /** Get a superblock of one size class from the system and carve it. */
    method Grow(s: nat)
      requires Valid() && 1 < s < POOLS
      modifies this`flags, this`freeCount, this`poolCount, this`asked, this`owned, this`l, links
      ensures Valid() && Grown(old(l), l)
      ensures HeadersKept(old(flags), flags)
      ensures asked == if Increase(s) > 0 then old(asked) + 1 else old(asked)
      ensures Answers(hdr, sys, old(owned), old(asked), s) ==>
                l.lists[Spot(false, s)] != [] && owned != [] && OtherClasses(old(l), l, s)
      ensures !Answers(hdr, sys, old(owned), old(asked), s) ==>
                l == old(l) && flags == old(flags) && owned == old(owned)
    {
      hide Tidy, Linked, Laid, Marked, Honest, FlagsOf, Extent;
      hide Grown, SuperSize, Increase, Bases, Counted, Balanced, Topped;
      hide ListsKept, OtherClasses;
      GrownSelf(l);
      if Increase(s) > 0 {
        var required := SuperSize(hdr, s);
        var base := sys(asked, owned, required);
        SysHonest(sys, asked, owned, required);
        asked := asked + 1;
        if base != 0 {
          ghost var l0 := l;
          SuperFits(hdr, s);
          Claim(base, required);
          ghost var l1 := l;
          PlacedGrown(l0, l0, Spot(false, 0), l0.lists[Spot(false, 0)] + [Entry(base)], Entry(base));
          BalancedGrown(poolCount, freeCount, usedCount, s);
          poolCount := poolCount[s := poolCount[s] + 1];
          Carve(base, s);
          GrownTwice(l0, l1, l);
          PlacedOther(l0, l1, l, s, Entry(base));
          KeptAt(l1, l, Spot(false, s), Spot(false, 0));
        }
      }
    }

    /** Move a block between the used and the free list of its class. */
    method Move(a: int, ghost p: Spot, q: Spot, ghost i: nat)
      requires Tidy(l) && Linked(l, links.next, links.prev) && Marked(l, flags)
      requires p in l.lists && i < |l.lists[p]| && l.lists[p][i] == Entry(a)
      requires q == Spot(!p.used, p.k) && 0 < p.k < POOLS
      modifies this`l, links
      ensures Tidy(l) && Linked(l, links.next, links.prev) && Marked(l, flags)
      ensures Moved(old(l), l, p, q, i, a)
    {
      hide Tidy, Linked, Marked;
      ghost var l0 := l;
      SpotsThere(l, q);
      SpotOf(l, p, i);
      Lift(a, p, i);
      PutFront(a, q);
      MovedMarked(l0, flags, p, q, l.lists[p], l.lists[q], a);
    }

    /** Give out the first free block of a class. */
    method HandOut(s: nat) returns (a: int)
      requires Valid() && 1 < s < POOLS && Spot(false, s) in l.lists && l.lists[Spot(false, s)] != []
      modifies this`freeCount, this`usedCount, this`maxUsed, this`l, links
      ensures Valid() && a > 0 && a in flags && flags[a] == FlagsOf(s)
      ensures a !in old(Live()) && Live() == old(Live()) + {a} && OtherClasses(old(l), l, s)
      ensures forall k | 0 <= k < POOLS ::
                maxUsed[k] == if old(maxUsed)[k] < usedCount[k] then usedCount[k] else old(maxUsed)[k]
    {
      hide Tidy, Linked, Laid, Marked, Honest, FlagsOf, Bases, Counted, Balanced, LiveIn;
      var p, q := Spot(false, s), Spot(true, s);
      ghost var l0, t := l, l.lists[p];
      SpotsThere(l, q);
      FirstIs(l, links.next, links.prev, p);
      FirstEntry(hdr, l, flags, owned, p);
      var e := links.next[FreeHead(s)];
      a := e.addr;
      SpotOf(l, p, 0);
      Move(a, p, q, 0);
      CountedMoved(l0, l, freeCount, usedCount, p, q, 0, a);
      BalancedMoved(poolCount, freeCount, usedCount, s);
      freeCount := freeCount[s := freeCount[s] - 1];
      usedCount := usedCount[s := usedCount[s] + 1];
      if usedCount[s] > maxUsed[s] {
        maxUsed := maxUsed[s := usedCount[s]];
      }
      MovedLive(l0, l, flags, p, q, 0, a);
      MovedOther(l0, l, p, q, 0, a);
    }

    /** A block of one class: a free one if there is any, else one of a new superblock. */
    method TakeBlock(s: nat) returns (a: int)
      requires Valid() && 1 < s < POOLS
      modifies this`flags, this`freeCount, this`usedCount, this`maxUsed, this`poolCount
      modifies this`asked, this`owned, this`l, links
      ensures Valid() && HeadersKept(old(flags), flags)
      ensures a == 0 <==> !Gives(hdr, sys, old(l), old(owned), old(asked), s)
      ensures a == 0 ==> l == old(l) && flags == old(flags) && owned == old(owned)
      ensures a == 0 ==> asked == if Increase(s) > 0 then old(asked) + 1 else old(asked)
      ensures a != 0 ==> OtherClasses(old(l), l, s) && (!Stocked(old(l), s) ==> owned != [])
      ensures a != 0 ==> a > 0 && a in flags && flags[a] == FlagsOf(s)
      ensures a != 0 ==> a !in old(Live()) && Live() == old(Live()) + {a}
      ensures old(l).lists[Spot(false, s)] != [] ==> owned == old(owned) && flags == old(flags)
    {
      hide Tidy, Linked, Laid, Marked, Honest, FlagsOf, Bases;
      hide Grown, Counted, Balanced, Topped, LiveIn, Answers, OtherClasses;
      ghost var start := l;
      OtherSelf(l, s);
      SpotsThere(l, Spot(false, s));
      RingOf(l, links.next, links.prev, Spot(false, s));
      var none := links.IsEmpty(FreeHead(s), l.lists[Spot(false, s)]);
      if none {
        ghost var l0, f0 := l, flags;
        Grow(s);
        GrownLive(l0, f0, l, flags);
      }
      SpotsThere(l, Spot(false, s));
      RingOf(l, links.next, links.prev, Spot(false, s));
      none := links.IsEmpty(FreeHead(s), l.lists[Spot(false, s)]);
      if none {
        a := 0;
      } else {
        ghost var l1 := l;
        a := HandOut(s);
        OtherTwice(start, l1, l, s);
      }
    }

    /** Take a block back; a block that is not in use is left as it is. */
    method PutAway(a: int)
      requires Valid() && a in flags && IsBlock(flags[a])
      modifies this`freeCount, this`usedCount, this`l, links
      ensures Valid() && Live() == old(Live()) - {a}
      ensures a !in old(Live()) ==> unchanged(this) && unchanged(links)
    {
      hide Tidy, Linked, Laid, Marked, Honest, FlagsOf, Bases, Counted, Balanced, Topped, LiveIn, IsBlock, SizeClass;
      var s := SizeClass(flags[a]);
      BlockSpot(l, flags, a);
      var p, q := Spot(true, s), Spot(false, s);
      SpotsThere(l, p);
      SpotsThere(l, q);
      RingOf(l, links.next, links.prev, p);
      ghost var l0 := l;
      var found := links.Contains(Entry(a), UsedHead(s), l.lists[p]);
      ListedWhere(l, flags, a, p);
      if found {
        ghost var i :| 0 <= i < |l.lists[p]| && l.lists[p][i] == Entry(a);
        Move(a, p, q, i);
        CountedMoved(l0, l, freeCount, usedCount, p, q, i, a);
        BalancedMoved(poolCount, freeCount, usedCount, s);
        ToppedLess(maxUsed, usedCount, s);
        usedCount := usedCount[s := usedCount[s] - 1];
        freeCount := freeCount[s := freeCount[s] + 1];
        MovedLive(l0, l, flags, p, q, i, a);
      } else {
        assert Live() == Live() - {a};
      }
    }

    /** A payload of at least the asked size, from the smallest class that can give one; none, exactly if
        nothing is asked for or no class can. */
    method Malloc(size: nat) returns (ptr: int)
      requires Valid()
      modifies this`flags, this`freeCount, this`usedCount, this`maxUsed, this`poolCount
      modifies this`asked, this`owned, this`l, links
      ensures Valid() && HeadersKept(old(flags), flags)
      ensures ptr == 0 <==> size == 0 || NoClassServes(hdr, sys, old(l), old(owned), old(asked), size)
      ensures ptr == 0 ==> l == old(l) && flags == old(flags) && owned == old(owned)
      ensures ptr != 0 ==> ptr > hdr && Holds(flags, ptr - hdr, size)
      ensures ptr != 0 ==> ptr - hdr !in old(View()) && ptr - hdr in View() && View() - {ptr - hdr} == old(View())
      ensures ptr != 0 ==>
                var s := Serving(hdr, sys, old(l), old(owned), old(asked), size, 3);
                && s < POOLS && flags[ptr - hdr] == FlagsOf(s) && OtherClasses(old(l), l, s)
                && (!Stocked(old(l), s) ==> owned != [])
    {
      hide Tidy, Linked, Laid, Marked, Honest, FlagsOf, Bases;
      hide Counted, Balanced, Topped, LiveIn, HeadersKept, Holds, Pow2;
      hide ViewIn, OtherClasses, Gives;
      ghost var l0, f0 := l, flags;
      ghost var first := Serving(hdr, sys, l, owned, asked, size, 3);
      HeadersSelf(flags);
      var i := 3;
      while i < POOLS && size > 0
        invariant 3 <= i <= POOLS
        invariant Valid() && l == old(l) && flags == old(flags) && owned == old(owned)
        invariant first == Serving(hdr, sys, l, owned, asked, size, i)
      {
        var s := Pow2(i);
        if size <= s {
          var a := TakeBlock(i);
          if a != 0 {
            BlockHolds(flags, a, i, size);
            ViewMore(hdr, l0, f0, l, flags, mem, a);
            return a + hdr;
          }
        }
        i := i + 1;
      }
      return 0;
    }

    /** Give a payload back; anything that is not a payload in use is left alone. */
    method Free(ptr: int)
      requires Valid()
      modifies this`freeCount, this`usedCount, this`l, links
      ensures Valid() && View() == old(View()) - {ptr - hdr}
      ensures ptr - hdr !in old(View()) ==> unchanged(this) && unchanged(links)
    {
      hide Tidy, Linked, Laid, Marked, Honest, FlagsOf, Bases, Counted, Balanced, Topped, LiveIn, IsBlock, ViewIn;
      LiveBlocks(hdr, l, flags, owned, ptr - hdr);
      ghost var l0 := l;
      if ptr != 0 && ptr - hdr in flags && IsBlock(flags[ptr - hdr]) {
        PutAway(ptr - hdr);
      } else {
        assert Live() == Live() - {ptr - hdr};
      }
      ViewLess(hdr, l0, l, flags, mem, ptr - hdr);
    }

    /** Copy the whole payload of one block to another block's, which is larger. */
    method CopyTo(to: int, from: int, n: nat)
      requires Valid() && Ours(flags, from - hdr) && n == Pow2(SizeClass(flags[from - hdr]))
      requires to - hdr in View() && Holds(flags, to - hdr, n + 1)
      modifies this`mem
      ensures Valid() && to != from && to - hdr in View() && View() - {to - hdr} == old(View()) - {to - hdr}
      ensures Octets(old(mem), from, n) <= View()[to - hdr]
    {
      hide Tidy, Linked, Laid, Marked, Honest, Bases, Counted, Balanced;
      hide Topped, LiveIn, IsBlock, ViewIn, Pow2, SizeClass, Octets, Copied;
      ghost var m0 := mem;
      OtherBlock(hdr, flags, owned, to - hdr, from - hdr, n + 1, n);
      mem := Copied(mem, to, from, n);
      CopyView(hdr, l, flags, owned, m0, to - hdr, from - hdr, n);
    }

    /** A payload with more room and the same contents; the old one is given back even when there is none. */
    method Resize(ptr: int, size: nat) returns (newPtr: int)
      requires Valid() && ptr != 0 && Ours(flags, ptr - hdr) && Pow2(SizeClass(flags[ptr - hdr])) < size
      modifies this, links
      ensures Valid() && HeadersKept(old(flags), flags)
      ensures newPtr == 0 <==> NoClassServes(hdr, sys, old(l), old(owned), old(asked), size)
      ensures newPtr == 0 ==> View() == old(View()) - {ptr - hdr}
      ensures newPtr != 0 ==> newPtr > hdr && Holds(flags, newPtr - hdr, size) && newPtr - hdr !in old(View())
      ensures newPtr != ptr
      ensures newPtr != 0 ==> newPtr - hdr in View() && View() - {newPtr - hdr} == old(View()) - {ptr - hdr}
      ensures newPtr != 0 ==> Octets(old(mem), ptr, Pow2(SizeClass(old(flags)[ptr - hdr]))) <= View()[newPtr - hdr]
    {
      hide Tidy, Linked, Laid, Marked, Honest, FlagsOf, Bases, Counted, Balanced, Topped, LiveIn;
      hide HeadersKept, Pow2, SizeClass, ViewIn, Octets, Holds, Ours, NoClassServes, Serving, OtherClasses;
      OursThere(flags, ptr - hdr);
      var was, mySize := ptr - hdr, Pow2(SizeClass(flags[ptr - hdr]));
      ghost var f0, m0, v0 := flags, mem, View();
      newPtr := Malloc(size);
      ghost var a, v1 := newPtr - hdr, View();
      HeaderThere(f0, flags, was);
      if newPtr != 0 {
        HoldsLess(flags, a, size, mySize + 1);
        CopyTo(newPtr, ptr, mySize);
      }
      ghost var v2 := View();
      Free(ptr);
      if newPtr != 0 {
        ViewChain(v0, v1, v2, View(), a, was, Octets(m0, ptr, mySize));
      }
    }

    /** All cases of a resize. A payload in use is lost exactly if it is too small and no class can serve. */
    method Realloc(ptr: int, size: nat) returns (newPtr: int)
      requires Valid()
      modifies this, links
      ensures Valid() && HeadersKept(old(flags), flags)
      ensures ptr == 0 ==>
                (newPtr == 0 <==> size == 0 || NoClassServes(hdr, sys, old(l), old(owned), old(asked), size))
      ensures ptr == 0 && newPtr == 0 ==> View() == old(View())
      ensures ptr == 0 && newPtr != 0 ==>
                && size > 0 && newPtr > hdr && Holds(flags, newPtr - hdr, size)
                && newPtr - hdr !in old(View()) && newPtr - hdr in View() && View() - {newPtr - hdr} == old(View())
      ensures ptr != 0 && !Ours(old(flags), ptr - hdr) ==> newPtr == 0 && unchanged(this) && unchanged(links)
      ensures ptr != 0 && Holds(old(flags), ptr - hdr, size) ==> newPtr == ptr && unchanged(this) && unchanged(links)
      ensures ptr != 0 && Ours(old(flags), ptr - hdr) && !Holds(old(flags), ptr - hdr, size) ==>
                && newPtr != ptr
                && (newPtr == 0 <==> NoClassServes(hdr, sys, old(l), old(owned), old(asked), size))
                && (newPtr == 0 ==> View() == old(View()) - {ptr - hdr})
                && (newPtr != 0 ==>
                      && newPtr > hdr && Holds(flags, newPtr - hdr, size) && newPtr - hdr !in old(View())
                      && newPtr - hdr in View() && View() - {newPtr - hdr} == old(View()) - {ptr - hdr}
                      && Octets(old(mem), ptr, Pow2(SizeClass(old(flags)[ptr - hdr]))) <= View()[newPtr - hdr])
    {
      hide Tidy, Linked, Laid, Marked, Honest, FlagsOf, Bases, Counted, Balanced, Topped, LiveIn;
      hide HeadersKept, Pow2, IsBlock, SizeClass, ViewIn, Octets, NoClassServes, Serving, OtherClasses;
      HeadersSelf(flags);
      if ptr != 0 {
        if !(ptr - hdr in flags && IsBlock(flags[ptr - hdr])) {
          return 0;
        }
        var mySize := Pow2(SizeClass(flags[ptr - hdr]));
        if mySize < size {
          newPtr := Resize(ptr, size);
        } else {
          newPtr := ptr;
        }
      } else if size > 0 {
        newPtr := Malloc(size);
      } else {
        newPtr := 0;
      }
    }

    /** Compare the counters of one size class with its lists and with each other. */
    method DiagnoseClass(i: nat) returns (complaints: nat)
      requires Tidy(l) && Linked(l, links.next, links.prev) && i < POOLS
      requires |freeCount| == |usedCount| == |poolCount| == POOLS
      ensures complaints == 0 <==> Agree(l, poolCount, freeCount, usedCount, i)
    {
      hide Tidy, Linked, Increase, Ring;
      complaints := 0;
      SpotsThere(l, Spot(false, i));
      RingOf(l, links.next, links.prev, Spot(false, i));
      var count := links.Count(FreeHead(i), l.lists[Spot(false, i)]);
      if freeCount[i] != count {
        complaints := complaints + 1;
      }
      SpotsThere(l, Spot(true, i));
      RingOf(l, links.next, links.prev, Spot(true, i));
      count := links.Count(UsedHead(i), l.lists[Spot(true, i)]);
      if usedCount[i] != count {
        complaints := complaints + 1;
      }
      count := poolCount[i] * Increase(i);
      if count != freeCount[i] + usedCount[i] {
        complaints := complaints + 1;
      }
    }

    /** The diagnosis has no complaint exactly when all counters agree. */
    method Diagnose() returns (complaints: nat)
      requires Tidy(l) && Linked(l, links.next, links.prev)
      requires |freeCount| == |usedCount| == |poolCount| == POOLS
      ensures complaints == 0 <==> Counted(l, freeCount, usedCount) && Balanced(poolCount, freeCount, usedCount)
    {
      hide Tidy, Linked, Agree, Counted, Balanced;
      complaints := 0;
      var i := 1;
      while i < POOLS
        invariant 1 <= i <= POOLS
        invariant complaints == 0 <==> forall k | 1 <= k < i :: Agree(l, poolCount, freeCount, usedCount, k)
      {
        var more := DiagnoseClass(i);
        complaints := complaints + more;
        i := i + 1;
      }
      AllAgree(l, poolCount, freeCount, usedCount);
    }

    /** Take the superblocks off their list one by one. */
    method ReleaseSupers(ghost all: seq<Node>) returns (released: seq<int>)
      requires Ring(links.next, links.prev, FreeHead(0), all) && forall i | 0 <= i < |all| :: all[i].Entry?
      modifies links
      ensures |released| == |all| && forall i | 0 <= i < |released| :: released[i] == all[i].addr
    {
      hide Ring, SameElsewhere, Members;
      released := [];
      ghost var rest := all;
      var none := links.IsEmpty(FreeHead(0), rest);
      while !none
        invariant |released| <= |all| && rest == all[|released|..] && Ring(links.next, links.prev, FreeHead(0), rest)
        invariant none <==> rest == []
        invariant forall i | 0 <= i < |released| :: released[i] == all[i].addr
        decreases |rest|
      {
        RingEnds(links.next, links.prev, FreeHead(0), rest);
        var e := links.next[FreeHead(0)];
        links.Del(e, FreeHead(0), rest, 0);
        assert rest[..0] + rest[1..] == rest[1..];
        rest := rest[1..];
        released := released + [e.addr];
        none := links.IsEmpty(FreeHead(0), rest);
      }
    }

    /** Hand every superblock back to the system, each once, and start over. */
    method FreeAll() returns (released: seq<int>)
      requires Valid()
      modifies this, links
      ensures Valid() && View() == map[] && owned == [] && flags == map[]
      ensures |released| == |old(owned)| && forall i | 0 <= i < |released| :: released[i] == old(owned)[i].base
    {
      hide Tidy, Linked, Laid, Marked, Honest, Counted, Balanced, Topped, Ring, NoLists, ViewIn;
      RingOf(l, links.next, links.prev, Spot(false, 0));
      released := ReleaseSupers(l.lists[Spot(false, 0)]);
      flags, owned := map[], [];
      InitAll();
      NothingSeen(hdr, mem);
    }

    /** A client stores one octet in a payload it holds. */
    method Store(ptr: int, i: nat, v: byte)
      requires Valid() && ptr - hdr in View() && i < |View()[ptr - hdr]|
      modifies this`mem
      ensures Valid() && View() == old(View())[ptr - hdr := PutAt(old(View())[ptr - hdr], i, v)]
    {
      hide Tidy, Linked, Laid, Marked, Honest, Bases, Counted, Balanced, Topped, LiveIn, ViewIn, Stored;
      StoreView(hdr, l, flags, owned, mem, ptr - hdr, i, v);
      mem := Stored(mem, ptr + i, v);
    }

    /** Serve a resize request as clients are told. */
    method ServeRealloc(p: int, size: nat, ghost book: map<int, nat>) returns (ptr: int, ghost given: bytes)
      requires Valid() && Kept(Client(book, View()))
      modifies this, links
      ensures Valid()
      ensures Answered(hdr, old(View()), ReallocReq(p, size), Reply(ptr, given))
      ensures View() == Follow(hdr, Client(book, old(View())), ReallocReq(p, size), Reply(ptr, given)).view
    {
      hide Tidy, Linked, Laid, Marked, Honest, Bases, Counted;
      hide Balanced, Topped, LiveIn, ViewIn, Pow2, SizeClass, IsBlock;
      hide HeadersKept, Holds, Octets, NoClassServes, Serving, Ours, Kept;
      ghost var v0 := View();
      ViewSizes(hdr, l, flags, owned, mem, p - hdr, size);
      ptr := Realloc(p, size);
      given := [];
      if ptr != 0 && ptr != p {
        given := View()[ptr - hdr];
        ViewSizes(hdr, l, flags, owned, mem, ptr - hdr, size);
        ViewAdded(if p == 0 then v0 else v0 - {p - hdr}, View(), ptr - hdr);
      } else if ptr == 0 && p != 0 {
        assert p - hdr !in v0 ==> v0 - {p - hdr} == v0;
      }
    }

    /** Serve one request: an allocation, a release, a resize, or a store a client makes to what it holds. */
    method Serve(r: Request, book: map<int, nat>) returns (ptr: int, ghost given: bytes)
      requires Valid() && Kept(Client(book, View()))
      modifies this, links
      ensures Valid() && Answered(hdr, old(View()), r, Reply(ptr, given))
      ensures View() == Follow(hdr, Client(book, old(View())), r, Reply(ptr, given)).view
    {
      hide Tidy, Linked, Laid, Marked, Honest, Bases, Counted, Balanced, Topped, LiveIn, ViewIn;
      hide HeadersKept, Holds, NoClassServes, Serving, OtherClasses, Stocked, FlagsOf;
      ghost var v0 := View();
      ptr, given := 0, [];
      match r {
        case MallocReq(size) =>
          ptr := Malloc(size);
          if ptr != 0 {
            given := View()[ptr - hdr];
            ViewSizes(hdr, l, flags, owned, mem, ptr - hdr, size);
            ViewAdded(v0, View(), ptr - hdr);
          }
        case FreeReq(p) =>
          Free(p);
        case ReallocReq(p, size) =>
          ptr, given := ServeRealloc(p, size, book);
        case StoreReq(p, i, b) =>
          if p - hdr in book && i < book[p - hdr] {
            Store(p, i, b);
          }
      }
    }

    /** Any run of requests: what clients see is what their own record of requests and answers says, all
        payloads lie apart in owned memory, and the diagnosis afterwards finds nothing. */
    method Run(rs: seq<Request>, before: map<int, nat>)
      returns (complaints: nat, book: map<int, nat>, ghost replies: seq<Reply>)
      requires Valid() && Kept(Client(before, View()))
      modifies this, links
      ensures Valid() && complaints == 0
      ensures |replies| == |rs| && AllAnswered(hdr, Client(before, old(View())), rs, replies)
      ensures Client(book, View()) == Followed(hdr, Client(before, old(View())), rs, replies)
      ensures Kept(Client(book, View()))
      ensures forall a | a in View() :: Separate(hdr, flags, owned, View().Keys, a)
    {
      hide Tidy, Linked, Laid, Marked, Honest, Bases, Counted, Balanced, Topped, LiveIn, ViewIn, Follow, Answered;
      hide Separate, Kept;
      ghost var c0 := Client(before, View());
      book, replies := before, [];
      var i := 0;
      while i < |rs|
        invariant 0 <= i <= |rs| == |rs[..i]| + (|rs| - i)
        invariant Valid() && Kept(Client(book, View()))
        invariant |replies| == i && AllAnswered(hdr, c0, rs[..i], replies)
        invariant Client(book, View()) == Followed(hdr, c0, rs[..i], replies)
      {
        ghost var c := Client(book, View());
        var ptr, given := Serve(rs[i], book);
        FollowMore(hdr, c0, rs[..i], replies, rs[i], Reply(ptr, given));
        FollowKept(hdr, c, rs[i], Reply(ptr, given));
        FollowBook(hdr, c, rs[i], Reply(ptr, given));
        assert rs[..i + 1] == rs[..i] + [rs[i]];
        book := Booked(hdr, book, rs[i], ptr);
        replies := replies + [Reply(ptr, given)];
        i := i + 1;
      }
      assert rs[..i] == rs;
      forall a | a in View()
        ensures Separate(hdr, flags, owned, View().Keys, a)
      {
        LiveSeparate(hdr, l, flags, owned, a);
      }
      CounterLengths(l, poolCount, freeCount, usedCount);
      complaints := Diagnose();
    }

    /** What the clients see: the contents of every payload in use. */
    ghost function View(): map<int, seq<byte>>
      reads this
    {
      ViewIn(hdr, l, flags, mem)
    }
  }

  /** The next block still fits its superblock. */
  lemma Fits(bs: nat, i: nat, n: nat)
    requires i < n
    ensures i * bs + bs <= bs * n && (i + 1) * bs == i * bs + bs
  {
  }

  lemma SuperFits(hdr: nat, s: nat)
    requires s < POOLS
    ensures hdr <= SuperSize(hdr, s)
  {
  }

  lemma GrownTwice(a: Lists, b: Lists, c: Lists)
    requires Grown(a, b) && Grown(b, c)
    ensures Grown(a, c)
  {
  }

  lemma SpotsThere(l: Lists, p: Spot)
    requires Tidy(l) && p.k < POOLS
    ensures p in l.lists
  {
  }

  lemma GrownSelf(l: Lists)
    ensures Grown(l, l)
  {
  }

  lemma SysHonest(sys: System, n: nat, owned: seq<Region>, size: nat)
    requires Honest(sys)
    ensures sys(n, owned, size) == 0 || NewRegion(owned, Region(sys(n, owned, size), size))
  {
  }

  lemma Extents(hdr: nat, s: nat)
    requires 0 < s < POOLS
    ensures Extent(hdr, FlagsOf(0)) == hdr && Extent(hdr, FlagsOf(s)) == hdr + Pow2(s)
  {
    FlagsTell(0);
    FlagsTell(s);
  }

  lemma Balance(c: int, n: nat)
    ensures (c + 1) * n == c * n + n
  {
  }

  lemma NotListed(l: Lists, p: Spot, a: int)
    requires Tidy(l) && p in l.lists && Entry(a) !in l.spot
    ensures Entry(a) !in l.lists[p] && Entry(a) != HeadOf(p)
  {
  }

  lemma PlacedMarked(l: Lists, flags: map<int, int>, p: Spot, s: seq<Node>, a: int)
    requires Marked(l, flags) && p in l.lists && !p.used && Entry(a) !in l.spot
    ensures Marked(Placed(l, p, s, Entry(a)), flags[a := FlagsOf(p.k)])
  {
    hide FlagsOf;
  }

  /** What growing the pool leaves alone: everything already on a list, and the used lists. */
  ghost predicate Grown(l: Lists, l': Lists) {
    && (forall e | e in l.spot :: e in l'.spot && l'.spot[e] == l.spot[e])
    && (forall e | e in l'.spot && e !in l.spot :: !l'.spot[e].used)
    && (forall p | p in l.lists && p.used :: p in l'.lists && l'.lists[p] == l.lists[p])
  }

  lemma PlacedGrown(l0: Lists, l: Lists, p: Spot, s: seq<Node>, e: Node)
    requires Grown(l0, l) && !p.used && e !in l.spot
    ensures Grown(l0, Placed(l, p, s, e))
  {
  }

  /** One block has gone from position i of one list to the front of another. */
  ghost predicate Moved(l: Lists, l': Lists, p: Spot, q: Spot, i: nat, a: int)
    requires p in l.lists && q.k == p.k && i < |l.lists[p]|
  {
    && q in l.lists
    && l'.lists == l.lists[p := l.lists[p][..i] + l.lists[p][i + 1..]][q := [Entry(a)] + l.lists[q]]
    && l'.spot == l.spot[Entry(a) := q]
  }

  lemma SpotOf(l: Lists, p: Spot, i: nat)
    requires Tidy(l) && p in l.lists && i < |l.lists[p]|
    ensures l.lists[p][i] in l.spot && l.spot[l.lists[p][i]] == p
  {
  }

  lemma MovedMarked(l: Lists, flags: map<int, int>, p: Spot, q: Spot, t: seq<Node>, s: seq<Node>, a: int)
    requires Marked(l, flags) && p in l.lists && q in l.lists && p.k == q.k > 0
    requires Entry(a) in l.spot && l.spot[Entry(a)] == p
    ensures Marked(Placed(Lifted(l, p, t, Entry(a)), q, s, Entry(a)), flags)
  {
    hide FlagsOf;
  }

  lemma RingOf(l: Lists, next: map<Node, Node>, prev: map<Node, Node>, p: Spot)
    requires Linked(l, next, prev) && p in l.lists
    ensures Ring(next, prev, HeadOf(p), l.lists[p])
  {
  }

  lemma FirstIs(l: Lists, next: map<Node, Node>, prev: map<Node, Node>, p: Spot)
    requires Linked(l, next, prev) && p in l.lists && l.lists[p] != []
    ensures HeadOf(p) in next && next[HeadOf(p)] == l.lists[p][0]
  {
    RingEnds(next, prev, HeadOf(p), l.lists[p]);
  }

  lemma FirstEntry(hdr: nat, l: Lists, flags: map<int, int>, owned: seq<Region>, p: Spot)
    requires Tidy(l) && Marked(l, flags) && Laid(hdr, flags, owned) && p in l.lists && l.lists[p] != []
    ensures l.lists[p][0].Entry? && l.lists[p][0].addr > 0
    ensures l.lists[p][0].addr in flags && flags[l.lists[p][0].addr] == FlagsOf(p.k)
  {
    hide FlagsOf, Extent;
    SpotOf(l, p, 0);
    var a := l.lists[p][0].addr;
    assert Entry(a) == l.lists[p][0];
    var i :| 0 <= i < |owned| && Inside(a, Extent(hdr, flags[a]), owned[i]);
  }

  /** The blocks on the used lists. */
  ghost function LiveIn(l: Lists, flags: map<int, int>): (r: set<int>)
    ensures forall a | a in r :: a in flags
  {
    set a | a in flags && Entry(a) in l.spot && l.spot[Entry(a)].used :: a
  }

  lemma MovedLive(l: Lists, l': Lists, flags: map<int, int>, p: Spot, q: Spot, i: nat, a: int)
    requires p in l.lists && p.k == q.k && p.used != q.used && i < |l.lists[p]| && Moved(l, l', p, q, i, a)
    requires a in flags && Entry(a) in l.spot && l.spot[Entry(a)] == p
    ensures LiveIn(l', flags) == if q.used then LiveIn(l, flags) + {a} else LiveIn(l, flags) - {a}
    ensures a in LiveIn(l, flags) <==> p.used
  {
  }

  ghost predicate HeadersKept(flags: map<int, int>, flags': map<int, int>) {
    forall a | a in flags :: a in flags' && flags'[a] == flags[a]
  }

  lemma GrownLive(l: Lists, flags: map<int, int>, l': Lists, flags': map<int, int>)
    requires Grown(l, l') && Marked(l, flags) && Marked(l', flags')
    ensures LiveIn(l', flags') == LiveIn(l, flags)
  {
    hide FlagsOf;
  }

  /** A header says which list its block may be on. */
  lemma BlockSpot(l: Lists, flags: map<int, int>, a: int)
    requires Tidy(l) && Marked(l, flags) && a in flags && IsBlock(flags[a])
    ensures Entry(a) in l.spot && l.spot[Entry(a)].k == SizeClass(flags[a]) && 0 < SizeClass(flags[a]) < POOLS
  {
    FlagsTell(l.spot[Entry(a)].k);
  }

  lemma ListedWhere(l: Lists, flags: map<int, int>, a: int, p: Spot)
    requires Tidy(l) && a in flags && Entry(a) in l.spot && l.spot[Entry(a)].k == p.k && p in l.lists && p.used
    ensures Entry(a) in l.lists[p] <==> l.spot[Entry(a)] == p
    ensures a in LiveIn(l, flags) <==> l.spot[Entry(a)] == p
  {
  }

  lemma ToppedLess(most: seq<nat>, used: seq<nat>, s: nat)
    requires Topped(most, used) && s < POOLS
    ensures |used| == POOLS && (used[s] > 0 ==> Topped(most, used[s := used[s] - 1]))
  {
  }

  /** A header of a block whose payload has room for so much. */
  ghost predicate Holds(flags: map<int, int>, a: int, size: nat) {
    a in flags && IsBlock(flags[a]) && size <= Pow2(SizeClass(flags[a]))
  }

  lemma BlockHolds(flags: map<int, int>, a: int, k: nat, size: nat)
    requires a in flags && flags[a] == FlagsOf(k) && 0 < k < POOLS && size <= Pow2(k)
    ensures Holds(flags, a, size)
  {
    FlagsTell(k);
  }

  lemma HeadersSelf(f: map<int, int>)
    ensures HeadersKept(f, f)
  {
  }

  // ---- When a request can be served ----

  /** The class has a free block. */
  predicate Stocked(l: Lists, k: nat) {
    Spot(false, k) in l.lists && l.lists[Spot(false, k)] != []
  }

  /** The system, asked for the n-th time, has memory for a superblock of the class. */
  predicate Answers(hdr: nat, sys: System, owned: seq<Region>, n: nat, k: nat)
    requires k < POOLS
  {
    Increase(k) > 0 && sys(n, owned, SuperSize(hdr, k)) != 0
  }

  predicate Gives(hdr: nat, sys: System, l: Lists, owned: seq<Region>, n: nat, k: nat)
    requires k < POOLS
  {
    Stocked(l, k) || Answers(hdr, sys, owned, n, k)
  }

  /** The first class from k on that is large enough and gives a block. Each class that does not has asked the
      system once more. */
  function Serving(hdr: nat, sys: System, l: Lists, owned: seq<Region>, n: nat, size: nat, k: nat): (r: nat)
    requires k <= POOLS
    ensures k <= r <= POOLS
    decreases POOLS - k
  {
    if k == POOLS then POOLS
    else if size > Pow2(k) then Serving(hdr, sys, l, owned, n, size, k + 1)
    else if Gives(hdr, sys, l, owned, n, k) then k
    else Serving(hdr, sys, l, owned, if Increase(k) > 0 then n + 1 else n, size, k + 1)
  }

  predicate NoClassServes(hdr: nat, sys: System, l: Lists, owned: seq<Region>, n: nat, size: nat) {
    Serving(hdr, sys, l, owned, n, size, 3) == POOLS
  }

  /** One list may change, the others do not. */
  ghost predicate ListsKept(l: Lists, l': Lists, p: Spot) {
    forall q | q in l.lists && q != p :: q in l'.lists && l'.lists[q] == l.lists[q]
  }

  lemma KeptSelf(l: Lists, p: Spot)
    ensures ListsKept(l, l, p)
  {
  }

  lemma KeptAt(l: Lists, l': Lists, p: Spot, q: Spot)
    requires ListsKept(l, l', p) && q in l.lists && q != p
    ensures q in l'.lists && l'.lists[q] == l.lists[q]
  {
  }

  lemma PlacedKept(l0: Lists, l: Lists, p: Spot, s: seq<Node>, e: Node)
    requires ListsKept(l0, l, p)
    ensures ListsKept(l0, Placed(l, p, s, e), p)
  {
  }

  /** The lists of all other size classes are as they were. */
  ghost predicate OtherClasses(l: Lists, l': Lists, s: nat) {
    forall q | q in l.lists && q.k != s && q.k != 0 :: q in l'.lists && l'.lists[q] == l.lists[q]
  }

  lemma OtherSelf(l: Lists, s: nat)
    ensures OtherClasses(l, l, s)
  {
  }

  lemma OtherTwice(a: Lists, b: Lists, c: Lists, s: nat)
    requires OtherClasses(a, b, s) && OtherClasses(b, c, s)
    ensures OtherClasses(a, c, s)
  {
  }

  lemma PlacedOther(l0: Lists, l1: Lists, l: Lists, s: nat, e: Node)
    requires Spot(false, 0) in l0.lists
    requires l1 == Placed(l0, Spot(false, 0), l0.lists[Spot(false, 0)] + [e], e) && ListsKept(l1, l, Spot(false, s))
    ensures OtherClasses(l0, l, s)
  {
  }

  lemma MovedOther(l: Lists, l': Lists, p: Spot, q: Spot, i: nat, a: int)
    requires p in l.lists && p.k == q.k && i < |l.lists[p]| && Moved(l, l', p, q, i, a)
    ensures OtherClasses(l, l', p.k)
  {
  }

  lemma {:induction false} NothingServes(hdr: nat, sys: System, l: Lists, owned: seq<Region>, n: nat, size: nat, k: nat)
    requires k <= POOLS
    requires forall j | k <= j < POOLS && size <= Pow2(j) :: !Stocked(l, j)
    requires forall m: nat, want: nat :: sys(m, owned, want) == 0
    ensures Serving(hdr, sys, l, owned, n, size, k) == POOLS
    decreases POOLS - k
  {
    hide Pow2, Increase, SuperSize;
    if k < POOLS {
      NothingServes(hdr, sys, l, owned, if size <= Pow2(k) && Increase(k) > 0 then n + 1 else n, size, k + 1);
    }
  }

  /** An address the pool recognises: there is a block header in front of it. */
  predicate Ours(flags: map<int, int>, a: int) {
    a in flags && IsBlock(flags[a])
  }

  lemma LiveBlocks(hdr: nat, l: Lists, flags: map<int, int>, owned: seq<Region>, a: int)
    requires Tidy(l) && Marked(l, flags) && Laid(hdr, flags, owned)
    ensures a in LiveIn(l, flags) ==> a > 0 && Ours(flags, a)
  {
    if a in LiveIn(l, flags) {
      var p := l.spot[Entry(a)];
      assert Entry(a) in l.lists[p];
      FlagsTell(p.k);
      var i :| 0 <= i < |owned| && Inside(a, Extent(hdr, flags[a]), owned[i]);
    }
  }

  ghost function Octets(mem: int -> byte, at: int, n: nat): (r: seq<byte>)
    ensures |r| == n
  {
    seq(n, i => mem(at + i))
  }

  function Copied(mem: int -> byte, to: int, from: int, n: nat): int -> byte {
    x => if to <= x < to + n then mem(x - to + from) else mem(x)
  }

  ghost function ViewIn(hdr: nat, l: Lists, flags: map<int, int>, mem: int -> byte): (r: map<int, seq<byte>>)
    ensures r.Keys == LiveIn(l, flags)
  {
    map a | a in LiveIn(l, flags) :: Octets(mem, a + hdr, Pow2(SizeClass(flags[a])))
  }

  lemma ViewMore(hdr: nat, l: Lists, flags: map<int, int>, l': Lists, flags': map<int, int>, mem: int -> byte, a: int)
    requires HeadersKept(flags, flags') && a !in LiveIn(l, flags) && LiveIn(l', flags') == LiveIn(l, flags) + {a}
    ensures a !in ViewIn(hdr, l, flags, mem) && a in ViewIn(hdr, l', flags', mem)
    ensures ViewIn(hdr, l', flags', mem) - {a} == ViewIn(hdr, l, flags, mem)
  {
  }

  lemma ViewLess(hdr: nat, l: Lists, l': Lists, flags: map<int, int>, mem: int -> byte, a: int)
    requires LiveIn(l', flags) == LiveIn(l, flags) - {a}
    ensures ViewIn(hdr, l', flags, mem) == ViewIn(hdr, l, flags, mem) - {a}
  {
  }

  lemma HeaderThere(flags: map<int, int>, flags': map<int, int>, a: int)
    requires HeadersKept(flags, flags') && a in flags
    ensures a in flags' && flags'[a] == flags[a]
  {
  }

  /** Payloads of different blocks do not meet. */
  lemma PayloadsApart(hdr: nat, flags: map<int, int>, owned: seq<Region>, a: int, b: int)
    requires Laid(hdr, flags, owned) && Ours(flags, a) && Ours(flags, b) && a != b
    ensures Apart(a + hdr, Pow2(SizeClass(flags[a])), b + hdr, Pow2(SizeClass(flags[b])))
  {
    assert Apart(a, Extent(hdr, flags[a]), b, Extent(hdr, flags[b]));
  }

  lemma OtherBlock(hdr: nat, flags: map<int, int>, owned: seq<Region>, a: int, b: int, size: nat, n: nat)
    requires Laid(hdr, flags, owned) && Ours(flags, b) && n == Pow2(SizeClass(flags[b])) < size && Holds(flags, a, size)
    ensures a != b && Apart(a + hdr, n, b + hdr, n)
  {
    PayloadsApart(hdr, flags, owned, a, b);
  }

  lemma CopiedElsewhere(mem: int -> byte, to: int, from: int, n: nat, m: nat, at: int, k: nat)
    requires n <= m && Apart(to, m, at, k)
    ensures Octets(Copied(mem, to, from, n), at, k) == Octets(mem, at, k)
  {
  }

  lemma CopiedThere(mem: int -> byte, to: int, from: int, n: nat, m: nat)
    requires n <= m
    ensures Octets(mem, from, n) <= Octets(Copied(mem, to, from, n), to, m)
  {
  }

  /** Copying into one payload leaves the contents of every other as they were. */
  lemma CopyView(hdr: nat, l: Lists, flags: map<int, int>, owned: seq<Region>, mem: int -> byte, a: int, b: int, n: nat)
    requires Tidy(l) && Marked(l, flags) && Laid(hdr, flags, owned) && Ours(flags, b) && n == Pow2(SizeClass(flags[b]))
    requires a in ViewIn(hdr, l, flags, mem) && n <= Pow2(SizeClass(flags[a]))
    ensures var mem' := Copied(mem, a + hdr, b + hdr, n);
            && ViewIn(hdr, l, flags, mem') - {a} == ViewIn(hdr, l, flags, mem) - {a}
            && a in ViewIn(hdr, l, flags, mem') && Octets(mem, b + hdr, n) <= ViewIn(hdr, l, flags, mem')[a]
  {
    hide Tidy, Marked, Laid, Pow2, SizeClass, LiveIn, Octets, Copied, Ours, Apart;
    var mem' := Copied(mem, a + hdr, b + hdr, n);
    LiveBlocks(hdr, l, flags, owned, a);
    CopiedThere(mem, a + hdr, b + hdr, n, Pow2(SizeClass(flags[a])));
    forall c | c in LiveIn(l, flags) && c != a
      ensures Octets(mem', c + hdr, Pow2(SizeClass(flags[c]))) == Octets(mem, c + hdr, Pow2(SizeClass(flags[c])))
    {
      LiveBlocks(hdr, l, flags, owned, c);
      PayloadsApart(hdr, flags, owned, a, c);
      CopiedElsewhere(mem, a + hdr, b + hdr, n, Pow2(SizeClass(flags[a])), c + hdr, Pow2(SizeClass(flags[c])));
    }
  }

  /** A payload comes, takes over contents, and another goes. */
  lemma ViewChain(v0: map<int, seq<byte>>, v1: map<int, seq<byte>>, v2: map<int, seq<byte>>, v3: map<int, seq<byte>>,
                  a: int, b: int, o: seq<byte>)
    requires a != b && a in v1 && v1 - {a} == v0 && a in v2 && v2 - {a} == v1 - {a} && o <= v2[a] && v3 == v2 - {b}
    ensures a in v3 && v3 - {a} == v0 - {b} && o <= v3[a]
  {
    assert v3 - {a} == (v2 - {a}) - {b};
  }

  lemma HoldsLess(flags: map<int, int>, a: int, size: nat, n: nat)
    requires Holds(flags, a, size) && n <= size
    ensures Holds(flags, a, n)
  {
  }

  lemma OursThere(flags: map<int, int>, a: int)
    requires Ours(flags, a)
    ensures a in flags && forall f | HeadersKept(flags, f) :: Ours(f, a)
  {
  }

  /** What the diagnosis looks at for one size class. */
  ghost predicate Agree(l: Lists, pools: seq<nat>, free: seq<nat>, used: seq<nat>, k: nat)
    requires k < POOLS == |pools| == |free| == |used|
  {
    && Spot(false, k) in l.lists && free[k] == |l.lists[Spot(false, k)]|
    && Spot(true, k) in l.lists && used[k] == |l.lists[Spot(true, k)]|
    && pools[k] * Increase(k) == free[k] + used[k]
  }

  lemma NothingSeen(hdr: nat, mem: int -> byte)
    ensures ViewIn(hdr, NoLists(), map[], mem) == map[]
  {
  }

  function PutAt(o: bytes, i: nat, v: byte): (r: bytes)
    requires i < |o|
  {
    o[i := v]
  }

  function Stored(mem: int -> byte, at: int, v: byte): int -> byte {
    x => if x == at then v else mem(x)
  }

  lemma StoredThere(mem: int -> byte, at: int, n: nat, i: nat, v: byte)
    requires i < n
    ensures Octets(Stored(mem, at + i, v), at, n) == PutAt(Octets(mem, at, n), i, v)
  {
  }

  lemma StoredElsewhere(mem: int -> byte, to: int, m: nat, i: nat, v: byte, at: int, n: nat)
    requires i < m && Apart(to, m, at, n)
    ensures Octets(Stored(mem, to + i, v), at, n) == Octets(mem, at, n)
  {
  }

  /** A store shows in the payload it is made to and in no other. */
  lemma StoreView(hdr: nat, l: Lists, flags: map<int, int>, owned: seq<Region>, mem: int -> byte, a: int, i: nat,
                  v: byte)
    requires Tidy(l) && Marked(l, flags) && Laid(hdr, flags, owned)
    requires a in ViewIn(hdr, l, flags, mem) && i < |ViewIn(hdr, l, flags, mem)[a]|
    ensures var w := ViewIn(hdr, l, flags, mem);
            ViewIn(hdr, l, flags, Stored(mem, a + hdr + i, v)) == w[a := PutAt(w[a], i, v)]
  {
    hide Tidy, Marked, Laid, Pow2, SizeClass, LiveIn, Octets, Stored, Ours, Apart;
    var n := Pow2(SizeClass(flags[a]));
    LiveBlocks(hdr, l, flags, owned, a);
    StoredThere(mem, a + hdr, n, i, v);
    forall c | c in LiveIn(l, flags) && c != a
      ensures Octets(Stored(mem, a + hdr + i, v), c + hdr, Pow2(SizeClass(flags[c])))
           == Octets(mem, c + hdr, Pow2(SizeClass(flags[c])))
    {
      LiveBlocks(hdr, l, flags, owned, c);
      PayloadsApart(hdr, flags, owned, a, c);
      StoredElsewhere(mem, a + hdr, n, i, v, c + hdr, Pow2(SizeClass(flags[c])));
    }
  }

  /** A payload lies inside an owned stretch and meets no other payload in use. */
  ghost predicate Separate(hdr: nat, flags: map<int, int>, owned: seq<Region>, live: set<int>, a: int) {
    && a in flags && (forall b | b in live :: b in flags)
    && (exists i :: 0 <= i < |owned| && Inside(a + hdr, Pow2(SizeClass(flags[a])), owned[i]))
    && (forall b | b in live && b != a ::
          Apart(a + hdr, Pow2(SizeClass(flags[a])), b + hdr, Pow2(SizeClass(flags[b]))))
  }

  lemma LiveSeparate(hdr: nat, l: Lists, flags: map<int, int>, owned: seq<Region>, a: int)
    requires Tidy(l) && Marked(l, flags) && Laid(hdr, flags, owned) && a in LiveIn(l, flags)
    ensures Separate(hdr, flags, owned, LiveIn(l, flags), a)
  {
    hide Tidy, Marked, Laid, Pow2, SizeClass, LiveIn, Ours, Apart, Inside;
    LiveBlocks(hdr, l, flags, owned, a);
    PayloadInside(hdr, flags, owned, a);
    forall b | b in LiveIn(l, flags) && b != a
      ensures Apart(a + hdr, Pow2(SizeClass(flags[a])), b + hdr, Pow2(SizeClass(flags[b])))
    {
      LiveBlocks(hdr, l, flags, owned, b);
      PayloadsApart(hdr, flags, owned, a, b);
    }
  }

  lemma FreeLength(l: Lists, free: seq<nat>, used: seq<nat>)
    requires Counted(l, free, used)
    ensures |free| == POOLS
  {
  }

  lemma CounterLengths(l: Lists, pools: seq<nat>, free: seq<nat>, used: seq<nat>)
    requires Balanced(pools, free, used)
    ensures |pools| == |free| == |used| == POOLS
  {
  }

  lemma PayloadInside(hdr: nat, flags: map<int, int>, owned: seq<Region>, a: int)
    requires Laid(hdr, flags, owned) && Ours(flags, a)
    ensures exists i :: 0 <= i < |owned| && Inside(a + hdr, Pow2(SizeClass(flags[a])), owned[i])
  {
    hide Pow2, SizeClass;
    var i :| 0 <= i < |owned| && Inside(a, Extent(hdr, flags[a]), owned[i]);
    assert Inside(a + hdr, Pow2(SizeClass(flags[a])), owned[i]);
  }

  lemma AllAgree(l: Lists, pools: seq<nat>, free: seq<nat>, used: seq<nat>)
    requires |pools| == |free| == |used| == POOLS
    ensures Counted(l, free, used) && Balanced(pools, free, used) <==>
              forall k | 1 <= k < POOLS :: Agree(l, pools, free, used, k)
  {
    hide Increase;
    if forall k | 1 <= k < POOLS :: Agree(l, pools, free, used, k) {
      forall k | 1 <= k < POOLS
        ensures Spot(false, k) in l.lists && free[k] == |l.lists[Spot(false, k)]|
        ensures Spot(true, k) in l.lists && used[k] == |l.lists[Spot(true, k)]|
        ensures pools[k] * Increase(k) == free[k] + used[k]
      {
        assert Agree(l, pools, free, used, k);
      }
    }
  }

  /** A system with memory for one superblock. */
  function OneStretch(): System {
    (n: nat, owned: seq<Region>, size: nat) => if owned == [] then 4096 else 0
  }

  lemma OneStretchHonest()
    ensures Honest(OneStretch())
  {
  }

  lemma FirstServes()
    ensures Serving(16, OneStretch(), NoLists(), [], 0, 8, 3) == 3 && !Stocked(NoLists(), 3)
  {
    assert Pow2(1) == 2 && Pow2(3) == 8;
  }

  method FirstEight(mem: int -> byte) returns (pool: Pool, p: int)
    ensures fresh(pool) && fresh(pool.links) && pool.Valid() && pool.hdr == 16 && pool.sys == OneStretch()
    ensures p != 0 && pool.View().Keys == {p - 16} && Ours(pool.flags, p - 16) && !Holds(pool.flags, p - 16, 9)
    ensures NoClassServes(16, OneStretch(), pool.l, pool.owned, pool.asked, 9)
  {
    hide Tidy, Linked, Laid, Marked, Honest, Bases, Counted;
    hide Balanced, Topped, LiveIn, ViewIn, OneStretch, NoLists, Gives;
    hide HeadersKept, Ours, Holds, FlagsOf, Stocked, OtherClasses, Pow2, Serving;
    OneStretchHonest();
    FirstServes();
    pool := new Pool(16, OneStretch(), mem);
    p := pool.Malloc(8);
    OnlyOne(pool.View(), p - 16);
    StillNothing(pool.l);
    OnlyEight(pool.flags, p - 16);
    Refuses(pool.owned);
    NothingServes(16, OneStretch(), pool.l, pool.owned, pool.asked, 9, 3);
  }

  lemma OnlyOne(v: map<int, seq<byte>>, a: int)
    requires a in v && v - {a} == map[]
    ensures v.Keys == {a}
  {
    assert forall x | x in v && x != a :: x in v - {a};
  }

  /** A payload lost to a resize: eight octets are allocated, nine are asked for, and the system has nothing more.
      The answer is none, and what was held is gone. */
  method LossExample(mem: int -> byte) returns (pool: Pool, p: int, q: int, ghost held: set<int>)
    ensures p != 0 && held == {p - 16} && q == 0 && pool.View() == map[]
  {
    hide Tidy, Linked, Laid, Marked, Honest, Bases, Counted, Balanced, Topped, LiveIn, ViewIn, OneStretch;
    hide HeadersKept, Ours, Holds, FlagsOf, NoClassServes, Octets;
    pool, p := FirstEight(mem);
    held := pool.View().Keys;
    ghost var v := pool.View();
    q := pool.Realloc(p, 9);
    assert v - {p - 16} == map[];
  }

  lemma OnlyEight(flags: map<int, int>, a: int)
    requires a in flags && flags[a] == FlagsOf(3)
    ensures Ours(flags, a) && !Holds(flags, a, 9)
  {
    FlagsTell(3);
    assert Pow2(1) == 2 && Pow2(3) == 8;
  }

  lemma Refuses(owned: seq<Region>)
    requires owned != []
    ensures forall m: nat, want: nat :: OneStretch()(m, owned, want) == 0
  {
  }

  lemma StillNothing(l: Lists)
    requires OtherClasses(NoLists(), l, 3)
    ensures forall j | 3 <= j < POOLS && 9 <= Pow2(j) :: !Stocked(l, j)
  {
    hide Pow2;
    assert Pow2(3) == 8 by { EightIs(); }
    forall j | 3 <= j < POOLS && 9 <= Pow2(j)
      ensures !Stocked(l, j)
    {
      assert j != 3;
      assert Spot(false, j) in AllSpots();
      assert Spot(false, j) in NoLists().lists && NoLists().lists[Spot(false, j)] == [];
    }
  }

  lemma EightIs()
    ensures Pow2(3) == 8
  {
    assert Pow2(1) == 2;
  }

  // ---- The clients' own record ----

  datatype Request =
    | MallocReq(size: nat)
    | FreeReq(ptr: int)
    | ReallocReq(ptr: int, size: nat)
    | StoreReq(ptr: int, i: nat, b: byte)

  /** The address answered, and what a payload holds as it is handed out. */
  datatype Reply = Reply(ptr: int, given: bytes)

  /** What clients hold: how much they asked for, and what they find there. */
  datatype Client = Client(book: map<int, nat>, view: map<int, seq<byte>>)

  /** Every payload held has room for what was asked. */
  ghost predicate Kept(c: Client) {
    c.book.Keys == c.view.Keys && forall a | a in c.book :: c.book[a] <= |c.view[a]|
  }

  /** What clients may rely on in an answer: a new payload is one nobody holds, it is large enough, and after a
      resize it begins with what the old one held; a payload is given up in a resize only if it was too small. */
  ghost predicate Answered(hdr: nat, v: map<int, seq<byte>>, r: Request, a: Reply) {
    match r
    case MallocReq(size) => a.ptr != 0 ==> a.ptr - hdr !in v && size <= |a.given|
    case FreeReq(_) => true
    case ReallocReq(p, size) =>
      if a.ptr == p then p != 0 && p - hdr in v ==> size <= |v[p - hdr]|
      else if a.ptr == 0 then p - hdr in v ==> |v[p - hdr]| < size
      else
        && a.ptr - hdr !in v && size <= |a.given|
        && (p != 0 && p - hdr in v ==> v[p - hdr] <= a.given)
    case StoreReq(_, _, _) => true
  }

  function Booked(hdr: nat, book: map<int, nat>, r: Request, ptr: int): map<int, nat> {
    match r
    case MallocReq(size) => if ptr == 0 then book else book[ptr - hdr := size]
    case FreeReq(p) => book - {p - hdr}
    case ReallocReq(p, size) =>
      if ptr == p then (if p != 0 && p - hdr in book then book[p - hdr := size] else book)
      else if ptr == 0 then book - {p - hdr}
      else (if p == 0 then book else book - {p - hdr})[ptr - hdr := size]
    case StoreReq(_, _, _) => book
  }

  function Seen(hdr: nat, c: Client, r: Request, a: Reply): map<int, seq<byte>> {
    var v := c.view;
    match r
    case MallocReq(_) => if a.ptr == 0 then v else v[a.ptr - hdr := a.given]
    case FreeReq(p) => v - {p - hdr}
    case ReallocReq(p, _) =>
      if a.ptr == p then v
      else if a.ptr == 0 then v - {p - hdr}
      else (if p == 0 then v else v - {p - hdr})[a.ptr - hdr := a.given]
    case StoreReq(p, i, b) =>
      if p - hdr in c.book && i < c.book[p - hdr] && p - hdr in v && i < |v[p - hdr]|
      then v[p - hdr := PutAt(v[p - hdr], i, b)] else v
  }

  /** What clients hold after one request and its answer. */
  function Follow(hdr: nat, c: Client, r: Request, a: Reply): Client {
    Client(Booked(hdr, c.book, r, a.ptr), Seen(hdr, c, r, a))
  }

  function Followed(hdr: nat, c: Client, rs: seq<Request>, answers: seq<Reply>): Client
    requires |rs| == |answers|
  {
    if rs == [] then c
    else
      var n := |rs| - 1;
      Follow(hdr, Followed(hdr, c, rs[..n], answers[..n]), rs[n], answers[n])
  }

  ghost predicate AllAnswered(hdr: nat, c: Client, rs: seq<Request>, answers: seq<Reply>)
    requires |rs| == |answers|
  {
    forall k | 0 <= k < |rs| :: Answered(hdr, Followed(hdr, c, rs[..k], answers[..k]).view, rs[k], answers[k])
  }

  lemma FollowMore(hdr: nat, c: Client, rs: seq<Request>, answers: seq<Reply>, r: Request, a: Reply)
    requires |rs| == |answers| && AllAnswered(hdr, c, rs, answers)
    requires Answered(hdr, Followed(hdr, c, rs, answers).view, r, a)
    ensures Followed(hdr, c, rs + [r], answers + [a]) == Follow(hdr, Followed(hdr, c, rs, answers), r, a)
    ensures AllAnswered(hdr, c, rs + [r], answers + [a])
  {
    hide Follow, Answered;
    var n := |rs|;
    var rs', answers' := rs + [r], answers + [a];
    assert rs'[..n] == rs && answers'[..n] == answers;
    forall k | 0 <= k < n + 1
      ensures Answered(hdr, Followed(hdr, c, rs'[..k], answers'[..k]).view, rs'[k], answers'[k])
    {
      if k < n {
        assert rs'[..k] == rs[..k] && answers'[..k] == answers[..k];
      }
    }
  }

  lemma FollowKept(hdr: nat, c: Client, r: Request, a: Reply)
    requires Kept(c) && Answered(hdr, c.view, r, a)
    ensures Kept(Follow(hdr, c, r, a))
  {
  }

  lemma FollowBook(hdr: nat, c: Client, r: Request, a: Reply)
    ensures Follow(hdr, c, r, a).book == Booked(hdr, c.book, r, a.ptr)
  {
  }

  /** Whether a request is about a given block. */
  predicate Names(hdr: nat, r: Request, a: int) {
    !r.MallocReq? && r.ptr - hdr == a
  }

  /** A payload that no request of a run is about is there afterwards with the contents it had. */
  lemma {:induction false} UnnamedKept(hdr: nat, c: Client, rs: seq<Request>, answers: seq<Reply>, a: int)
    requires |rs| == |answers| && AllAnswered(hdr, c, rs, answers) && a in c.view
    requires forall k | 0 <= k < |rs| :: !Names(hdr, rs[k], a)
    ensures var d := Followed(hdr, c, rs, answers); a in d.view && d.view[a] == c.view[a]
  {
    hide Follow, Answered;
    if rs != [] {
      var n := |rs| - 1;
      forall k | 0 <= k < n
        ensures Answered(hdr, Followed(hdr, c, rs[..n][..k], answers[..n][..k]).view, rs[..n][k], answers[..n][k])
      {
        assert rs[..n][..k] == rs[..k] && answers[..n][..k] == answers[..k];
      }
      UnnamedKept(hdr, c, rs[..n], answers[..n], a);
      assert Answered(hdr, Followed(hdr, c, rs[..n], answers[..n]).view, rs[n], answers[n]);
      UnnamedStep(hdr, Followed(hdr, c, rs[..n], answers[..n]), rs[n], answers[n], a);
    }
  }

  lemma UnnamedStep(hdr: nat, c: Client, r: Request, x: Reply, a: int)
    requires Answered(hdr, c.view, r, x) && a in c.view && !Names(hdr, r, a)
    ensures var d := Follow(hdr, c, r, x); a in d.view && d.view[a] == c.view[a]
  {
  }

  /** How large a payload in use is, and that there is none at address 0. */
  lemma ViewSizes(hdr: nat, l: Lists, flags: map<int, int>, owned: seq<Region>, mem: int -> byte, a: int, size: nat)
    requires Tidy(l) && Marked(l, flags) && Laid(hdr, flags, owned)
    ensures a in ViewIn(hdr, l, flags, mem) ==>
              && a > 0 && Ours(flags, a)
              && ViewIn(hdr, l, flags, mem)[a] == Octets(mem, a + hdr, Pow2(SizeClass(flags[a])))
              && (Holds(flags, a, size) <==> size <= |ViewIn(hdr, l, flags, mem)[a]|)
  {
    hide Tidy, Marked, Laid, LiveIn, Pow2, SizeClass, Octets;
    LiveBlocks(hdr, l, flags, owned, a);
  }

  lemma ViewAdded(v: map<int, seq<byte>>, v': map<int, seq<byte>>, a: int)
    requires a in v' && v' - {a} == v
    ensures v' == v[a := v'[a]]
  {
    assert forall x | x in v' && x != a :: x in v' - {a};
    assert forall x | x in v :: x in v' - {a};
  }
}
