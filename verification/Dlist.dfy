/** The intrusive circular list: nodes whose next and prev links are rewritten in
    place. A ring is a head and the entries met in order when walking from it. */
module Dlist {

  /** Where a link can point: nowhere, at a list head, or at an entry by its address. */
  datatype Node = Null | FreeHead(k: nat) | UsedHead(k: nat) | Entry(addr: int)

  /** The node at position i of a ring: its entries, then its head again. */
  function At(head: Node, s: seq<Node>, i: nat): Node
    requires i <= |s|
  {
    if i < |s| then s[i] else head
  }

  /** The node before position i. */
  function Before(head: Node, s: seq<Node>, i: nat): Node
    requires i <= |s|
  {
    if i == 0 then head else s[i - 1]
  }

  /** The head and the entries are all different. */
  predicate NoRepeat(head: Node, s: seq<Node>) {
    && head !in s
    && forall i, j | 0 <= i < j < |s| :: s[i] != s[j]
  }

  /** Links in both directions go round the ring. */
  ghost predicate Ring(next: map<Node, Node>, prev: map<Node, Node>, head: Node, s: seq<Node>) {
    && NoRepeat(head, s)
    && (forall i {:trigger Before(head, s, i)} {:trigger At(head, s, i)} | 0 <= i <= |s| ::
          && Before(head, s, i) in next && next[Before(head, s, i)] == At(head, s, i)
          && At(head, s, i) in prev && prev[At(head, s, i)] == Before(head, s, i))
  }

  /** Links agree wherever neither the head nor an entry is concerned. */
  ghost predicate SameElsewhere(m: map<Node, Node>, m': map<Node, Node>, touched: set<Node>) {
    forall x | x !in touched :: (x in m <==> x in m') && (x in m ==> m[x] == m'[x])
  }

  lemma RingKept(next: map<Node, Node>, prev: map<Node, Node>, next': map<Node, Node>, prev': map<Node, Node>,
                 head: Node, s: seq<Node>, touched: set<Node>)
    requires Ring(next, prev, head, s)
    requires SameElsewhere(next, next', touched) && SameElsewhere(prev, prev', touched)
    requires head !in touched && forall i | 0 <= i < |s| :: s[i] !in touched
    ensures Ring(next', prev', head, s)
  {
    forall i | 0 <= i <= |s|
      ensures Before(head, s, i) in next' && next'[Before(head, s, i)] == At(head, s, i)
      ensures At(head, s, i) in prev' && prev'[At(head, s, i)] == Before(head, s, i)
    {
      assert Before(head, s, i) !in touched && At(head, s, i) !in touched;
    }
  }

  class Links {
    var next: map<Node, Node>
    var prev: map<Node, Node>

    constructor ()
      ensures next == map[] && prev == map[]
    {
      next, prev := map[], map[];
    }

    /** A ring of one: an empty list, or an entry on no list. */
    method Init(e: Node)
      modifies this
      ensures Ring(next, prev, e, [])
      ensures SameElsewhere(old(next), next, {e}) && SameElsewhere(old(prev), prev, {e})
    {
      next, prev := next[e := e], prev[e := e];
    }

    /** Splice an entry in between two neighbours of a ring: it is then the entry at that position, all
        others keep their order, and no link outside the ring is touched. */
    method AddBetween(e: Node, p: Node, n: Node, ghost head: Node, ghost s: seq<Node>, ghost i: nat)
      requires Ring(next, prev, head, s) && e != head && e !in s
      requires i <= |s| && p == Before(head, s, i) && n == At(head, s, i)
      modifies this
      ensures Ring(next, prev, head, s[..i] + [e] + s[i..])
      ensures SameElsewhere(old(next), next, {e, head} + Members(s))
      ensures SameElsewhere(old(prev), prev, {e, head} + Members(s))
    {
      ghost var n0, p0 := next, prev;
      prev := prev[n := e];
      next := next[e := n];
      prev := prev[e := p];
      next := next[p := e];
      InsertedRing(n0, p0, next, prev, head, s, i, e);
    }

    /** Insert at the front. */
    method Add(e: Node, head: Node, ghost s: seq<Node>)
      requires Ring(next, prev, head, s) && e != head && e !in s
      modifies this
      ensures Ring(next, prev, head, [e] + s)
      ensures SameElsewhere(old(next), next, {e, head} + Members(s))
      ensures SameElsewhere(old(prev), prev, {e, head} + Members(s))
    {
      hide Ring, SameElsewhere, Members;
      RingEnds(next, prev, head, s);
      AddBetween(e, head, next[head], head, s, 0);
      assert s[..0] + [e] + s[0..] == [e] + s;
    }

    /** Insert at the back. */
    method AddTail(e: Node, head: Node, ghost s: seq<Node>)
      requires Ring(next, prev, head, s) && e != head && e !in s
      modifies this
      ensures Ring(next, prev, head, s + [e])
      ensures SameElsewhere(old(next), next, {e, head} + Members(s))
      ensures SameElsewhere(old(prev), prev, {e, head} + Members(s))
    {
      hide Ring, SameElsewhere, Members;
      RingEnds(next, prev, head, s);
      AddBetween(e, prev[head], head, head, s, |s|);
      assert s[..|s|] + [e] + s[|s|..] == s + [e];
    }

    /** Take an entry off its list. */
    method Del(e: Node, ghost head: Node, ghost s: seq<Node>, ghost i: nat)
      requires Ring(next, prev, head, s) && i < |s| && s[i] == e
      modifies this
      ensures Ring(next, prev, head, s[..i] + s[i + 1..])
      ensures SameElsewhere(old(next), next, {e, head} + Members(s))
      ensures SameElsewhere(old(prev), prev, {e, head} + Members(s))
    {
      RingAt(next, prev, head, s, i);
      ghost var n0, p0 := next, prev;
      var p, n := prev[e], next[e];
      prev := prev[n := p];
      next := next[p := n];
      next, prev := next[e := Null], prev[e := Null];
      RemovedRing(n0, p0, next, prev, head, s, i);
    }

    method IsEmpty(head: Node, ghost s: seq<Node>) returns (b: bool)
      requires Ring(next, prev, head, s)
      ensures b <==> s == []
    {
      RingEnds(next, prev, head, s);
      b := next[head] == head;
    }

    /** Walk the ring, counting. */
    method Count(head: Node, ghost s: seq<Node>) returns (n: nat)
      requires Ring(next, prev, head, s)
      ensures n == |s|
    {
      RingEnds(next, prev, head, s);
      n := 0;
      var e := next[head];
      while e != head
        invariant n <= |s| && e == At(head, s, n)
        decreases |s| - n
      {
        RingAt(next, prev, head, s, n);
        n := n + 1;
        e := next[e];
      }
    }

    /** Walk the ring, looking for one entry. */
    method Contains(e: Node, head: Node, ghost s: seq<Node>) returns (b: bool)
      requires Ring(next, prev, head, s) && e != head
      ensures b <==> e in s
    {
      RingEnds(next, prev, head, s);
      ghost var n := 0;
      var curr := next[head];
      while curr != head
        invariant n <= |s| && curr == At(head, s, n)
        invariant e !in s[..n]
        decreases |s| - n
      {
        if curr == e {
          return true;
        }
        RingAt(next, prev, head, s, n);
        assert s[..n + 1] == s[..n] + [s[n]];
        n := n + 1;
        curr := next[curr];
      }
      assert s[..n] == s;
      return false;
    }
  }

  function Members(s: seq<Node>): set<Node> {
    set x | x in s
  }

  lemma RingEnds(next: map<Node, Node>, prev: map<Node, Node>, head: Node, s: seq<Node>)
    requires Ring(next, prev, head, s)
    ensures head in next && next[head] == At(head, s, 0)
    ensures head in prev && prev[head] == Before(head, s, |s|)
    ensures next[head] == head <==> s == []
  {
    assert Before(head, s, 0) == head && At(head, s, |s|) == head;
  }

  lemma RingAt(next: map<Node, Node>, prev: map<Node, Node>, head: Node, s: seq<Node>, i: nat)
    requires Ring(next, prev, head, s) && i < |s|
    ensures s[i] in next && next[s[i]] == At(head, s, i + 1)
    ensures s[i] in prev && prev[s[i]] == Before(head, s, i)
  {
    assert Before(head, s, i + 1) == s[i] && At(head, s, i) == s[i];
  }

  /** Splicing an entry in at a position. */
  lemma InsertedRing(next: map<Node, Node>, prev: map<Node, Node>, next': map<Node, Node>, prev': map<Node, Node>,
                     head: Node, s: seq<Node>, i: nat, e: Node)
    requires Ring(next, prev, head, s) && i <= |s| && e != head && e !in s
    requires next' == next[e := At(head, s, i)][Before(head, s, i) := e]
    requires prev' == prev[At(head, s, i) := e][e := Before(head, s, i)]
    ensures Ring(next', prev', head, s[..i] + [e] + s[i..])
  {
    var t := s[..i] + [e] + s[i..];
    forall j | 0 <= j <= |t|
      ensures Before(head, t, j) in next' && next'[Before(head, t, j)] == At(head, t, j)
      ensures At(head, t, j) in prev' && prev'[At(head, t, j)] == Before(head, t, j)
    {
      if j < i {
        assert Before(head, t, j) == Before(head, s, j) && At(head, t, j) == At(head, s, j);
        PositionsApart(head, s, j, i);
      } else if j > i + 1 {
        assert Before(head, t, j) == Before(head, s, j - 1) && At(head, t, j) == At(head, s, j - 1);
        PositionsApart(head, s, j - 1, i);
      }
    }
  }

  /** Different positions have different nodes before them and at them. */
  lemma PositionsApart(head: Node, s: seq<Node>, i: nat, j: nat)
    requires NoRepeat(head, s) && i <= |s| && j <= |s| && i != j
    ensures Before(head, s, i) != Before(head, s, j) && At(head, s, i) != At(head, s, j)
  {
  }

  /** Splicing an entry out. */
  lemma RemovedRing(next: map<Node, Node>, prev: map<Node, Node>, next': map<Node, Node>, prev': map<Node, Node>,
                    head: Node, s: seq<Node>, i: nat)
    requires Ring(next, prev, head, s) && i < |s|
    requires next' == next[Before(head, s, i) := At(head, s, i + 1)][s[i] := Null]
    requires prev' == prev[At(head, s, i + 1) := Before(head, s, i)][s[i] := Null]
    ensures Ring(next', prev', head, s[..i] + s[i + 1..])
  {
    var t := s[..i] + s[i + 1..];
    forall j | 0 <= j <= |t|
      ensures Before(head, t, j) in next' && next'[Before(head, t, j)] == At(head, t, j)
      ensures At(head, t, j) in prev' && prev'[At(head, t, j)] == Before(head, t, j)
    {
      if j < i {
        assert Before(head, t, j) == Before(head, s, j) && At(head, t, j) == At(head, s, j);
        PositionsApart(head, s, j, i);
        PositionsApart(head, s, j, i + 1);
        PositionsApart(head, s, i, i + 1);
        assert Before(head, s, i + 1) == s[i] && At(head, s, i) == s[i];
      } else if j > i {
        assert Before(head, t, j) == Before(head, s, j + 1) && At(head, t, j) == At(head, s, j + 1);
        PositionsApart(head, s, j + 1, i);
        PositionsApart(head, s, j + 1, i + 1);
        assert Before(head, s, i + 1) == s[i] && At(head, s, i) == s[i];
      } else {
        assert Before(head, t, j) == Before(head, s, i) && At(head, t, j) == At(head, s, i + 1);
        PositionsApart(head, s, i, i + 1);
        assert Before(head, s, i + 1) == s[i] && At(head, s, i) == s[i];
      }
    }
  }
}
