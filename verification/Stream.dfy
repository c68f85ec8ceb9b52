/** The buffer stream: a read position in a buffer under a small stack of characters put back. */
module Stream {
  import opened Wire

  const MAX_UNDO := 512
  const END := -1

  function Reversed(s: bytes): (r: bytes)
    ensures |r| == |s|
  {
    if s == [] then [] else Reversed(s[1..]) + [s[0]]
  }

  lemma {:induction false} ReversedMore(s: bytes, c: byte)
    ensures Reversed(s + [c]) == [c] + Reversed(s)
  {
    if s == [] {
      assert s + [c] == [c] && [c][1..] == [];
      assert Reversed([c]) == Reversed([]) + [c];
    } else {
      ReversedMore(s[1..], c);
      assert (s + [c])[1..] == s[1..] + [c];
      assert [c] + Reversed(s[1..]) + [s[0]] == [c] + (Reversed(s[1..]) + [s[0]]);
    }
  }

  class XStream {
    const start: bytes
    const undo: array<byte>
    var curr: nat
    var udsize: nat

    ghost var pending: bytes

    /** What is pending is what was put back, the latest first, then the rest of the buffer. */
    ghost predicate Valid()
      reads this, undo
    {
      && undo.Length == MAX_UNDO && curr <= |start| && udsize <= MAX_UNDO
      && pending == Reversed(undo[..udsize]) + start[curr..]
    }

    constructor (text: bytes)
      ensures Valid() && pending == text && udsize == 0 && fresh(undo)
    {
      start := text;
      undo := new byte[MAX_UNDO];
      curr, udsize := 0, 0;
      pending := text;
      new;
      assert undo[..0] == [] && start[0..] == text;
      assert [] + text == text;
    }

    /** Read one character. Afterwards there is room to put it back. */
    method Getc() returns (c: int)
      requires Valid()
      modifies this
      ensures Valid()
      ensures old(pending) == [] ==> c == END && pending == []
      ensures old(pending) != [] ==> 0 <= c < 256 && old(pending) == [c as byte] + pending && udsize < MAX_UNDO
    {
      if udsize > 0 {
        ghost var before := undo[..udsize];
        udsize := udsize - 1;
        c := undo[udsize];
        assert before == undo[..udsize] + [undo[udsize]];
        ReversedMore(undo[..udsize], undo[udsize]);
        assert pending == [c as byte] + pending[1..];
        pending := pending[1..];
        assert pending == Reversed(undo[..udsize]) + start[curr..];
        return;
      }
      c := END;
      assert undo[..0] == [] && [] + start[curr..] == start[curr..];
      if curr < |start| {
        c := start[curr];
        assert pending == [c as byte] + pending[1..];
        curr := curr + 1;
        pending := pending[1..];
        assert [] + start[curr..] == start[curr..];
      }
    }

    /** Put a character back; the end mark cannot be, nor anything once the stack is full. */
    method Ungetc(c: int) returns (r: int)
      requires Valid() && (c == END || 0 <= c < 256)
      modifies this`udsize, this`pending, undo
      ensures Valid()
      ensures c != END && old(udsize) < MAX_UNDO ==>
                r == c && udsize == old(udsize) + 1 && pending == [c as byte] + old(pending)
      ensures c == END || old(udsize) == MAX_UNDO ==> r == END && udsize == old(udsize) && pending == old(pending)
    {
      if c == END {
        return END;
      }
      if udsize < MAX_UNDO {
        ghost var before, rest := undo[..udsize], start[curr..];
        undo[udsize] := c;
        udsize := udsize + 1;
        assert undo[..udsize] == before + [c as byte];
        ReversedMore(before, c);
        assert [c as byte] + Reversed(before) + rest == [c as byte] + (Reversed(before) + rest);
        pending := [c as byte] + pending;
        return c;
      }
      return END;
    }

    /** Put a string back from its last character to its first. The characters are signed, so that the one
        with all bits set looks like the end mark. */
    method Ungets(s: bytes) returns (r: int)
      requires Valid()
      modifies this`udsize, this`pending, undo
      ensures Valid()
      ensures r == 0 <==> 255 !in s && old(udsize) + |s| <= MAX_UNDO
      ensures r == 0 ==> pending == s + old(pending) && udsize == old(udsize) + |s|
      ensures r != 0 ==> r == END && exists k | 0 <= k <= |s| :: pending == s[k..] + old(pending)
    {
      hide XStream.Valid;
      var len := |s|;
      ghost var text, used := pending, udsize;
      assert s[|s|..] + text == text;
      UndoRoom();
      while len > 0
        invariant 0 <= len <= |s| && Valid() && udsize == used + (|s| - len) <= MAX_UNDO
        invariant pending == s[len..] + text
        invariant forall i | len <= i < |s| :: s[i] != 255
      {
        len := len - 1;
        var c := if s[len] == 255 then END else s[len] as int;
        var back := Ungetc(c);
        if back == END {
          assert 255 in s || MAX_UNDO - used < |s|;
          return END;
        }
        assert [s[len]] + (s[len + 1..] + text) == s[len..] + text;
      }
      assert s[0..] == s;
      return 0;
    }

    lemma UndoRoom()
      requires Valid()
      ensures udsize <= MAX_UNDO
    {
    }
  }
}
