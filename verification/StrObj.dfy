/** The string object, reading tokens from a stream into it, and the escapes that writing needs for
    reading to give the same string back. */
module StrObj {
  import opened Wire
  import opened Stream

  const STEP := 32

  const TAB: byte := 9
  const NEWLINE: byte := 10
  const RETURN: byte := 13
  const SPACE: byte := 32
  const DQUOTE: byte := 34
  const DOLLAR: byte := 36
  const AMP: byte := 38
  const SQUOTE: byte := 39
  const LESS: byte := 60
  const GREATER: byte := 62
  const BACKSLASH: byte := 92
  const BACKTICK: byte := 96

  // ---- The object ----

  /** A string in a buffer that grows in steps; one octet more than `total` is allocated for the
      terminator. */
  class Str {
    var buff: array?<byte>
    var total: nat
    var size: nat
    var quoted: bool

    ghost var text: bytes

    ghost predicate Shape()
      reads this, buff
    {
      && size <= total && (buff == null ==> total == 0) && (buff != null ==> buff.Length == total + 1)
      && text == if buff == null then [] else buff[..size]
    }

    /** The text is what the buffer holds up to the terminator. */
    ghost predicate Valid()
      reads this, buff
    {
      Shape() && (size > 0 ==> buff[size] == 0)
    }

    constructor ()
      ensures Valid() && text == [] && !quoted && buff == null
    {
      buff, total, size, quoted := null, 0, 0, false;
      text := [];
    }

    /** Set or clear the flag for quoted strings. */
    method Mark(on: bool)
      requires Valid()
      modifies this`quoted
      ensures Valid() && quoted == on
    {
      quoted := on;
    }

    /** Add a step of room, keeping the text. */
    method IncSpace()
      requires Shape()
      modifies this`buff, this`total
      ensures Shape() && buff != null && fresh(buff) && total == old(total) + STEP
    {
      var bigger := new byte[total + STEP + 1];
      if buff != null {
        forall i | 0 <= i < size {
          bigger[i] := buff[i];
        }
      }
      buff, total := bigger, total + STEP;
    }

    /** Append a character. */
    method AddChar(c: byte)
      requires Valid()
      modifies this`buff, this`total, this`size, this`text, buff
      ensures Valid() && text == old(text) + [c]
      ensures buff == old(buff) || fresh(buff)
    {
      if total - size < 1 {
        IncSpace();
      }
      ghost var before := buff[..size];
      buff[size] := c;
      size := size + 1;
      buff[size] := 0;
      assert buff[..size] == before + [c];
      text := text + [c];
    }

    /** Append a string, growing as often as needed. */
    method AddString(s: bytes)
      requires Valid()
      modifies this`buff, this`total, this`size, this`text, buff
      ensures Valid() && text == old(text) + s
      ensures buff == old(buff) || fresh(buff)
    {
      if |s| == 0 {
        assert text + s == text;
        return;
      }
      while total - size < |s|
        invariant Shape() && size == old(size) && text == old(text)
        invariant buff == old(buff) || fresh(buff)
        decreases |s| - (total - size)
      {
        IncSpace();
      }
      ghost var before := buff[..size];
      forall i | 0 <= i < |s| {
        buff[size + i] := s[i];
      }
      buff[size + |s|] := 0;
      size := size + |s|;
      assert buff[..size] == before + s;
      text := text + s;
    }
  }

  // ---- Tokens ----

  predicate White(c: byte) {
    c == SPACE || c == TAB || c == NEWLINE || c == RETURN
  }

  predicate Quote(c: byte) {
    c == DQUOTE || c == SQUOTE
  }

  /** What an escaped character stands for. */
  function Meant(c: byte): byte {
    if c == 110 then NEWLINE else if c == 114 then RETURN else if c == 116 then TAB else c
  }

  /** The outcome of reading a token: its text, the value returned (the character that ended it, the end mark,
      or 0 for an error), what is left unread, and what became of the flag for quoted strings. */
  datatype Token = Token(text: bytes, ret: int, rest: bytes, flag: Flag)

  datatype Flag = Set | Cleared | Kept

  function Before(c: byte, t: Token): Token {
    t.(text := [c] + t.text)
  }

  /** Inside quotation marks. */
  function Quoted(s: bytes, q: byte, esc: byte, escaped: bool): Token
    decreases |s|
  {
    if s == [] then Token([], END, [], Kept)
    else if s[0] == 0 then Token([], 0, s[1..], Kept)
    else if escaped then Before(Meant(s[0]), Quoted(s[1..], q, esc, false))
    else if esc != 0 && s[0] == esc then Quoted(s[1..], q, esc, true)
    else if s[0] == q then Token([], q as int, s[1..], Set)
    else Before(s[0], Quoted(s[1..], q, esc, false))
  }

  /** Outside; a quotation mark ends the token and is left unread. */
  function Plain(s: bytes, end: bytes): Token {
    if s == [] then Token([], END, [], Kept)
    else if s[0] == 0 then Token([], 0, s[1..], Kept)
    else if Quote(s[0]) then Token([], s[0] as int, s, Cleared)
    else if White(s[0]) || s[0] in end then Token([], s[0] as int, s[1..], Cleared)
    else Before(s[0], Plain(s[1..], end))
  }

  function ReadToken(s: bytes, end: bytes, esc: byte): Token {
    if s != [] && s[0] != 0 && Quote(s[0]) then Quoted(s[1..], s[0], esc, false) else Plain(s, end)
  }

  /** Inside quotation marks an escaped n, r or t is a newline, a return or a tab, and any other escaped character is
      itself. */
  lemma EscapesMean(q: byte, esc: byte, c: byte, tail: bytes)
    requires esc != 0 && c != 0
    ensures var t := Quoted(tail, q, esc, false);
            var m := if c == 'n' as byte then 10 else if c == 'r' as byte then 13
                     else if c == 't' as byte then 9 else c;
            Quoted([esc, c] + tail, q, esc, false) == t.(text := [m] + t.text)
  {
    var s := [esc, c] + tail;
    assert s[1..] == [c] + tail && s[1..][1..] == tail;
  }

  /** What ends a token outside quotation marks. */
  predicate Stops(c: byte, end: bytes) {
    c == 0 || Quote(c) || White(c) || c in end
  }

  /** Outside quotation marks a token is the longest front of the input with nothing in it that ends one. White space or
      a delimiter after it is eaten, a quotation mark is left for the next token, and both clear the flag; at a NUL the
      value is the one for an error, and at the end of the input the end mark. */
  lemma {:induction false} PlainIs(s: bytes, end: bytes)
    ensures var t := Plain(s, end);
            var n := |t.text|;
            && n <= |s| && t.text == s[..n] && (forall i | 0 <= i < n :: !Stops(s[i], end))
            && if n == |s| then t == Token(s, END, [], Kept)
               else
                 && Stops(s[n], end) && t.ret == s[n] as int
                 && t.rest == (if Quote(s[n]) then s[n..] else s[n + 1..])
                 && t.flag == if s[n] == 0 then Kept else Cleared
  {
    if s != [] && !Stops(s[0], end) {
      PlainIs(s[1..], end);
      var n := |Plain(s[1..], end).text|;
      assert [s[0]] + s[1..][..n] == s[..n + 1];
      assert forall i | 0 < i < n + 1 :: s[i] == s[1..][i - 1];
      assert s[1..][n..] == s[n + 1..];
    }
  }

  // ---- Escaping ----

  /** A string with the characters of a set escaped. */
  function Escaped(esc: byte, special: set<byte>, s: bytes): bytes {
    if s == [] then [] else EscapedChar(esc, special, s[0]) + Escaped(esc, special, s[1..])
  }

  function EscapedChar(esc: byte, special: set<byte>, c: byte): bytes {
    if c in special then [esc, c] else [c]
  }

  const JAVASCRIPT: set<byte> := {BACKSLASH, DQUOTE, SQUOTE}
  const SHELL: set<byte> := {BACKSLASH, DOLLAR, DQUOTE, BACKTICK}

  /** An escape that reading undoes: it escapes itself and nothing that then means something else. */
  predicate Undone(esc: byte, special: set<byte>) {
    esc != 0 && esc in special && forall c | c in special :: Meant(c) == c
  }

  lemma CharReadsBack(esc: byte, special: set<byte>, c: byte, tail: bytes, q: byte)
    requires Undone(esc, special) && c != 0 && esc != q && (c in special || c != q)
    ensures Quoted(EscapedChar(esc, special, c) + tail, q, esc, false) == Before(c, Quoted(tail, q, esc, false))
  {
    hide Meant;
    var all := EscapedChar(esc, special, c) + tail;
    if c in special {
      assert all[1..] == [c] + tail && all[1..][1..] == tail;
    } else {
      assert all[1..] == tail;
    }
  }

  lemma {:induction false} ReadsBack(esc: byte, special: set<byte>, s: bytes, q: byte, rest: bytes)
    requires Undone(esc, special) && 0 !in s && Quote(q) && esc != q && (q in special || q !in s)
    ensures Quoted(Escaped(esc, special, s) + ([q] + rest), q, esc, false) == Token(s, q as int, rest, Set)
  {
    hide Quoted, Quote, EscapedChar, Undone;
    var t := [q] + rest;
    if s == [] {
      assert [] + t == t;
      QuoteEnds(q, esc, rest);
    } else {
      var tail := Escaped(esc, special, s[1..]) + t;
      ReadsBack(esc, special, s[1..], q, rest);
      assert Escaped(esc, special, s) + t == EscapedChar(esc, special, s[0]) + tail;
      CharReadsBack(esc, special, s[0], tail, q);
      assert s == [s[0]] + s[1..];
    }
  }

  lemma QuoteEnds(q: byte, esc: byte, rest: bytes)
    requires Quote(q) && esc != q
    ensures Quoted([q] + rest, q, esc, false) == Token([], q as int, rest, Set)
  {
    assert ([q] + rest)[1..] == rest;
  }

  /** A quotation mark that is not escaped ends the token early. */
  lemma {:induction false} CutShort(esc: byte, special: set<byte>, s: bytes, q: byte, t: bytes)
    requires Undone(esc, special) && 0 !in s && Quote(q) && esc != q && q !in special && q in s
    ensures |Quoted(Escaped(esc, special, s) + t, q, esc, false).text| < |s|
  {
    hide Quoted, Quote, Undone;
    var tail := Escaped(esc, special, s[1..]) + t;
    assert Escaped(esc, special, s) + t == EscapedChar(esc, special, s[0]) + tail;
    if s[0] == q {
      QuoteEnds(q, esc, tail);
    } else {
      CutShort(esc, special, s[1..], q, t);
      CharReadsBack(esc, special, s[0], tail, q);
    }
  }

  /** Reading a quoted and escaped string gives it back, returns the quotation mark and leaves exactly the
      rest, if and only if the escape covers the quotation mark or the string has none. */
  lemma TokenRoundTripIff(esc: byte, special: set<byte>, s: bytes, q: byte, rest: bytes, end: bytes)
    requires Undone(esc, special) && 0 !in s && Quote(q) && esc != q
    ensures ReadToken([q] + Escaped(esc, special, s) + [q] + rest, end, esc) == Token(s, q as int, rest, Set) <==>
              q in special || q !in s
  {
    hide Meant;
    var all := [q] + Escaped(esc, special, s) + [q] + rest;
    assert all[1..] == Escaped(esc, special, s) + ([q] + rest);
    if q in special || q !in s {
      ReadsBack(esc, special, s, q, rest);
    } else {
      CutShort(esc, special, s, q, [q] + rest);
    }
  }

  /** With the script escape, either quotation mark will do. */
  lemma JavascriptRoundTrip(s: bytes, q: byte, rest: bytes, end: bytes)
    requires 0 !in s && Quote(q)
    ensures ReadToken([q] + Escaped(BACKSLASH, JAVASCRIPT, s) + [q] + rest, end, BACKSLASH) ==
              Token(s, q as int, rest, Set)
  {
    hide ReadToken;
    TokenRoundTripIff(BACKSLASH, JAVASCRIPT, s, q, rest, end);
  }

  /** With the shell escape, double quotes will do, and single ones for a string that has none. */
  lemma ShellRoundTripIff(s: bytes, q: byte, rest: bytes, end: bytes)
    requires 0 !in s && Quote(q)
    ensures ReadToken([q] + Escaped(BACKSLASH, SHELL, s) + [q] + rest, end, BACKSLASH) ==
              Token(s, q as int, rest, Set) <==>
              q == DQUOTE || SQUOTE !in s
  {
    hide ReadToken;
    TokenRoundTripIff(BACKSLASH, SHELL, s, q, rest, end);
  }

  // ---- Reading from a stream ----

  /** Where the reader is: before the first character, inside quotation marks, or outside. */
  datatype Mode = Start | Inside(q: byte, escaped: bool) | Outside

  function Onward(s: bytes, m: Mode, end: bytes, esc: byte): Token {
    match m
    case Start => ReadToken(s, end, esc)
    case Inside(q, escaped) => Quoted(s, q, esc, escaped)
    case Outside => Plain(s, end)
  }

  function After(v: bytes, t: Token): Token {
    t.(text := v + t.text)
  }

  /** One character more. */
  datatype Move = Stop(ret: int, unread: bool, flag: Flag) | Skip(m: Mode) | Take(c: byte, m: Mode)

  function Next(c: byte, m: Mode, end: bytes, esc: byte): Move {
    if c == 0 then Stop(0, false, Kept)
    else if m.Start? && Quote(c) then Skip(Inside(c, false))
    else if m.Inside? then
      if m.escaped then Take(Meant(c), Inside(m.q, false))
      else if esc != 0 && c == esc then Skip(Inside(m.q, true))
      else if c == m.q then Stop(c as int, false, Set)
      else Take(c, m)
    else if Quote(c) then Stop(c as int, true, Cleared)
    else if White(c) || c in end then Stop(c as int, false, Cleared)
    else Take(c, Outside)
  }

  lemma OnwardStep(s: bytes, m: Mode, end: bytes, esc: byte)
    requires s != []
    ensures Onward(s, m, end, esc) ==
              match Next(s[0], m, end, esc)
              case Stop(ret, unread, flag) => Token([], ret, if unread then s else s[1..], flag)
              case Skip(m') => Onward(s[1..], m', end, esc)
              case Take(c, m') => Before(c, Onward(s[1..], m', end, esc))
  {
  }

  lemma AfterBefore(v: bytes, c: byte, t: Token)
    ensures After(v, Before(c, t)) == After(v + [c], t)
  {
    assert v + ([c] + t.text) == v + [c] + t.text;
  }

  lemma OnwardEnd(m: Mode, end: bytes, esc: byte)
    ensures Onward([], m, end, esc) == Token([], END, [], Kept)
  {
  }

  /** The character read and those still pending. */
  function Left(c: int, pending: bytes): bytes
    requires c == END || 0 <= c < 256
  {
    if c == END then [] else [c as byte] + pending
  }

  /** What the loop has done so far: some text is taken, and reading on gives the rest of the token. */
  ghost predicate Reading(all: bytes, end: bytes, esc: byte, v: bytes, m: Mode, c: int, pending: bytes) {
    && (c == END || 0 <= c < 256) && (c == END ==> pending == [])
    && ReadToken(all, end, esc) == After(v, Onward(Left(c, pending), m, end, esc))
  }

  lemma ReadingStep(all: bytes, end: bytes, esc: byte, v: bytes, m: Mode, c: int, pending: bytes)
    requires Reading(all, end, esc, v, m, c, pending) && c != END
    ensures 0 <= c < 256
    ensures var t := ReadToken(all, end, esc);
            var move := Next(c, m, end, esc);
            && (move.Stop? ==>
                  t == Token(v, move.ret, if move.unread then [c as byte] + pending else pending, move.flag))
            && (move.Skip? ==> t == After(v, Onward(pending, move.m, end, esc)))
            && (move.Take? ==> t == After(v + [move.c], Onward(pending, move.m, end, esc)))
  {
    hide ReadToken, Onward, Next;
    var left := Left(c, pending);
    assert left[1..] == pending;
    OnwardStep(left, m, end, esc);
    var move := Next(c, m, end, esc);
    assert v + [] == v;
    if move.Take? {
      AfterBefore(v, move.c, Onward(pending, move.m, end, esc));
    }
  }

  /** Reading on after one more character has been fetched. */
  lemma ReadingNext(all: bytes, end: bytes, esc: byte, v: bytes, m: Mode, left: bytes, c: int, pending: bytes)
    requires ReadToken(all, end, esc) == After(v, Onward(left, m, end, esc))
    requires if left == [] then c == END && pending == [] else 0 <= c < 256 && left == [c as byte] + pending
    ensures Reading(all, end, esc, v, m, c, pending)
  {
    hide ReadToken, Onward;
  }

  lemma ReadingEnd(all: bytes, end: bytes, esc: byte, v: bytes, m: Mode, pending: bytes)
    requires Reading(all, end, esc, v, m, END, pending)
    ensures ReadToken(all, end, esc) == Token(v, END, [], Kept) && pending == []
  {
    OnwardEnd(m, end, esc);
    assert v + [] == v;
  }

  /** Read one token from the stream into the string object. */
  method ReadEsc(x: XStream, so: Str, end: bytes, esc: byte) returns (ret: int)
    requires x.Valid() && so.Valid() && so.buff != x.undo
    modifies x, x.undo, so, so.buff
    ensures x.Valid() && so.Valid()
    ensures var t := ReadToken(old(x.pending), end, esc);
            && ret == t.ret && so.text == old(so.text) + t.text && x.pending == t.rest
            && so.quoted == match t.flag case Set => true case Cleared => false case Kept => old(so.quoted)
  {
    hide ReadToken, Onward, Next, Reading, Str.Valid, XStream.Valid, After;
    ghost var all, text := x.pending, so.text;
    ghost var v: bytes := [];
    var m := Start;
    StartIs(all, end, esc);
    var c := x.Getc();
    ReadingNext(all, end, esc, v, m, all, c, x.pending);
    assert text + v == text;
    while c != END
      invariant x.Valid() && so.Valid() && so.buff != x.undo && (so.buff == old(so.buff) || fresh(so.buff))
      invariant so.text == text + v && so.quoted == old(so.quoted)
      invariant Reading(all, end, esc, v, m, c, x.pending) && (c != END ==> x.udsize < MAX_UNDO)
      decreases |x.pending| + if c == END then 0 else 1
    {
      ReadingStep(all, end, esc, v, m, c, x.pending);
      var move := Next(c, m, end, esc);
      if move.Stop? {
        if move.unread {
          var back := x.Ungetc(c);
        }
        if move.flag == Set {
          so.Mark(true);
        } else if move.flag == Cleared {
          so.Mark(false);
        }
        return move.ret;
      }
      if move.Take? {
        so.AddChar(move.c);
        assert text + v + [move.c] == text + (v + [move.c]);
        v := v + [move.c];
      }
      m := move.m;
      ghost var left := x.pending;
      c := x.Getc();
      ReadingNext(all, end, esc, v, m, left, c, x.pending);
    }
    ReadingEnd(all, end, esc, v, m, x.pending);
    return END;
  }

  lemma StartIs(s: bytes, end: bytes, esc: byte)
    ensures ReadToken(s, end, esc) == After([], Onward(s, Start, end, esc))
  {
    var t := ReadToken(s, end, esc);
    assert [] + t.text == t.text;
  }

  /** Escape a string into the object, character by character. */
  method EscapeInto(esc: byte, special: set<byte>, s: bytes, so: Str)
    requires so.Valid()
    modifies so, so.buff
    ensures so.Valid() && so.text == old(so.text) + Escaped(esc, special, s)
  {
    hide EscapedChar, Str.Valid;
    ghost var text := so.text;
    ghost var done: bytes := [];
    var i := 0;
    assert s[0..] == s && text + [] == text && [] + Escaped(esc, special, s) == Escaped(esc, special, s);
    while i < |s|
      invariant 0 <= i <= |s| && so.Valid() && (so.buff == old(so.buff) || fresh(so.buff))
      invariant so.text == text + done && Escaped(esc, special, s) == done + Escaped(esc, special, s[i..])
    {
      ghost var e := EscapedChar(esc, special, s[i]);
      assert s[i..][1..] == s[i + 1..];
      assert done + (e + Escaped(esc, special, s[i + 1..])) == done + e + Escaped(esc, special, s[i + 1..]);
      EscapedIs(esc, special, s[i]);
      if s[i] in special {
        so.AddChar(esc);
      }
      so.AddChar(s[i]);
      assert so.text == text + (done + e);
      done := done + e;
      i := i + 1;
    }
    assert done + [] == done;
  }

  lemma EscapedIs(esc: byte, special: set<byte>, c: byte)
    ensures EscapedChar(esc, special, c) == if c in special then [esc] + [c] else [c]
  {
  }
}
