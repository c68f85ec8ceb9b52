/** Character entities: escaping text for XML and HTML, and undoing it. */
module Entities {
  import opened Wire
  import opened StrObj

  const AMP_TEXT: bytes := [38, 97, 109, 112, 59]
  const LT_TEXT: bytes := [38, 108, 116, 59]
  const GT_TEXT: bytes := [38, 103, 116, 59]
  const NBSP_TEXT: bytes := [38, 110, 98, 115, 112, 59]
  const QUOT_TEXT: bytes := [38, 113, 117, 111, 116, 59]
  const APOS_TEXT: bytes := [38, 97, 112, 111, 115, 59]

  /** One character escaped; HTML leaves the apostrophe alone. */
  function Entity(c: byte, html: bool): (r: bytes)
    ensures 0 < |r| <= 6
  {
    if c == AMP then AMP_TEXT
    else if c == LESS then LT_TEXT
    else if c == GREATER then GT_TEXT
    else if c == DQUOTE then QUOT_TEXT
    else if c == SQUOTE && !html then APOS_TEXT
    else [c]
  }

  /** The octets of a text. */
  function Ascii(s: string): bytes
    requires forall i | 0 <= i < |s| :: s[i] < 128 as char
  {
    seq(|s|, i requires 0 <= i < |s| => s[i] as byte)
  }

  /** What the special characters are escaped to. */
  lemma EntityTexts(html: bool)
    ensures Entity('&' as byte, html) == Ascii("&amp;") && Entity('<' as byte, html) == Ascii("&lt;")
    ensures Entity('>' as byte, html) == Ascii("&gt;") && Entity(34, html) == Ascii("&quot;")
    ensures Entity(39, html) == if html then [39] else Ascii("&apos;")
    ensures forall c: byte | c !in {38, 60, 62, 34, 39} :: Entity(c, html) == [c]
  {
    assert Ascii("&amp;") == AMP_TEXT;
    assert Ascii("&lt;") == LT_TEXT;
    assert Ascii("&gt;") == GT_TEXT;
    assert Ascii("&quot;") == QUOT_TEXT;
    assert Ascii("&apos;") == APOS_TEXT;
  }

  function Escape(s: bytes, html: bool): bytes {
    if s == [] then [] else Entity(s[0], html) + Escape(s[1..], html)
  }

  /** The character at the front of a string and how much of the string it takes; only HTML knows the
      non-breaking space. An ampersand that begins no entity stands for itself. */
  function Front(s: bytes, html: bool): (r: (byte, nat))
    requires s != []
    ensures 0 < r.1 <= |s|
  {
    if s[0] != AMP then (s[0], 1)
    else if AMP_TEXT <= s then (AMP, 5)
    else if LT_TEXT <= s then (LESS, 4)
    else if GT_TEXT <= s then (GREATER, 4)
    else if html && NBSP_TEXT <= s then (SPACE, 6)
    else if QUOT_TEXT <= s then (DQUOTE, 6)
    else if APOS_TEXT <= s then (SQUOTE, 6)
    else (s[0], 1)
  }

  function Unescape(s: bytes, html: bool): bytes
    decreases |s|
  {
    if s == [] then []
    else
      var f := Front(s, html);
      [f.0] + Unescape(s[f.1..], html)
  }

  /** In HTML the non-breaking space is read as a space. */
  lemma SpaceText()
    ensures Unescape(Ascii("&nbsp;"), true) == [32] && Unescape(Ascii("&nbsp;"), false) == Ascii("&nbsp;")
  {
    var s := Ascii("&nbsp;");
    assert s == NBSP_TEXT;
    assert s[6..] == [];
    NotThere(AMP_TEXT, s);
    NotThere(LT_TEXT, s);
    NotThere(GT_TEXT, s);
    NotThere(QUOT_TEXT, s);
    NotThere(APOS_TEXT, s);
    PlainText(s[1..]);
    assert [AMP] + s[1..] == s;
  }

  lemma NotThere(t: bytes, s: bytes)
    requires |t| >= 2 && |s| >= 2 && t[1] != s[1]
    ensures !(t <= s)
  {
  }

  lemma {:induction false} PlainText(s: bytes)
    requires AMP !in s
    ensures Unescape(s, false) == s
  {
    if s != [] {
      PlainText(s[1..]);
      assert [s[0]] + s[1..] == s;
    }
  }

  lemma OtherText(a: bytes, b: bytes, t: bytes, i: nat)
    requires i < |a| && i < |b| && a[i] != b[i]
    ensures !(b <= a + t)
  {
    assert (a + t)[i] == a[i];
  }

  /** An escaped character is recognised whatever follows it. */
  lemma FrontOfEntity(c: byte, t: bytes, html: bool)
    ensures Front(Entity(c, html) + t, html) == (c, |Entity(c, html)|)
  {
    var e := Entity(c, html);
    var s := e + t;
    assert s[0] == e[0] && e <= s;
    if e[0] == AMP {
      if e != AMP_TEXT { OtherText(e, AMP_TEXT, t, if e == APOS_TEXT then 2 else 1); }
      if e != LT_TEXT { OtherText(e, LT_TEXT, t, 1); }
      if e != GT_TEXT { OtherText(e, GT_TEXT, t, 1); }
      OtherText(e, NBSP_TEXT, t, 1);
      if e != QUOT_TEXT { OtherText(e, QUOT_TEXT, t, 1); }
    }
  }

  /** Undoing an escape gives every string back. */
  lemma {:induction false} UnescapeEscape(s: bytes, html: bool)
    ensures Unescape(Escape(s, html), html) == s
  {
    hide Entity, Front;
    if s != [] {
      var e, t := Entity(s[0], html), Escape(s[1..], html);
      FrontOfEntity(s[0], t, html);
      assert (e + t)[|e|..] == t;
      UnescapeEscape(s[1..], html);
      assert s == [s[0]] + s[1..];
    }
  }

  /** No bracket or double quote is left bare, nor an apostrophe in XML. */
  lemma {:induction false} NothingBare(s: bytes, html: bool, c: byte)
    requires c == LESS || c == GREATER || c == DQUOTE || (c == SQUOTE && !html)
    ensures c !in Escape(s, html)
  {
    hide Entity;
    if s != [] {
      NothingBare(s[1..], html, c);
      EntityBare(s[0], html, c);
    }
  }

  lemma EntityBare(d: byte, html: bool, c: byte)
    requires c == LESS || c == GREATER || c == DQUOTE || (c == SQUOTE && !html)
    ensures c !in Entity(d, html)
  {
  }

  /** Escape a string into the object. */
  method EscapeText(s: bytes, html: bool, so: Str)
    requires so.Valid()
    modifies so, so.buff
    ensures so.Valid() && so.text == old(so.text) + Escape(s, html)
  {
    hide Entity, Str.Valid;
    ghost var text := so.text;
    ghost var done: bytes := [];
    var i := 0;
    assert s[0..] == s && text + done == text && done + Escape(s, html) == Escape(s, html);
    while i < |s|
      invariant 0 <= i <= |s| && so.Valid() && (so.buff == old(so.buff) || fresh(so.buff))
      invariant so.text == text + done && Escape(s, html) == done + Escape(s[i..], html)
    {
      var e := Entity(s[i], html);
      assert s[i..][1..] == s[i + 1..];
      assert done + (e + Escape(s[i + 1..], html)) == done + e + Escape(s[i + 1..], html);
      if |e| > 1 {
        so.AddString(e);
      } else {
        so.AddChar(e[0]);
        assert [e[0]] == e;
      }
      assert text + done + e == text + (done + e);
      done := done + e;
      i := i + 1;
    }
    assert done + [] == done;
  }

  /** Undo the escape into the object. */
  method UnescapeText(s: bytes, html: bool, so: Str)
    requires so.Valid()
    modifies so, so.buff
    ensures so.Valid() && so.text == old(so.text) + Unescape(s, html)
  {
    hide Front, Str.Valid;
    ghost var text := so.text;
    ghost var done: bytes := [];
    var i: nat := 0;
    assert s[0..] == s && text + done == text && done + Unescape(s, html) == Unescape(s, html);
    while i < |s|
      invariant i <= |s| && so.Valid() && (so.buff == old(so.buff) || fresh(so.buff))
      invariant so.text == text + done && Unescape(s, html) == done + Unescape(s[i..], html)
    {
      var f := Front(s[i..], html);
      assert s[i..][f.1..] == s[i + f.1..];
      assert done + ([f.0] + Unescape(s[i + f.1..], html)) == done + [f.0] + Unescape(s[i + f.1..], html);
      so.AddChar(f.0);
      assert text + done + [f.0] == text + (done + [f.0]);
      done := done + [f.0];
      i := i + f.1;
    }
    assert done + [] == done;
  }
}
