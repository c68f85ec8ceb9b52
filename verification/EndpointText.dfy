/** Endpoint discriminators as text: printing one, and reading it back. */
module EndpointText {
  import opened Wire
  import opened L = LcpOptions

  datatype Option<+T> = None | Some(value: T)

  const EPD_NULL := 0
  const EPD_IP := 2
  const EPD_MAC := 3
  const EPD_MAGIC := 4
  const EPD_PHONENUM := 5

  // ---- Digits ----

  function HexChar(d: nat): char
    requires d < 16
  {
    if d < 10 then '0' + d as char else 'a' + (d - 10) as char
  }

  predicate IsHex(c: char) {
    '0' <= c <= '9' || 'a' <= c <= 'f' || 'A' <= c <= 'F'
  }

  /** Defined for every character, as in the source; only hexadecimal digits are ever given. */
  function HexVal(c: char): (r: int)
    ensures IsHex(c) ==> 0 <= r < 16
  {
    if c >= 'a' then c as int - 'a' as int + 10
    else if c >= 'A' then c as int - 'A' as int + 10
    else c as int - '0' as int
  }

  lemma HexValOfChar(d: nat)
    requires d < 16
    ensures IsHex(HexChar(d)) && HexVal(HexChar(d)) == d
  {
  }

  function Hex2(b: byte): (r: string)
    ensures |r| == 2
  {
    [HexChar(b / 16), HexChar(b % 16)]
  }

  function Dec(n: byte): (r: string)
    ensures |r| > 0
  {
    if n < 10 then [Num(n)]
    else if n < 100 then [Num(n / 10), Num(n % 10)]
    else [Num(n / 100), Num(n / 10 % 10), Num(n % 10)]
  }

  function Num(d: nat): char
    requires d < 10
  {
    '0' + d as char
  }

  // ---- Printing ----

  function ClassName(i: nat): string
    requires i <= EPD_PHONENUM
  {
    match i
    case 0 => "null"
    case 1 => "local"
    case 2 => "IP"
    case 3 => "MAC"
    case 4 => "magic"
    case _ => "phone"
  }

  /** Octets in groups: of four for a magic number made of whole words, else singly. */
  predicate Grouped(e: Epdisc) {
    e.cls as int == EPD_MAGIC && |e.value| % 4 == 0
  }

  function Between(e: Epdisc): char {
    if e.cls as int == EPD_MAC && |e.value| == 6 then ':' else '.'
  }

  /** What is put before octet i: a colon first, then a separator between groups. */
  function Sep(i: nat, grouped: bool, c: char): string {
    if i == 0 then ":" else if grouped && i % 4 != 0 then "" else [c]
  }

  /** The octets from position i on, each with what goes before it. */
  function PrintFrom(v: bytes, i: nat, grouped: bool, c: char): string
    requires i <= |v|
    decreases |v| - i
  {
    if i == |v| then "" else Sep(i, grouped, c) + Hex2(v[i]) + PrintFrom(v, i + 1, grouped, c)
  }

  function Dotted(v: bytes): string
    requires |v| == 4
  {
    Dec(v[0]) + "." + Dec(v[1]) + "." + Dec(v[2]) + "." + Dec(v[3])
  }

  function Prefix(e: Epdisc): string {
    if e.cls as int <= EPD_PHONENUM then ClassName(e.cls) else Dec(e.cls)
  }

  function Print(e: Epdisc): string {
    if e.cls as int == EPD_NULL && e.value == [] then "null"
    else if e.cls as int == EPD_IP && |e.value| == 4 then "IP:" + Dotted(e.value)
    else Prefix(e) + PrintFrom(e.value, 0, Grouped(e), Between(e))
  }

  // ---- Numbers in text ----

  function Lower(c: char): char {
    if 'A' <= c <= 'Z' then 'a' + (c - 'A') else c
  }

  predicate Begins(s: string, t: string) {
    |t| <= |s| && forall i | 0 <= i < |t| :: Lower(s[i]) == Lower(t[i])
  }

  predicate Blank(c: char) {
    c == ' ' || (9 <= c as int <= 13)
  }

  function Blanks(s: string): (n: nat)
    ensures n <= |s|
  {
    if s != [] && Blank(s[0]) then 1 + Blanks(s[1..]) else 0
  }

  predicate IsDigit(c: char, base: nat) {
    IsHex(c) && HexVal(c) < base
  }

  function DigitRun(s: string, base: nat): (n: nat)
    ensures n <= |s| && forall i | 0 <= i < n :: IsDigit(s[i], base)
  {
    if s != [] && IsDigit(s[0], base) then 1 + DigitRun(s[1..], base) else 0
  }

  function Scaled(a: nat, b: nat): nat {
    a * b
  }

  function ValueOf(s: string, base: nat): nat
    requires forall i | 0 <= i < |s| :: IsDigit(s[i], base)
  {
    if s == [] then 0
    else
      var high := ValueOf(s[..|s| - 1], base);
      assert IsDigit(s[|s| - 1], base);
      Scaled(high, base) + HexVal(s[|s| - 1])
  }

  /** A number at the start of a string: its sign, its magnitude, and how much of the string it takes; none
      is taken if there is no number. Base 0 means that the prefix tells the base. */
  datatype Number = Number(negative: bool, magnitude: nat, used: nat)

  function ReadNumber(s: string, base: nat): (r: Number)
    ensures r.used <= |s|
  {
    var w := Blanks(s);
    var signed := w < |s| && (s[w] == '-' || s[w] == '+');
    var at := if signed then w + 1 else w;
    var hexed := base == 0 && at + 2 < |s| && s[at] == '0' && (s[at + 1] == 'x' || s[at + 1] == 'X') &&
                 IsHex(s[at + 2]);
    var from := if hexed then at + 2 else at;
    var b := if base > 0 then base else if hexed then 16 else if at < |s| && s[at] == '0' then 8 else 10;
    var n := DigitRun(s[from..], b);
    if n == 0 then Number(false, 0, 0) else Number(signed && s[w] == '-', ValueOf(s[from..][..n], b), from + n)
  }

  const ULONG_MAX := 0xFFFF_FFFF

  function AsUnsigned(n: Number): u32 {
    if n.magnitude > ULONG_MAX then ULONG_MAX
    else if n.negative && n.magnitude > 0 then ULONG_MAX + 1 - n.magnitude
    else n.magnitude
  }

  /** Where octet k of an address goes, counting from the last. */
  function Place(k: nat): nat
    requires k <= 3
  {
    match k
    case 0 => 1
    case 1 => 0x100
    case 2 => 0x1_0000
    case _ => 0x100_0000
  }

  /** An address in dotted or plain form: how much of the string it takes, and its value. */
  function DottedFrom(s: string, k: nat, v: nat): Option<(nat, nat)>
    requires k <= 3
    decreases k
  {
    var n := ReadNumber(s, 0);
    var b := AsUnsigned(n);
    if n.used == 0 then None
    else if b > 255 then (if k < 3 then None else Some((n.used, b)))
    else
      var v' := v + b * Place(k);
      if k == 0 then Some((n.used, v'))
      else if n.used == |s| || s[n.used] != '.' then None
      else
        match DottedFrom(s[n.used + 1..], k - 1, v')
        case None => None
        case Some(r) => Some((n.used + 1 + r.0, r.1))
  }

  // ---- Reading ----

  function HexRun(s: string): (n: nat)
    ensures n <= |s| && forall i | 0 <= i < n :: IsHex(s[i])
  {
    if s != [] && IsHex(s[0]) then 1 + HexRun(s[1..]) else 0
  }

  predicate Separator(c: char) {
    c == ':' || c == '.'
  }

  /** The octets of a string of hexadecimal digits and separators, when `run` digits are left of the current
      stretch of digits and room for so many octets. */
  function ReadOctets(s: string, run: nat, room: nat): (r: Option<bytes>)
    requires run <= |s| && forall i | 0 <= i < run :: IsHex(s[i])
    ensures r.Some? ==> |r.value| <= room
    decreases |s|
  {
    if s == [] then Some([])
    else if room == 0 then None
    else
      var n := if run == 0 then HexRun(s) else run;
      if n == 0 then None
      else
        var k := if n % 2 == 0 then 2 else 1;
        var b: byte := if k == 2 then HexVal(s[0]) * 16 + HexVal(s[1]) else HexVal(s[0]);
        var skip := n == k && k < |s| && Separator(s[k]);
        match ReadOctets(if skip then s[k + 1..] else s[k..], if skip then 0 else n - k, room - 1)
        case None => None
        case Some(bs) => var all: bytes := [b] + bs; Some(all)
  }

  /** The class a string begins with, by name or by number, and how much of the string that takes. */
  function ReadClass(s: string): Option<(int, nat)> {
    if Begins(s, "null") then Some((0, 4))
    else if Begins(s, "local") then Some((1, 5))
    else if Begins(s, "IP") then Some((2, 2))
    else if Begins(s, "MAC") then Some((3, 3))
    else if Begins(s, "magic") then Some((4, 5))
    else if Begins(s, "phone") then Some((5, 5))
    else
      var n := ReadNumber(s, 10);
      if n.used == 0 then None else Some((AsSigned(n), n.used))
  }

  const LONG_MAX := 0x7FFF_FFFF

  function AsSigned(n: Number): int {
    if n.negative then (if n.magnitude > LONG_MAX + 1 then -LONG_MAX - 1 else 0 - n.magnitude)
    else if n.magnitude > LONG_MAX then LONG_MAX else n.magnitude
  }

  type HwAddr = b: bytes | |b| == 6 witness [0, 0, 0, 0, 0, 0]

  /** The hardware address of the interface of a given name, if there is one. */
  type Interfaces = string -> Option<HwAddr>

  function ReadValue(hw: Interfaces, i: int, u: string): Option<Epdisc> {
    var cls: byte := i % 256;
    if i == EPD_IP then
      match DottedFrom(u, 3, 0)
      case None => None
      case Some(r) => if r.0 != |u| then None else Some(Epdisc(cls, PutLong(r.1)))
    else if i == EPD_MAC && hw(u).Some? then Some(Epdisc(cls, hw(u).value))
    else
      match ReadOctets(u, 0, MAX_ENDP_LEN)
      case None => None
      case Some(bs) => if cls as int == EPD_MAC && |bs| != 6 then None else Some(Epdisc(cls, bs))
  }

  function Read(hw: Interfaces, s: string): Option<Epdisc> {
    match ReadClass(s)
    case None => None
    case Some((i, used)) =>
      if used > |s| then None
      else
        var t := s[used..];
        if t == [] then Some(Epdisc(i % 256, []))
        else if !Separator(t[0]) then None
        else ReadValue(hw, i, t[1..])
  }

  // ---- Reading back what was printed ----

  lemma {:induction false} RunOfDigits(ds: string, rest: string, base: nat)
    requires forall i | 0 <= i < |ds| :: IsDigit(ds[i], base)
    requires rest == [] || !IsDigit(rest[0], base)
    ensures DigitRun(ds + rest, base) == |ds|
  {
    if ds == [] {
      assert ds + rest == rest;
    } else {
      RunOfDigits(ds[1..], rest, base);
      assert (ds + rest)[1..] == ds[1..] + rest;
    }
  }

  lemma NumDigit(d: nat)
    requires d < 10
    ensures IsDigit(Num(d), 10) && HexVal(Num(d)) == d && (Num(d) == '0' <==> d == 0)
    ensures !Blank(Num(d)) && Num(d) != '-' && Num(d) != '+'
  {
  }

  predicate Decimal(s: string, v: nat) {
    && |s| > 0 && (forall i | 0 <= i < |s| :: IsDigit(s[i], 10)) && ValueOf(s, 10) == v
    && !Blank(s[0]) && s[0] != '-' && s[0] != '+'
  }

  lemma OneDecimal(d: nat)
    requires d < 10
    ensures Decimal([Num(d)], d)
  {
    NumDigit(d);
    OneDigitValue(d);
  }

  lemma MoreDecimal(s: string, v: nat, d: nat)
    requires Decimal(s, v) && d < 10
    ensures Decimal(s + [Num(d)], v * 10 + d)
  {
    hide IsDigit, HexVal, Num, Blank, ValueOf;
    MoreValue(s, d);
    assert (s + [Num(d)])[0] == s[0];
  }

  lemma DecDigits(b: byte)
    ensures Decimal(Dec(b), b) && (Dec(b)[0] == '0' <==> b == 0)
  {
    hide Decimal;
    var n: int := b;
    if n < 10 {
      OneDecimal(n);
    } else if n < 100 {
      OneDecimal(n / 10);
      MoreDecimal([Num(n / 10)], n / 10, n % 10);
      assert [Num(n / 10)] + [Num(n % 10)] == Dec(b);
    } else {
      OneDecimal(n / 100);
      MoreDecimal([Num(n / 100)], n / 100, n / 10 % 10);
      MoreDecimal([Num(n / 100)] + [Num(n / 10 % 10)], n / 10, n % 10);
      assert [Num(n / 100)] + [Num(n / 10 % 10)] + [Num(n % 10)] == Dec(b);
    }
  }

  lemma MoreValue(s: string, d: nat)
    requires d < 10 && forall i | 0 <= i < |s| :: IsDigit(s[i], 10)
    ensures forall i | 0 <= i < |s + [Num(d)]| :: IsDigit((s + [Num(d)])[i], 10)
    ensures ValueOf(s + [Num(d)], 10) == ValueOf(s, 10) * 10 + d
  {
    hide IsDigit, HexVal, Num;
    NumDigit(d);
    assert (s + [Num(d)])[..|s|] == s;
  }

  lemma OneDigitValue(d: nat)
    requires d < 10
    ensures IsDigit(Num(d), 10) && ValueOf([Num(d)], 10) == d
  {
    hide IsDigit, HexVal, Num;
    NumDigit(d);
    assert [] + [Num(d)] == [Num(d)];
    MoreValue([], d);
  }

  /** A decimal octet is read back, with the base given or told by the prefix. */
  lemma ReadDec(b: byte, rest: string, base: nat)
    requires base == 0 || base == 10
    requires rest == [] || Separator(rest[0])
    ensures ReadNumber(Dec(b) + rest, base) == Number(false, b, |Dec(b)|)
  {
    hide Dec, ValueOf;
    var s := Dec(b) + rest;
    DecDigits(b);
    assert s[0] == Dec(b)[0] && Blanks(s) == 0;
    assert s[0..] == s && s[..|Dec(b)|] == Dec(b);
    if base == 0 && b == 0 {
      ZeroDec();
      assert s[..1] == Dec(0);
      RunOfDigits(Dec(0), rest, 8);
      ZeroValue();
    } else {
      RunOfDigits(Dec(b), rest, 10);
    }
  }

  lemma ZeroDec()
    ensures Dec(0) == "0"
  {
  }

  lemma ZeroValue()
    ensures IsDigit('0', 8) && ValueOf("0", 8) == 0
  {
    assert "0"[..0] == "";
  }

  /** One octet of a dotted address. */
  lemma DottedStep(b: byte, rest: string, k: nat, v: nat)
    requires 0 < k <= 3
    ensures DottedFrom(Dec(b) + ("." + rest), k, v) ==
              match DottedFrom(rest, k - 1, v + b * Place(k))
              case None => None
              case Some(r) => Some((|Dec(b)| + 1 + r.0, r.1))
  {
    hide Dec, ReadNumber, DottedFrom, Place;
    var s := Dec(b) + ("." + rest);
    DottedUnfold(s, k, v);
    ReadDec(b, "." + rest, 0);
    assert s[|Dec(b)|] == '.' && s[|Dec(b)| + 1..] == rest;
  }

  lemma DottedLast(b: byte, v: nat)
    ensures DottedFrom(Dec(b), 0, v) == Some((|Dec(b)|, v + b))
  {
    hide Dec, ReadNumber;
    ReadDec(b, "", 0);
    assert Dec(b) + "" == Dec(b);
  }

  lemma DottedRead(v: bytes)
    requires |v| == 4
    ensures DottedFrom(Dotted(v), 3, 0) == Some((|Dotted(v)|, GetLong(v)))
  {
    hide Dec, DottedFrom;
    var d := Dec(v[3]);
    var c := Dec(v[2]) + ("." + d);
    var b := Dec(v[1]) + ("." + c);
    var a := Dec(v[0]) + ("." + b);
    assert a == Dotted(v);
    var v0: int, v1: int, v2: int := v[0], v[1], v[2];
    DottedLast(v[3], v0 * 0x100_0000 + v1 * 0x1_0000 + v2 * 0x100);
    DottedStep(v[2], d, 1, v0 * 0x100_0000 + v1 * 0x1_0000);
    DottedStep(v[1], c, 2, v0 * 0x100_0000);
    DottedStep(v[0], b, 3, 0);
  }

  // Octets

  lemma {:induction false} RunOfHex(ds: string, rest: string)
    requires forall i | 0 <= i < |ds| :: IsHex(ds[i])
    ensures HexRun(ds + rest) == |ds| + HexRun(rest)
  {
    hide IsHex;
    if ds == [] {
      assert ds + rest == rest;
    } else {
      RunOfHex(ds[1..], rest);
      assert (ds + rest)[1..] == ds[1..] + rest;
    }
  }

  lemma Hex2Digits(b: byte)
    ensures IsHex(Hex2(b)[0]) && IsHex(Hex2(b)[1]) && HexVal(Hex2(b)[0]) * 16 + HexVal(Hex2(b)[1]) == b
  {
    HexValOfChar(b / 16);
    HexValOfChar(b % 16);
  }

  /** The text of the octets from position i on, without what goes before the first of them. */
  function Tail(v: bytes, i: nat, grouped: bool, c: char): string
    requires i <= |v|
  {
    if i == |v| then "" else Hex2(v[i]) + PrintFrom(v, i + 1, grouped, c)
  }

  /** How many digits are left of the stretch in which octet i stands. */
  function DigitsLeft(i: nat, grouped: bool): nat {
    if grouped then 2 * (4 - i % 4) else 2
  }

  /** Grouped octets come in whole groups. */
  predicate Whole(n: nat, grouped: bool) {
    grouped ==> n % 4 == 0
  }

  lemma LeftSteps(i: nat, n: nat, grouped: bool, c: char)
    requires i < n && Whole(n, grouped)
    ensures DigitsLeft(i, grouped) >= 2 && DigitsLeft(i, grouped) % 2 == 0
    ensures i + 1 == n || Sep(i + 1, grouped, c) != "" ==> DigitsLeft(i, grouped) == 2
    ensures i + 1 < n && Sep(i + 1, grouped, c) == "" ==> DigitsLeft(i, grouped) == 2 + DigitsLeft(i + 1, grouped)
    ensures Sep(i + 1, grouped, c) == "" || Sep(i + 1, grouped, c) == [c]
  {
  }

  /** The text from one octet on. */
  lemma TailStep(v: bytes, i: nat, grouped: bool, c: char)
    requires i < |v|
    ensures Tail(v, i, grouped, c) ==
              Hex2(v[i]) + if i + 1 == |v| then "" else Sep(i + 1, grouped, c) + Tail(v, i + 1, grouped, c)
  {
    hide Hex2, Sep;
    if i + 1 < |v| {
      assert Sep(i + 1, grouped, c) + Hex2(v[i + 1]) + PrintFrom(v, i + 2, grouped, c)
          == Sep(i + 1, grouped, c) + (Hex2(v[i + 1]) + PrintFrom(v, i + 2, grouped, c));
    }
  }

  lemma {:induction false} RunAt(v: bytes, i: nat, grouped: bool, c: char)
    requires i < |v| && Separator(c) && Whole(|v|, grouped)
    ensures HexRun(Tail(v, i, grouped, c)) == DigitsLeft(i, grouped)
    decreases |v| - i
  {
    hide Hex2, IsHex, HexRun, Whole, DigitsLeft, Sep, Tail;
    LeftSteps(i, |v|, grouped, c);
    TailStep(v, i, grouped, c);
    Hex2Digits(v[i]);
    var rest := if i + 1 == |v| then "" else Sep(i + 1, grouped, c) + Tail(v, i + 1, grouped, c);
    RunOfHex(Hex2(v[i]), rest);
    if i + 1 < |v| && Sep(i + 1, grouped, c) == "" {
      RunAt(v, i + 1, grouped, c);
      assert "" + Tail(v, i + 1, grouped, c) == Tail(v, i + 1, grouped, c);
    } else {
      NoRun(rest);
    }
  }

  lemma NoRun(s: string)
    requires s == [] || Separator(s[0])
    ensures HexRun(s) == 0
  {
  }

  /** One octet of two digits read, and then the separator if there is one. */
  lemma ReadPair(s: string, run: nat, room: nat, n: nat, bs: bytes)
    requires n >= 2 && n % 2 == 0 && n == HexRun(s) && (run == 0 || run == n) && room > 0
    requires var skip := n == 2 && 2 < |s| && Separator(s[2]);
             ReadOctets(if skip then s[3..] else s[2..], if skip then 0 else n - 2, room - 1) == Some(bs)
    ensures var b := HexVal(s[0]) * 16 + HexVal(s[1]);
            0 <= b < 256 && ReadOctets(s, run, room) == Some([b as byte] + bs)
  {
    hide IsHex, HexVal, Separator, HexRun;
  }

  /** The last octet, or one after which the stretch of digits goes on. */
  lemma PairJoined(v: bytes, i: nat, t: string, run: nat, room: nat, n: nat)
    requires i < |v| && n % 2 == 0 && n == HexRun(Hex2(v[i]) + t) && (run == 0 || run == n) && room > 0
    requires n >= 2 && (n == 2 ==> t == "") && (n > 2 ==> n - 2 == HexRun(t))
    requires ReadOctets(t, n - 2, room - 1) == Some(v[i + 1..])
    ensures ReadOctets(Hex2(v[i]) + t, run, room) == Some(v[i..])
  {
    hide Hex2, IsHex, HexVal, HexRun, ReadOctets;
    var s := Hex2(v[i]) + t;
    Hex2Digits(v[i]);
    assert s[0] == Hex2(v[i])[0] && s[1] == Hex2(v[i])[1] && s[2..] == t;
    ReadPair(s, run, room, n, v[i + 1..]);
    assert v[i..] == [v[i]] + v[i + 1..];
  }

  /** An octet followed by a separator. */
  lemma PairSeparated(v: bytes, i: nat, c: char, t: string, run: nat, room: nat)
    requires i < |v| && 2 == HexRun(Hex2(v[i]) + ([c] + t)) && (run == 0 || run == 2) && room > 0 && Separator(c)
    requires ReadOctets(t, 0, room - 1) == Some(v[i + 1..])
    ensures ReadOctets(Hex2(v[i]) + ([c] + t), run, room) == Some(v[i..])
  {
    hide Hex2, IsHex, HexVal, HexRun, ReadOctets;
    var s := Hex2(v[i]) + ([c] + t);
    Hex2Digits(v[i]);
    assert s[0] == Hex2(v[i])[0] && s[1] == Hex2(v[i])[1] && s[2] == c && s[3..] == t;
    ReadPair(s, run, room, 2, v[i + 1..]);
    assert v[i..] == [v[i]] + v[i + 1..];
  }

  /** Octets printed are read back, whether the current stretch of digits is known or looked up. */
  lemma {:induction false} OctetsRead(v: bytes, i: nat, grouped: bool, c: char, run: nat, room: nat)
    requires i <= |v| && |v| - i <= room && Separator(c) && Whole(|v|, grouped)
    requires run == 0 || (i < |v| && run == DigitsLeft(i, grouped))
    ensures var s := Tail(v, i, grouped, c);
            && (run > 0 ==> run == HexRun(s))
            && ReadOctets(s, run, room) == Some(v[i..])
    decreases |v| - i
  {
    hide Hex2, IsHex, HexVal, HexRun, ReadOctets, Whole, DigitsLeft, Sep, Tail, Separator;
    if i == |v| {
      assert v[i..] == [];
      TailEnd(v, grouped, c);
      ReadEmpty(room);
    } else {
      RunAt(v, i, grouped, c);
      LeftSteps(i, |v|, grouped, c);
      TailStep(v, i, grouped, c);
      var n, t := DigitsLeft(i, grouped), Tail(v, i + 1, grouped, c);
      if i + 1 < |v| && Sep(i + 1, grouped, c) != "" {
        OctetsRead(v, i + 1, grouped, c, 0, room - 1);
        PairSeparated(v, i, c, t, run, room);
      } else {
        if i + 1 < |v| {
          LeftSteps(i + 1, |v|, grouped, c);
          assert "" + t == t;
        } else {
          TailEnd(v, grouped, c);
        }
        OctetsRead(v, i + 1, grouped, c, n - 2, room - 1);
        PairJoined(v, i, t, run, room, n);
      }
    }
  }

  lemma TailEnd(v: bytes, grouped: bool, c: char)
    ensures Tail(v, |v|, grouped, c) == ""
  {
  }

  lemma ReadEmpty(room: nat)
    ensures ReadOctets("", 0, room) == Some([])
  {
  }

  lemma FirstOctets(v: bytes, grouped: bool, c: char)
    requires |v| > 0
    ensures PrintFrom(v, 0, grouped, c) == ":" + Tail(v, 0, grouped, c)
  {
    hide Hex2;
  }

  // Classes

  lemma Unlike(s: string, t: string, i: nat)
    requires i < |t| && (i >= |s| || Lower(s[i]) != Lower(t[i]))
    ensures !Begins(s, t)
  {
  }

  /** The position at which two class names first differ. */
  function Differ(i: nat, j: nat): nat {
    if i == 4 && j == 3 then 2 else 0
  }

  lemma NamesDiffer(i: nat, j: nat)
    requires j < i <= EPD_PHONENUM
    ensures var d := Differ(i, j);
            d < |ClassName(i)| && d < |ClassName(j)| && Lower(ClassName(i)[d]) != Lower(ClassName(j)[d])
  {
  }

  lemma NamedClass(i: nat, t: string)
    requires i <= EPD_PHONENUM
    ensures ReadClass(ClassName(i) + t) == Some((i as int, |ClassName(i)|))
  {
    hide ReadClass, ClassName, Lower;
    var s := ClassName(i) + t;
    assert forall k | 0 <= k < |ClassName(i)| :: s[k] == ClassName(i)[k];
    assert Begins(s, ClassName(i));
    forall j: nat | j < i
      ensures !Begins(s, ClassName(j))
    {
      NamesDiffer(i, j);
      Unlike(s, ClassName(j), Differ(i, j));
    }
    NameFound(s, i);
  }

  lemma NumberedClass(b: byte, t: string)
    requires t == [] || Separator(t[0])
    ensures ReadClass(Dec(b) + t) == Some((b as int, |Dec(b)|))
  {
    hide ReadNumber, Dec;
    var s := Dec(b) + t;
    ReadDec(b, t, 10);
    DecDigits(b);
    assert s[0] == Dec(b)[0] && IsDigit(s[0], 10);
    DigitNoLetter(s[0]);
    Unlike(s, "null", 0);
    Unlike(s, "local", 0);
    Unlike(s, "IP", 0);
    Unlike(s, "MAC", 0);
    Unlike(s, "magic", 0);
    Unlike(s, "phone", 0);
  }

  lemma DigitNoLetter(c: char)
    requires IsDigit(c, 10)
    ensures Lower(c) == c && c <= '9'
  {
  }

  lemma PrefixRead(e: Epdisc, t: string)
    requires t == [] || Separator(t[0])
    ensures ReadClass(Prefix(e) + t) == Some((e.cls as int, |Prefix(e)|))
  {
    hide ReadClass, Dec, ClassName;
    if e.cls as int <= EPD_PHONENUM {
      NamedClass(e.cls, t);
    } else {
      NumberedClass(e.cls, t);
    }
  }

  // The whole

  /** What follows the class when a discriminator is printed. */
  function Text(e: Epdisc): string {
    if e.cls as int == EPD_IP && |e.value| == 4 then ":" + Dotted(e.value)
    else PrintFrom(e.value, 0, Grouped(e), Between(e))
  }

  lemma PrintParts(e: Epdisc)
    ensures Print(e) == Prefix(e) + Text(e)
    ensures e.value == [] <==> Text(e) == []
    ensures e.value != [] ==> Text(e)[0] == ':'
  {
    hide Dec, Hex2;
    if e.cls as int == EPD_IP && |e.value| == 4 {
      assert "IP:" == "IP" + ":";
      assert "IP" + ":" + Dotted(e.value) == "IP" + (":" + Dotted(e.value));
    } else if e.value != [] {
      FirstOctets(e.value, Grouped(e), Between(e));
    }
  }

  /** The discriminators whose text has another meaning: addresses of a length that is not theirs. */
  predicate OddLength(e: Epdisc) {
    || (e.cls as int == EPD_IP && |e.value| != 0 && |e.value| != 4)
    || (e.cls as int == EPD_MAC && |e.value| != 0 && |e.value| != 6)
  }

  lemma ReadIp(hw: Interfaces, u: string)
    ensures ReadValue(hw, EPD_IP, u).Some? ==> |ReadValue(hw, EPD_IP, u).value.value| == 4
  {
    hide DottedFrom;
  }

  /** A MAC address whose text is the name of an interface that has another one. */
  predicate Named(hw: Interfaces, e: Epdisc) {
    && e.cls as int == EPD_MAC && |e.value| == 6
    && var u := Tail(e.value, 0, Grouped(e), Between(e));
    hw(u).Some? && hw(u).value != e.value
  }

  lemma ReadOther(hw: Interfaces, e: Epdisc)
    requires e.value != [] && e.cls as int != EPD_IP
    ensures ReadValue(hw, e.cls, Tail(e.value, 0, Grouped(e), Between(e))) == Some(e) <==>
              !OddLength(e) && !Named(hw, e)
  {
    hide ReadOctets, Tail;
    OctetsRead(e.value, 0, Grouped(e), Between(e), 0, MAX_ENDP_LEN);
    assert e.value[0..] == e.value;
  }

  lemma ReadSplit(hw: Interfaces, e: Epdisc)
    requires e.value != []
    ensures Read(hw, Print(e)) == ReadValue(hw, e.cls, Text(e)[1..])
  {
    hide Print, Prefix, Text, ReadClass, ReadValue;
    PrintParts(e);
    PrefixRead(e, Text(e));
    var s := Print(e);
    assert s[|Prefix(e)|..] == Text(e);
  }

  lemma ReadNothing(hw: Interfaces, e: Epdisc)
    requires e.value == []
    ensures Read(hw, Print(e)) == Some(e)
  {
    hide Print, Prefix, Text, ReadClass, ReadValue;
    PrintParts(e);
    PrefixRead(e, "");
    assert Prefix(e) + "" == Prefix(e);
    assert Prefix(e)[|Prefix(e)|..] == "";
  }

  /** Reading back what was printed gives the same discriminator, unless it is an IP or MAC address of
      another length than such addresses have, or a MAC address that reads as the name of an interface which
      has another one. */
  lemma ReadPrintIff(hw: Interfaces, e: Epdisc)
    ensures Read(hw, Print(e)) == Some(e) <==> !OddLength(e) && !Named(hw, e)
  {
    hide Read, Print, ReadValue, Tail, Dotted, DottedFrom, GetLong, PutLong;
    if e.value == [] {
      ReadNothing(hw, e);
    } else {
      ReadSplit(hw, e);
      if e.cls as int != EPD_IP {
        ReadOther(hw, e);
        FirstOctets(e.value, Grouped(e), Between(e));
        assert Text(e)[1..] == Tail(e.value, 0, Grouped(e), Between(e));
      } else if |e.value| != 4 {
        ReadIp(hw, Text(e)[1..]);
      } else {
        assert Text(e)[1..] == Dotted(e.value);
        DottedBack(hw, e);
      }
    }
  }

  lemma DottedBack(hw: Interfaces, e: Epdisc)
    requires e.cls as int == EPD_IP && |e.value| == 4
    ensures ReadValue(hw, EPD_IP, Dotted(e.value)) == Some(e)
  {
    hide DottedFrom, Dotted, GetLong, PutLong;
    DottedRead(e.value);
    LongRoundTrip(GetLong(e.value), e.value);
  }

  /** How many separators stand before and among the first n octets. */
  function Groups(n: nat, grouped: bool): nat {
    if grouped then (n + 3) / 4 else n
  }

  /** Where octet k stands in a text: two digits for each octet before it, and the separators. */
  function PlaceOf(k: nat, grouped: bool): nat {
    2 * k + Groups(k + 1, grouped)
  }

  lemma SepSize(i: nat, grouped: bool, c: char)
    ensures |Sep(i, grouped, c)| == Groups(i + 1, grouped) - Groups(i, grouped)
    ensures i == 0 || !grouped || i % 4 == 0 ==> Sep(i, grouped, c) == [if i == 0 then ':' else c]
  {
  }

  lemma GroupsGrow(i: nat, k: nat, grouped: bool)
    requires i <= k
    ensures Groups(i, grouped) <= Groups(k, grouped)
  {
  }

  lemma Shifted(front: string, rest: string, at: nat)
    requires at + 2 <= |rest|
    ensures (front + rest)[|front| + at..|front| + at + 2] == rest[at..at + 2]
    ensures at > 0 ==> (front + rest)[|front| + at - 1] == rest[at - 1]
  {
  }

  lemma {:induction false} OctetPlaced(v: bytes, i: nat, grouped: bool, c: char, k: nat)
    requires i <= k < |v|
    ensures var s := PrintFrom(v, i, grouped, c);
            var at := PlaceOf(k, grouped) - 2 * i - Groups(i, grouped);
            && 0 <= at && at + 2 <= |s| && s[at..at + 2] == Hex2(v[k])
            && (k == 0 || !grouped || k % 4 == 0 ==> at > 0 && s[at - 1] == if k == 0 then ':' else c)
    decreases |v| - i
  {
    hide Hex2, Groups, Sep, PrintFrom;
    PrintStep(v, i, grouped, c);
    SepSize(i, grouped, c);
    var rest := PrintFrom(v, i + 1, grouped, c);
    var front := Sep(i, grouped, c) + Hex2(v[i]);
    if i < k {
      OctetPlaced(v, i + 1, grouped, c, k);
      GroupsGrow(i + 1, k, grouped);
      Shifted(front, rest, PlaceOf(k, grouped) - 2 * (i + 1) - Groups(i + 1, grouped));
    } else {
      assert (front + rest)[|front| - 2..|front|] == Hex2(v[i]);
    }
  }

  /** The text of any discriminator, the dotted ones aside: class, a colon, and the octets in hexadecimal; a magic
      number of whole words in groups of four octets, all others singly; a colon between the octets of a MAC address
      of six, a dot otherwise. */
  lemma TextIs(e: Epdisc, k: nat)
    requires k < |e.value| && !(e.cls as int == EPD_IP && |e.value| == 4)
    ensures var grouped := e.cls == 4 && |e.value| % 4 == 0;
            var at := |Prefix(e)| + PlaceOf(k, grouped);
            && Prefix(e) <= Print(e) && 0 < at && at + 2 <= |Print(e)| && Print(e)[at..at + 2] == Hex2(e.value[k])
            && (k == 0 || !grouped || k % 4 == 0 ==>
                  Print(e)[at - 1] == if k == 0 || (e.cls == 3 && |e.value| == 6) then ':' else '.')
  {
    hide Hex2, PrintFrom;
    var t := PrintFrom(e.value, 0, Grouped(e), Between(e));
    OctetPlaced(e.value, 0, Grouped(e), Between(e), k);
    var at := PlaceOf(k, Grouped(e));
    assert Print(e) == Prefix(e) + t;
    assert Print(e)[|Prefix(e)| + at..|Prefix(e)| + at + 2] == t[at..at + 2];
  }

  /** The room the source gives a printed discriminator, with the final zero. */
  const TEXT_ROOM := MAX_ENDP_LEN * 3 + 8

  lemma {:induction false} OctetsSize(v: bytes, i: nat, grouped: bool, c: char)
    requires i <= |v|
    ensures |PrintFrom(v, i, grouped, c)| <= 3 * (|v| - i)
    decreases |v| - i
  {
    if i < |v| {
      OctetsSize(v, i + 1, grouped, c);
    }
  }

  /** Every discriminator's text fits the room it is printed into. */
  lemma PrintFits(e: Epdisc)
    ensures |Print(e)| < TEXT_ROOM
  {
    OctetsSize(e.value, 0, Grouped(e), Between(e));
  }

  lemma PrintedOctet(v: bytes, i: nat, grouped: bool, c: char, rest: string)
    requires i < |v| && PrintFrom(v, i + 1, grouped, c) == rest
    ensures PrintFrom(v, i, grouped, c) == Sep(i, grouped, c) + [HexChar(v[i] / 16), HexChar(v[i] % 16)] + rest
  {
  }

  lemma NonePrinted(v: bytes, grouped: bool, c: char)
    ensures PrintFrom(v, |v|, grouped, c) == ""
  {
  }

  lemma PairPrinted(cls: byte)
    ensures Print(Epdisc(cls, [0xff, 1])) == Prefix(Epdisc(cls, [0xff, 1])) + ":ff.01"
  {
    hide PrintFrom;
    var v: bytes := [0xff, 1];
    NonePrinted(v, false, '.');
    PrintedOctet(v, 1, false, '.', "");
    PrintedOctet(v, 0, false, '.', ".01");
  }

  lemma Names()
    ensures "null" + ":ff.01" == "null:ff.01" && "local" + ":ff.01" == "local:ff.01" && "IP" + ":ff.01" == "IP:ff.01"
    ensures "MAC" + ":ff.01" == "MAC:ff.01" && "magic" + ":ff.01" == "magic:ff.01"
    ensures "phone" + ":ff.01" == "phone:ff.01" && "9" + ":ff.01" == "9:ff.01"
  {
  }

  /** What discriminators of two octets look like in each class, and in one without a name. */
  lemma PrintExamples()
    ensures var text := (cls: byte) => Print(Epdisc(cls, [0xff, 1]));
            && text(0) == "null:ff.01" && text(1) == "local:ff.01" && text(2) == "IP:ff.01"
            && text(3) == "MAC:ff.01" && text(4) == "magic:ff.01" && text(5) == "phone:ff.01" && text(9) == "9:ff.01"
  {
    hide Print;
    Names();
    PairPrinted(0);
    PairPrinted(1);
    PairPrinted(2);
    PairPrinted(3);
    PairPrinted(4);
    PairPrinted(5);
    PairPrinted(9);
  }

  // ---- The loops ----

  lemma PrintStep(v: bytes, i: nat, grouped: bool, c: char)
    requires i < |v|
    ensures PrintFrom(v, i, grouped, c) == Sep(i, grouped, c) + Hex2(v[i]) + PrintFrom(v, i + 1, grouped, c)
  {
  }

  /** Append the octets to what has been printed. */
  method PutOctets(start: string, v: bytes, grouped: bool, c2: char) returns (str: string)
    requires |v| <= MAX_ENDP_LEN
    ensures str == start + PrintFrom(v, 0, grouped, c2)
  {
    hide Hex2, PrintFrom, Sep;
    str := start;
    var c := ':';
    var i := 0;
    while i < |v| && i < MAX_ENDP_LEN
      invariant 0 <= i <= |v| && c == (if i == 0 then ':' else c2)
      invariant str + PrintFrom(v, i, grouped, c2) == start + PrintFrom(v, 0, grouped, c2)
    {
      PrintStep(v, i, grouped, c2);
      SepIs(i, grouped, c2);
      ghost var before, rest := str, PrintFrom(v, i + 1, grouped, c2);
      if !grouped || i % 4 == 0 {
        str := str + [c];
        c := c2;
      }
      assert str == before + Sep(i, grouped, c2);
      str := str + Hex2(v[i]);
      assert before + (Sep(i, grouped, c2) + Hex2(v[i]) + rest) == str + rest;
      i := i + 1;
    }
    PrintNothing(v, grouped, c2);
    assert str + "" == str;
  }

  lemma SepIs(i: nat, grouped: bool, c: char)
    ensures Sep(i, grouped, c) == if grouped && i % 4 != 0 then "" else if i == 0 then ":" else [c]
  {
  }

  lemma PrintNothing(v: bytes, grouped: bool, c: char)
    ensures PrintFrom(v, |v|, grouped, c) == ""
  {
  }

  method ToText(e: Epdisc) returns (str: string)
    ensures str == Print(e) && |str| < TEXT_ROOM
  {
    hide Dec, Dotted, PrintFrom;
    PrintFits(e);
    if e.cls as int == EPD_NULL && |e.value| == 0 {
      return "null";
    }
    if e.cls as int == EPD_IP && |e.value| == 4 {
      return "IP:" + Dotted(e.value);
    }
    var c2, grouped := '.', false;
    if e.cls as int == EPD_MAC && |e.value| == 6 {
      c2 := ':';
    } else if e.cls as int == EPD_MAGIC && |e.value| % 4 == 0 {
      grouped := true;
    }
    str := if e.cls as int <= EPD_PHONENUM then ClassName(e.cls) else Dec(e.cls);
    str := PutOctets(str, e.value, grouped, c2);
  }

  /** One octet off the front: its value, how many characters it takes with the separator after it, and how
      many digits are then left of the stretch. */
  function OneOctet(s: string, run: nat): Option<(byte, nat, nat)>
    requires run <= |s| && forall i | 0 <= i < run :: IsHex(s[i])
  {
    var n := if run == 0 then HexRun(s) else run;
    if n == 0 then None
    else
      var k := if n % 2 == 0 then 2 else 1;
      var b: byte := if k == 2 then HexVal(s[0]) * 16 + HexVal(s[1]) else HexVal(s[0]);
      if n == k && k < |s| && Separator(s[k]) then Some((b, k + 1, 0)) else Some((b, k, n - k))
  }

  lemma ReadStep(s: string, run: nat, room: nat)
    requires run <= |s| && (forall i | 0 <= i < run :: IsHex(s[i])) && s != "" && room > 0
    ensures OneOctet(s, run).None? ==> ReadOctets(s, run, room).None?
    ensures OneOctet(s, run).Some? ==>
              var (b, used, left) := OneOctet(s, run).value;
              && used + left <= |s| && (forall i | 0 <= i < left :: IsHex(s[used..][i]))
              && ReadOctets(s, run, room) == Prepend([b], ReadOctets(s[used..], left, room - 1))
  {
    hide IsHex, HexVal, HexRun;
  }

  lemma PrependTwice(v: bytes, b: byte, o: Option<bytes>)
    ensures Prepend(v, Prepend([b], o)) == Prepend(v + [b], o)
  {
    if o.Some? {
      assert v + ([b] + o.value) == v + [b] + o.value;
    }
  }

  /** Take one octet at a cursor, p marking the end of the current stretch of digits. */
  method TakeOctet(u: string, str: nat, p: nat) returns (ok: bool, b: byte, str': nat, p': nat)
    requires str < |u| && p <= |u| && forall k | str <= k < p :: IsHex(u[k])
    ensures var run := if p > str then p - str else 0;
            && (forall k | 0 <= k < run :: IsHex(u[str..][k]))
            && (ok <==> OneOctet(u[str..], run).Some?)
            && (ok ==>
                  && str < str' <= |u| && p' <= |u|
                  && OneOctet(u[str..], run).value == (b, str' - str, if p' > str' then p' - str' else 0))
  {
    hide IsHex, HexVal, HexRun;
    ghost var s := u[str..];
    assert forall k | 0 <= k < |s| :: s[k] == u[str + k];
    ok, b, str', p' := true, 0, str, p;
    if p' <= str {
      p' := ScanHex(u, str);
    }
    var i := p' - str;
    if i == 0 {
      ok := false;
      return;
    }
    assert IsHex(s[0]) && (i > 1 ==> IsHex(s[1]));
    b := HexVal(u[str']);
    str' := str' + 1;
    if i % 2 == 0 {
      b := HexVal(u[str]) * 16 + HexVal(u[str']);
      str' := str' + 1;
    }
    if str' < |u| && (u[str'] == ':' || u[str'] == '.') {
      if str' < p' {
        assert IsHex(s[str' - str]);
        NoHexSeparator(u[str']);
      }
      str' := str' + 1;
    }
  }

  lemma NoHexSeparator(c: char)
    ensures !(IsHex(c) && Separator(c))
  {
  }

  /** Read octets until the string ends, there is no digit, or there is no more room. */
  method FromHex(u: string) returns (value: Option<bytes>)
    ensures value == ReadOctets(u, 0, MAX_ENDP_LEN)
  {
    hide ReadOctets, HexVal, IsHex, HexRun, OneOctet;
    var str: nat, p: nat, l: nat := 0, 0, 0;
    var v: bytes := [];
    assert u[0..] == u;
    PrependNone(ReadOctets(u, 0, MAX_ENDP_LEN));
    while l < MAX_ENDP_LEN && str < |u|
      invariant str <= |u| && l <= MAX_ENDP_LEN && p <= |u|
      invariant p > str ==> forall k | 0 <= k < p - str :: IsHex(u[str..][k])
      invariant ReadOctets(u, 0, MAX_ENDP_LEN) ==
                  Prepend(v, ReadOctets(u[str..], if p > str then p - str else 0, MAX_ENDP_LEN - l))
      decreases MAX_ENDP_LEN - l
    {
      ghost var run := if p > str then p - str else 0;
      assert forall k | str <= k < p :: u[k] == u[str..][k - str];
      var ok, b, str', p' := TakeOctet(u, str, p);
      ReadStep(u[str..], run, MAX_ENDP_LEN - l);
      if !ok {
        return None;
      }
      assert u[str..][str' - str..] == u[str'..];
      PrependTwice(v, b, ReadOctets(u[str'..], if p' > str' then p' - str' else 0, MAX_ENDP_LEN - l - 1));
      v, l, str, p := v + [b], l + 1, str', p';
    }
    ReadEnd(u[str..], if p > str then p - str else 0, MAX_ENDP_LEN - l);
    if str < |u| {
      return None;
    }
    assert v + [] == v;
    return Some(v);
  }

  lemma PrependNone(o: Option<bytes>)
    ensures Prepend([], o) == o
  {
    if o.Some? {
      assert [] + o.value == o.value;
    }
  }

  lemma ReadEnd(s: string, run: nat, room: nat)
    requires run <= |s| && (forall i | 0 <= i < run :: IsHex(s[i])) && (s == "" || room == 0)
    ensures ReadOctets(s, run, room) == if s == "" then Some([]) else None
  {
  }

  function Prepend(v: bytes, o: Option<bytes>): Option<bytes> {
    match o
    case None => None
    case Some(w) => var all: bytes := v + w; Some(all)
  }

  method ScanHex(u: string, from: nat) returns (p: nat)
    requires from <= |u|
    ensures p == from + HexRun(u[from..]) <= |u|
  {
    p := from;
    while p < |u| && IsHex(u[p])
      invariant from <= p <= |u| && HexRun(u[from..]) == p - from + HexRun(u[p..])
    {
      assert u[p..][1..] == u[p + 1..];
      p := p + 1;
    }
  }

  /** What reading on at a cursor adds to what has been read. */
  function Onward(p: nat, o: Option<(nat, nat)>): Option<(nat, nat)> {
    match o
    case None => None
    case Some(r) => Some((p + r.0, r.1))
  }

  lemma DottedUnfold(s: string, k: nat, v: nat)
    requires k <= 3
    ensures var n := ReadNumber(s, 0);
            var b := AsUnsigned(n);
            DottedFrom(s, k, v) ==
              if n.used == 0 then None
              else if b > 255 then (if k < 3 then None else Some((n.used, b as nat)))
              else if k == 0 then Some((n.used, v + b * Place(k)))
              else if n.used == |s| || s[n.used] != '.' then None
              else Onward(n.used + 1, DottedFrom(s[n.used + 1..], k - 1, v + b * Place(k)))
  {
    hide ReadNumber, AsUnsigned, Place;
  }

  /** Read an address, octet by octet. */
  method ParseDotted(s: string) returns (r: Option<(nat, nat)>)
    ensures r == DottedFrom(s, 3, 0)
  {
    hide DottedFrom, ReadNumber, AsUnsigned, Place;
    var p: nat, v: nat, n: nat := 0, 0, 3;
    assert s[0..] == s;
    while true
      invariant p <= |s| && n <= 3
      invariant DottedFrom(s, 3, 0) == Onward(p, DottedFrom(s[p..], n, v))
      decreases n
    {
      var t := s[p..];
      DottedUnfold(t, n, v);
      var num := ReadNumber(t, 0);
      var b: nat := AsUnsigned(num);
      if num.used == 0 {
        return None;
      }
      if b > 255 {
        if n < 3 {
          return None;
        }
        return Some((p + num.used, b));
      }
      v := v + b * Place(n);
      if n == 0 {
        return Some((p + num.used, v));
      }
      if num.used == |t| || t[num.used] != '.' {
        return None;
      }
      assert t[num.used + 1..] == s[p + num.used + 1..];
      p, n := p + num.used + 1, n - 1;
    }
  }

  /** Find the class: try the names in order, then a number. */
  method ParseClass(s: string) returns (r: Option<(int, nat)>)
    ensures r == ReadClass(s)
  {
    hide Begins, ReadNumber;
    var i: nat := 0;
    while i <= EPD_PHONENUM
      invariant i <= EPD_PHONENUM + 1
      invariant forall j: nat | j < i :: !Begins(s, ClassName(j))
    {
      if Begins(s, ClassName(i)) {
        NameFound(s, i);
        return Some((i, |ClassName(i)|));
      }
      i := i + 1;
    }
    NoName(s);
    var n := ReadNumber(s, 10);
    if n.used == 0 {
      return None;
    }
    return Some((AsSigned(n), n.used));
  }

  lemma NameFound(s: string, i: nat)
    requires i <= EPD_PHONENUM && Begins(s, ClassName(i)) && forall j: nat | j < i :: !Begins(s, ClassName(j))
    ensures ReadClass(s) == Some((i as int, |ClassName(i)|))
  {
    hide Begins, ReadNumber;
    assert forall j: nat | j < i :: !Begins(s, ClassName(j));
    if i > 0 { assert !Begins(s, ClassName(0)); }
    if i > 1 { assert !Begins(s, ClassName(1)); }
    if i > 2 { assert !Begins(s, ClassName(2)); }
    if i > 3 { assert !Begins(s, ClassName(3)); }
    if i > 4 { assert !Begins(s, ClassName(4)); }
  }

  lemma NoName(s: string)
    requires forall j: nat | j <= EPD_PHONENUM :: !Begins(s, ClassName(j))
    ensures ReadClass(s) == var n := ReadNumber(s, 10); if n.used == 0 then None else Some((AsSigned(n), n.used))
  {
    hide Begins, ReadNumber;
    assert !Begins(s, ClassName(0)) && !Begins(s, ClassName(1)) && !Begins(s, ClassName(2));
    assert !Begins(s, ClassName(3)) && !Begins(s, ClassName(4)) && !Begins(s, ClassName(5));
  }

  /** Read a discriminator; the interfaces are looked up only for a MAC address. */
  method FromText(hw: Interfaces, s: string) returns (r: Option<Epdisc>)
    ensures r == Read(hw, s)
  {
    hide ReadClass, DottedFrom, ReadOctets, PutLong;
    var c := ParseClass(s);
    if c.None? {
      return None;
    }
    var i, used := c.value.0, c.value.1;
    if used > |s| {
      return None;
    }
    var cls: byte := i % 256;
    if used == |s| {
      return Some(Epdisc(cls, []));
    }
    if s[used] != ':' && s[used] != '.' {
      return None;
    }
    var u := s[used + 1..];
    assert s[used..][1..] == u;
    if i == EPD_IP {
      var a := ParseDotted(u);
      if a.None? || a.value.0 != |u| {
        return None;
      }
      return Some(Epdisc(cls, PutLong(a.value.1)));
    }
    if i == EPD_MAC && hw(u).Some? {
      return Some(Epdisc(cls, hw(u).value));
    }
    var v := FromHex(u);
    if v.None? || (cls as int == EPD_MAC && |v.value| != 6) {
      return None;
    }
    return Some(Epdisc(cls, v.value));
  }
}
