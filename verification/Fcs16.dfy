/** The frame check sequence of HDLC-like framing: the table-driven sum, the
    bit-by-bit sum it stands for, and what it catches. */
module Fcs16 {

  const INITFCS: bv16 := 0xffff
  const GOODFCS: bv16 := 0xf0b8
  const POLYNOMIAL: bv16 := 0x8408

  // ---- The definition, one bit at a time ----

  function Xor(a: bv16, b: bv16): bv16 { a ^ b }
  function Half(v: bv16): bv16 { v >> 1 }
  function Lowest(v: bv16): bv16 { v & 1 }
  function Octet(b: bv8): bv16 { b as bv16 }

  /** Divide out one bit. */
  function Divide(v: bv16): bv16 {
    if v & 1 == 1 then (v >> 1) ^ POLYNOMIAL else v >> 1
  }

  /** Bit i of an octet, as a number. */
  function BitOf(b: bv8, i: bv8): bv16
    requires i < 8
  {
    ((b >> i) & 1) as bv16
  }

  /** Take in one octet, least significant bit first. */
  function TakeBits(fcs: bv16, b: bv8): bv16 {
    var a0 := Divide(Xor(fcs, BitOf(b, 0)));
    var a1 := Divide(Xor(a0, BitOf(b, 1)));
    var a2 := Divide(Xor(a1, BitOf(b, 2)));
    var a3 := Divide(Xor(a2, BitOf(b, 3)));
    var a4 := Divide(Xor(a3, BitOf(b, 4)));
    var a5 := Divide(Xor(a4, BitOf(b, 5)));
    var a6 := Divide(Xor(a5, BitOf(b, 6)));
    Divide(Xor(a6, BitOf(b, 7)))
  }

  /** The sum of a message, from some starting value. */
  function Sum(fcs: bv16, msg: seq<bv8>): bv16 {
    if msg == [] then fcs else TakeBits(Sum(fcs, msg[..|msg| - 1]), msg[|msg| - 1])
  }

  // ---- The table ----
  function Row0(i: bv16): bv16 {
    match i
    case 0 => 0x0000 case 1 => 0x1189 case 2 => 0x2312 case 3 => 0x329b
    case 4 => 0x4624 case 5 => 0x57ad case 6 => 0x6536 case 7 => 0x74bf
    case 8 => 0x8c48 case 9 => 0x9dc1 case 10 => 0xaf5a case 11 => 0xbed3
    case 12 => 0xca6c case 13 => 0xdbe5 case 14 => 0xe97e case _ => 0xf8f7
  }

  function Row1(i: bv16): bv16 {
    match i
    case 16 => 0x1081 case 17 => 0x0108 case 18 => 0x3393 case 19 => 0x221a
    case 20 => 0x56a5 case 21 => 0x472c case 22 => 0x75b7 case 23 => 0x643e
    case 24 => 0x9cc9 case 25 => 0x8d40 case 26 => 0xbfdb case 27 => 0xae52
    case 28 => 0xdaed case 29 => 0xcb64 case 30 => 0xf9ff case _ => 0xe876
  }

  function Row2(i: bv16): bv16 {
    match i
    case 32 => 0x2102 case 33 => 0x308b case 34 => 0x0210 case 35 => 0x1399
    case 36 => 0x6726 case 37 => 0x76af case 38 => 0x4434 case 39 => 0x55bd
    case 40 => 0xad4a case 41 => 0xbcc3 case 42 => 0x8e58 case 43 => 0x9fd1
    case 44 => 0xeb6e case 45 => 0xfae7 case 46 => 0xc87c case _ => 0xd9f5
  }

  function Row3(i: bv16): bv16 {
    match i
    case 48 => 0x3183 case 49 => 0x200a case 50 => 0x1291 case 51 => 0x0318
    case 52 => 0x77a7 case 53 => 0x662e case 54 => 0x54b5 case 55 => 0x453c
    case 56 => 0xbdcb case 57 => 0xac42 case 58 => 0x9ed9 case 59 => 0x8f50
    case 60 => 0xfbef case 61 => 0xea66 case 62 => 0xd8fd case _ => 0xc974
  }

  function Row4(i: bv16): bv16 {
    match i
    case 64 => 0x4204 case 65 => 0x538d case 66 => 0x6116 case 67 => 0x709f
    case 68 => 0x0420 case 69 => 0x15a9 case 70 => 0x2732 case 71 => 0x36bb
    case 72 => 0xce4c case 73 => 0xdfc5 case 74 => 0xed5e case 75 => 0xfcd7
    case 76 => 0x8868 case 77 => 0x99e1 case 78 => 0xab7a case _ => 0xbaf3
  }

  function Row5(i: bv16): bv16 {
    match i
    case 80 => 0x5285 case 81 => 0x430c case 82 => 0x7197 case 83 => 0x601e
    case 84 => 0x14a1 case 85 => 0x0528 case 86 => 0x37b3 case 87 => 0x263a
    case 88 => 0xdecd case 89 => 0xcf44 case 90 => 0xfddf case 91 => 0xec56
    case 92 => 0x98e9 case 93 => 0x8960 case 94 => 0xbbfb case _ => 0xaa72
  }

  function Row6(i: bv16): bv16 {
    match i
    case 96 => 0x6306 case 97 => 0x728f case 98 => 0x4014 case 99 => 0x519d
    case 100 => 0x2522 case 101 => 0x34ab case 102 => 0x0630 case 103 => 0x17b9
    case 104 => 0xef4e case 105 => 0xfec7 case 106 => 0xcc5c case 107 => 0xddd5
    case 108 => 0xa96a case 109 => 0xb8e3 case 110 => 0x8a78 case _ => 0x9bf1
  }

  function Row7(i: bv16): bv16 {
    match i
    case 112 => 0x7387 case 113 => 0x620e case 114 => 0x5095 case 115 => 0x411c
    case 116 => 0x35a3 case 117 => 0x242a case 118 => 0x16b1 case 119 => 0x0738
    case 120 => 0xffcf case 121 => 0xee46 case 122 => 0xdcdd case 123 => 0xcd54
    case 124 => 0xb9eb case 125 => 0xa862 case 126 => 0x9af9 case _ => 0x8b70
  }

  function Row8(i: bv16): bv16 {
    match i
    case 128 => 0x8408 case 129 => 0x9581 case 130 => 0xa71a case 131 => 0xb693
    case 132 => 0xc22c case 133 => 0xd3a5 case 134 => 0xe13e case 135 => 0xf0b7
    case 136 => 0x0840 case 137 => 0x19c9 case 138 => 0x2b52 case 139 => 0x3adb
    case 140 => 0x4e64 case 141 => 0x5fed case 142 => 0x6d76 case _ => 0x7cff
  }

  function Row9(i: bv16): bv16 {
    match i
    case 144 => 0x9489 case 145 => 0x8500 case 146 => 0xb79b case 147 => 0xa612
    case 148 => 0xd2ad case 149 => 0xc324 case 150 => 0xf1bf case 151 => 0xe036
    case 152 => 0x18c1 case 153 => 0x0948 case 154 => 0x3bd3 case 155 => 0x2a5a
    case 156 => 0x5ee5 case 157 => 0x4f6c case 158 => 0x7df7 case _ => 0x6c7e
  }

  function Row10(i: bv16): bv16 {
    match i
    case 160 => 0xa50a case 161 => 0xb483 case 162 => 0x8618 case 163 => 0x9791
    case 164 => 0xe32e case 165 => 0xf2a7 case 166 => 0xc03c case 167 => 0xd1b5
    case 168 => 0x2942 case 169 => 0x38cb case 170 => 0x0a50 case 171 => 0x1bd9
    case 172 => 0x6f66 case 173 => 0x7eef case 174 => 0x4c74 case _ => 0x5dfd
  }

  function Row11(i: bv16): bv16 {
    match i
    case 176 => 0xb58b case 177 => 0xa402 case 178 => 0x9699 case 179 => 0x8710
    case 180 => 0xf3af case 181 => 0xe226 case 182 => 0xd0bd case 183 => 0xc134
    case 184 => 0x39c3 case 185 => 0x284a case 186 => 0x1ad1 case 187 => 0x0b58
    case 188 => 0x7fe7 case 189 => 0x6e6e case 190 => 0x5cf5 case _ => 0x4d7c
  }

  function Row12(i: bv16): bv16 {
    match i
    case 192 => 0xc60c case 193 => 0xd785 case 194 => 0xe51e case 195 => 0xf497
    case 196 => 0x8028 case 197 => 0x91a1 case 198 => 0xa33a case 199 => 0xb2b3
    case 200 => 0x4a44 case 201 => 0x5bcd case 202 => 0x6956 case 203 => 0x78df
    case 204 => 0x0c60 case 205 => 0x1de9 case 206 => 0x2f72 case _ => 0x3efb
  }

  function Row13(i: bv16): bv16 {
    match i
    case 208 => 0xd68d case 209 => 0xc704 case 210 => 0xf59f case 211 => 0xe416
    case 212 => 0x90a9 case 213 => 0x8120 case 214 => 0xb3bb case 215 => 0xa232
    case 216 => 0x5ac5 case 217 => 0x4b4c case 218 => 0x79d7 case 219 => 0x685e
    case 220 => 0x1ce1 case 221 => 0x0d68 case 222 => 0x3ff3 case _ => 0x2e7a
  }

  function Row14(i: bv16): bv16 {
    match i
    case 224 => 0xe70e case 225 => 0xf687 case 226 => 0xc41c case 227 => 0xd595
    case 228 => 0xa12a case 229 => 0xb0a3 case 230 => 0x8238 case 231 => 0x93b1
    case 232 => 0x6b46 case 233 => 0x7acf case 234 => 0x4854 case 235 => 0x59dd
    case 236 => 0x2d62 case 237 => 0x3ceb case 238 => 0x0e70 case _ => 0x1ff9
  }

  function Row15(i: bv16): bv16 {
    match i
    case 240 => 0xf78f case 241 => 0xe606 case 242 => 0xd49d case 243 => 0xc514
    case 244 => 0xb1ab case 245 => 0xa022 case 246 => 0x92b9 case 247 => 0x8330
    case 248 => 0x7bc7 case 249 => 0x6a4e case 250 => 0x58d5 case 251 => 0x495c
    case 252 => 0x3de3 case 253 => 0x2c6a case 254 => 0x1ef1 case _ => 0x0f78
  }

  /** The entry for an octet. */
  function Entry(i: bv16): bv16 {
    if i < 16 then Row0(i)
    else if i < 32 then Row1(i)
    else if i < 48 then Row2(i)
    else if i < 64 then Row3(i)
    else if i < 80 then Row4(i)
    else if i < 96 then Row5(i)
    else if i < 112 then Row6(i)
    else if i < 128 then Row7(i)
    else if i < 144 then Row8(i)
    else if i < 160 then Row9(i)
    else if i < 176 then Row10(i)
    else if i < 192 then Row11(i)
    else if i < 208 then Row12(i)
    else if i < 224 then Row13(i)
    else if i < 240 then Row14(i)
    else Row15(i)
  }

  /** Eight divisions. */
  function Divide8(v: bv16): bv16 {
    Divide(Divide(Divide(Divide(Divide(Divide(Divide(Divide(v))))))))
  }

  lemma Row0Entries(i: bv16)
    requires 0 <= i < 16
    ensures Row0(i) == Divide8(i)
  {
  }

  lemma Row1Entries(i: bv16)
    requires 16 <= i < 32
    ensures Row1(i) == Divide8(i)
  {
  }

  lemma Row2Entries(i: bv16)
    requires 32 <= i < 48
    ensures Row2(i) == Divide8(i)
  {
  }

  lemma Row3Entries(i: bv16)
    requires 48 <= i < 64
    ensures Row3(i) == Divide8(i)
  {
  }

  lemma Row4Entries(i: bv16)
    requires 64 <= i < 80
    ensures Row4(i) == Divide8(i)
  {
  }

  lemma Row5Entries(i: bv16)
    requires 80 <= i < 96
    ensures Row5(i) == Divide8(i)
  {
  }

  lemma Row6Entries(i: bv16)
    requires 96 <= i < 112
    ensures Row6(i) == Divide8(i)
  {
  }

  lemma Row7Entries(i: bv16)
    requires 112 <= i < 128
    ensures Row7(i) == Divide8(i)
  {
  }

  lemma Row8Entries(i: bv16)
    requires 128 <= i < 144
    ensures Row8(i) == Divide8(i)
  {
  }

  lemma Row9Entries(i: bv16)
    requires 144 <= i < 160
    ensures Row9(i) == Divide8(i)
  {
  }

  lemma Row10Entries(i: bv16)
    requires 160 <= i < 176
    ensures Row10(i) == Divide8(i)
  {
  }

  lemma Row11Entries(i: bv16)
    requires 176 <= i < 192
    ensures Row11(i) == Divide8(i)
  {
  }

  lemma Row12Entries(i: bv16)
    requires 192 <= i < 208
    ensures Row12(i) == Divide8(i)
  {
  }

  lemma Row13Entries(i: bv16)
    requires 208 <= i < 224
    ensures Row13(i) == Divide8(i)
  {
  }

  lemma Row14Entries(i: bv16)
    requires 224 <= i < 240
    ensures Row14(i) == Divide8(i)
  {
  }

  lemma Row15Entries(i: bv16)
    requires 240 <= i < 256
    ensures Row15(i) == Divide8(i)
  {
  }

  /** Every entry of the table is its index divided out eight times. */
  lemma EntryIsRemainder(i: bv16)
    requires i < 256
    ensures Entry(i) == Divide8(i)
  {
    hide Divide8, Row0, Row1, Row2, Row3, Row4, Row5, Row6, Row7, Row8, Row9, Row10, Row11, Row12, Row13, Row14, Row15;
    if i < 16 {
      Row0Entries(i);
    } else if i < 32 {
      Row1Entries(i);
    } else if i < 48 {
      Row2Entries(i);
    } else if i < 64 {
      Row3Entries(i);
    } else if i < 80 {
      Row4Entries(i);
    } else if i < 96 {
      Row5Entries(i);
    } else if i < 112 {
      Row6Entries(i);
    } else if i < 128 {
      Row7Entries(i);
    } else if i < 144 {
      Row8Entries(i);
    } else if i < 160 {
      Row9Entries(i);
    } else if i < 176 {
      Row10Entries(i);
    } else if i < 192 {
      Row11Entries(i);
    } else if i < 208 {
      Row12Entries(i);
    } else if i < 224 {
      Row13Entries(i);
    } else if i < 240 {
      Row14Entries(i);
    } else {
      Row15Entries(i);
    }
  }

  // ---- Exclusive or and division ----

  lemma XorZero(a: bv16)
    ensures Xor(a, 0) == a
  {
  }

  lemma XorCommutes(a: bv16, b: bv16)
    ensures Xor(a, b) == Xor(b, a)
  {
  }

  lemma XorAssociates(a: bv16, b: bv16, c: bv16)
    ensures Xor(Xor(a, b), c) == Xor(a, Xor(b, c))
  {
  }

  lemma XorUndoes(a: bv16, b: bv16)
    ensures Xor(a, Xor(a, b)) == b
  {
  }

  lemma XorSelf(a: bv16)
    ensures Xor(a, a) == 0
  {
  }

  lemma XorNil(a: bv16, b: bv16)
    ensures Xor(a, b) == 0 <==> a == b
  {
    hide Xor;
    XorSelf(a);
    XorUndoes(a, b);
    XorZero(a);
  }

  lemma XorFacts(a: bv16, b: bv16, c: bv16)
    ensures Xor(a, 0) == a && Xor(a, b) == Xor(b, a)
    ensures Xor(Xor(a, b), c) == Xor(a, Xor(b, c)) && Xor(a, Xor(a, b)) == b
    ensures Xor(a, b) == 0 <==> a == b
  {
    hide Xor;
    XorZero(a);
    XorCommutes(a, b);
    XorAssociates(a, b, c);
    XorUndoes(a, b);
    XorNil(a, b);
  }

  lemma HalfXor(a: bv16, b: bv16)
    ensures Half(Xor(a, b)) == Xor(Half(a), Half(b))
  {
  }

  lemma LowestXor(a: bv16, b: bv16)
    ensures Lowest(Xor(a, b)) == if Lowest(a) == Lowest(b) then 0 else 1
    ensures Lowest(a) == 0 || Lowest(a) == 1
  {
  }

  lemma DivideCases(v: bv16)
    ensures Divide(v) == if Lowest(v) == 1 then Xor(Half(v), POLYNOMIAL) else Half(v)
  {
  }

  lemma DivideLinear(a: bv16, b: bv16)
    ensures Divide(Xor(a, b)) == Xor(Divide(a), Divide(b))
  {
    hide Xor, Half, Lowest, Divide;
    var x, y, p := Half(a), Half(b), POLYNOMIAL;
    DivideCases(a);
    DivideCases(b);
    DivideCases(Xor(a, b));
    LowestXor(a, b);
    LowestXor(b, a);
    HalfXor(a, b);
    XorFacts(x, y, p);
    XorFacts(x, p, y);
    XorFacts(y, p, 0);
    XorFacts(p, y, p);
    XorFacts(x, p, Xor(y, p));
    XorFacts(p, y, 0);
    XorFacts(p, Xor(y, p), 0);
  }

  /** Division of a value with no lowest bit is halving. */
  lemma DivideEven(u: bv16)
    ensures Lowest(u) == 0 ==> Divide(u) == Half(u)
  {
  }

  lemma DivideOneToOne(a: bv16, b: bv16)
    ensures Divide(a) == Divide(b) ==> a == b
  {
    hide Xor, Divide;
    DivideLinear(a, b);
    XorNil(a, b);
    XorNil(Divide(a), Divide(b));
    DivideZero(Xor(a, b));
  }

  lemma DivideZero(u: bv16)
    ensures Divide(u) == 0 ==> u == 0
  {
  }

  lemma SplitLowest(c: bv16)
    ensures Lowest(Xor(c, Lowest(c))) == 0 && Half(Xor(c, Lowest(c))) == Half(c)
  {
  }

  /** The bits above the lowest ride along. */
  lemma DivideCarries(v: bv16, c: bv16)
    ensures Divide(Xor(v, c)) == Xor(Divide(Xor(v, Lowest(c))), Half(c))
  {
    hide Xor, Divide, Lowest, Half;
    var l := Lowest(c);
    var h := Xor(c, l);
    XorFacts(c, l, 0);
    XorFacts(l, c, 0);
    XorFacts(v, l, h);
    DivideLinear(Xor(v, l), h);
    SplitLowest(c);
    DivideEven(h);
  }

  lemma OctetBit(b: bv8)
    ensures BitOf(b, 0) == Lowest(Octet(b)) && BitOf(b, 1) == Lowest(Half(Octet(b)))
    ensures BitOf(b, 2) == Lowest(Half(Half(Octet(b)))) && BitOf(b, 3) == Lowest(Half(Half(Half(Octet(b)))))
    ensures BitOf(b, 4) == Lowest(Half(Half(Half(Half(Octet(b))))))
    ensures BitOf(b, 5) == Lowest(Half(Half(Half(Half(Half(Octet(b)))))))
    ensures BitOf(b, 6) == Lowest(Half(Half(Half(Half(Half(Half(Octet(b))))))))
    ensures BitOf(b, 7) == Lowest(Half(Half(Half(Half(Half(Half(Half(Octet(b)))))))))
    ensures Half(Half(Half(Half(Half(Half(Half(Half(Octet(b)))))))) ) == 0
  {
  }

  /** Taking in the bits of an octet one by one is taking them in all at once. */
  lemma BitsAtOnce(fcs: bv16, b: bv8)
    ensures TakeBits(fcs, b) == Divide8(Xor(fcs, Octet(b)))
  {
    hide Divide, BitOf, Xor, Half, Lowest, Octet;
    var c0 := Octet(b);
    OctetBit(b);
    var c1 := Half(c0);
    var c2 := Half(c1);
    var c3 := Half(c2);
    var c4 := Half(c3);
    var c5 := Half(c4);
    var c6 := Half(c5);
    var c7 := Half(c6);
    var a0 := Divide(Xor(fcs, BitOf(b, 0)));
    DivideCarries(fcs, c0);
    var a1 := Divide(Xor(a0, BitOf(b, 1)));
    DivideCarries(a0, c1);
    var a2 := Divide(Xor(a1, BitOf(b, 2)));
    DivideCarries(a1, c2);
    var a3 := Divide(Xor(a2, BitOf(b, 3)));
    DivideCarries(a2, c3);
    var a4 := Divide(Xor(a3, BitOf(b, 4)));
    DivideCarries(a3, c4);
    var a5 := Divide(Xor(a4, BitOf(b, 5)));
    DivideCarries(a4, c5);
    var a6 := Divide(Xor(a5, BitOf(b, 6)));
    DivideCarries(a5, c6);
    var a7 := Divide(Xor(a6, BitOf(b, 7)));
    DivideCarries(a6, c7);
    XorFacts(a7, 0, 0);
  }

  function LowOctet(v: bv16): bv16 { v & 0xff }
  function HighOctet(v: bv16): bv16 { v >> 8 }
  function Shifted(v: bv16): bv16 { v & 0xff00 }

  lemma SplitOctets(v: bv16)
    ensures v == Xor(LowOctet(v), Shifted(v)) && LowOctet(v) < 256
  {
  }

  lemma ShiftedHalves(v: bv16)
    ensures Lowest(Shifted(v)) == 0 && Lowest(Half(Shifted(v))) == 0 && Lowest(Half(Half(Shifted(v)))) == 0
    ensures Lowest(Half(Half(Half(Shifted(v))))) == 0 && Lowest(Half(Half(Half(Half(Shifted(v)))))) == 0
    ensures Lowest(Half(Half(Half(Half(Half(Shifted(v))))))) == 0
    ensures Lowest(Half(Half(Half(Half(Half(Half(Shifted(v)))))))) == 0
    ensures Lowest(Half(Half(Half(Half(Half(Half(Half(Shifted(v))))))))) == 0
    ensures Half(Half(Half(Half(Half(Half(Half(Half(Shifted(v)))))))) ) == HighOctet(v)
  {
  }

  lemma Divide8Linear(a: bv16, b: bv16)
    ensures Divide8(Xor(a, b)) == Xor(Divide8(a), Divide8(b))
  {
    hide Divide, Xor;
    DivideLinear(a, b);
    var a1, b1 := Divide(a), Divide(b);
    DivideLinear(a1, b1);
    var a2, b2 := Divide(a1), Divide(b1);
    DivideLinear(a2, b2);
    var a3, b3 := Divide(a2), Divide(b2);
    DivideLinear(a3, b3);
    var a4, b4 := Divide(a3), Divide(b3);
    DivideLinear(a4, b4);
    var a5, b5 := Divide(a4), Divide(b4);
    DivideLinear(a5, b5);
    var a6, b6 := Divide(a5), Divide(b5);
    DivideLinear(a6, b6);
    DivideLinear(Divide(a6), Divide(b6));
  }

  lemma Divide8Shifted(v: bv16)
    ensures Divide8(Shifted(v)) == HighOctet(v)
  {
    hide Divide, Half, Lowest, Shifted, HighOctet;
    ShiftedHalves(v);
    var h := Shifted(v);
    DivideEven(h);
    var h1 := Half(h);
    DivideEven(h1);
    var h2 := Half(h1);
    DivideEven(h2);
    var h3 := Half(h2);
    DivideEven(h3);
    var h4 := Half(h3);
    DivideEven(h4);
    var h5 := Half(h4);
    DivideEven(h5);
    var h6 := Half(h5);
    DivideEven(h6);
    DivideEven(Half(h6));
  }

  /** The low octet alone decides what is divided out. */
  lemma LowOctetDecides(v: bv16)
    ensures Divide8(v) == Xor(HighOctet(v), Divide8(LowOctet(v)))
  {
    hide Divide8, Xor, LowOctet, HighOctet, Shifted;
    SplitOctets(v);
    Divide8Linear(LowOctet(v), Shifted(v));
    Divide8Shifted(v);
    XorFacts(Divide8(LowOctet(v)), HighOctet(v), 0);
  }

  /** One turn of the table-driven loop. */
  function TableStep(fcs: bv16, b: bv8): bv16 {
    Xor(HighOctet(fcs), Entry(LowOctet(Xor(fcs, Octet(b)))))
  }

  lemma OctetBelow(fcs: bv16, b: bv8)
    ensures HighOctet(Xor(fcs, Octet(b))) == HighOctet(fcs)
  {
  }

  lemma TableStepTakes(fcs: bv16, b: bv8)
    ensures TableStep(fcs, b) == TakeBits(fcs, b)
  {
    hide TakeBits, Entry, Divide8, Xor, Octet, LowOctet, HighOctet;
    var v := Xor(fcs, Octet(b));
    OctetBelow(fcs, b);
    SplitOctets(v);
    EntryIsRemainder(LowOctet(v));
    LowOctetDecides(v);
    BitsAtOnce(fcs, b);
  }

  /** The table-driven loop computes the bit-by-bit sum of every message. */
  method PppFcs16(fcs: bv16, cp: seq<bv8>) returns (r: bv16)
    ensures r == Sum(fcs, cp)
  {
    hide TableStep, TakeBits;
    r := fcs;
    var i := 0;
    while i < |cp|
      invariant 0 <= i <= |cp|
      invariant r == Sum(fcs, cp[..i])
    {
      assert cp[..i + 1][..i] == cp[..i];
      TableStepTakes(r, cp[i]);
      r := TableStep(r, cp[i]);
      i := i + 1;
    }
    assert cp[..i] == cp;
  }

  // ---- What a receiver may conclude ----

  function Low(v: bv16): bv8 { (v & 0xff) as bv8 }
  function High(v: bv16): bv8 { (v >> 8) as bv8 }

  lemma Complement(v: bv16)
    ensures HighOctet(Xor(v, Octet(Low(v ^ 0xffff)))) == HighOctet(v)
    ensures LowOctet(Xor(v, Octet(Low(v ^ 0xffff)))) == 0xff
    ensures Xor(Xor(HighOctet(v), 0x0f78), Octet(High(v ^ 0xffff))) == 0x0f87
  {
  }

  lemma TwoRemainders()
    ensures Divide8(0xff) == 0x0f78 && Divide8(0x0f87) == GOODFCS
  {
  }

  /** The complement of a sum, low octet first, always leads to the good value. */
  lemma ComplementIsGood(v: bv16)
    ensures TakeBits(TakeBits(v, Low(v ^ 0xffff)), High(v ^ 0xffff)) == GOODFCS
  {
    hide TakeBits, Divide8, Low, High, Xor, Octet, LowOctet, HighOctet;
    var x, y := Low(v ^ 0xffff), High(v ^ 0xffff);
    BitsAtOnce(v, x);
    LowOctetDecides(Xor(v, Octet(x)));
    Complement(v);
    TwoRemainders();
    BitsAtOnce(TakeBits(v, x), y);
  }

  lemma SumTwo(fcs: bv16, msg: seq<bv8>, x: bv8, y: bv8)
    ensures Sum(fcs, msg + [x, y]) == TakeBits(TakeBits(Sum(fcs, msg), x), y)
  {
    hide TakeBits;
    var all := msg + [x, y];
    assert all[..|msg| + 1] == msg + [x];
    assert (msg + [x])[..|msg|] == msg;
  }

  // ---- Damage ----

  function One(d: bool): bv16 { if d then 1 else 0 }

  /** The sum of a string of bits. */
  function SumBits(fcs: bv16, bits: seq<bool>): bv16
    decreases |bits|
  {
    if bits == [] then fcs else SumBits(Divide(Xor(fcs, One(bits[0]))), bits[1..])
  }

  /** An octet on the line, least significant bit first. */
  function OctetBits(b: bv8): (r: seq<bool>)
    ensures |r| == 8
  {
    [b & 1 == 1, (b >> 1) & 1 == 1, (b >> 2) & 1 == 1, (b >> 3) & 1 == 1,
     (b >> 4) & 1 == 1, (b >> 5) & 1 == 1, (b >> 6) & 1 == 1, (b >> 7) & 1 == 1]
  }

  function MessageBits(msg: seq<bv8>): (r: seq<bool>)
    ensures |r| == 8 * |msg|
  {
    if msg == [] then [] else MessageBits(msg[..|msg| - 1]) + OctetBits(msg[|msg| - 1])
  }

  lemma {:induction false} SumBitsSplit(fcs: bv16, a: seq<bool>, b: seq<bool>)
    ensures SumBits(fcs, a + b) == SumBits(SumBits(fcs, a), b)
    decreases |a|
  {
    hide Divide;
    if a == [] {
      assert a + b == b;
    } else {
      SumBitsSplit(Divide(Xor(fcs, One(a[0]))), a[1..], b);
      assert (a + b)[1..] == a[1..] + b;
    }
  }

  lemma OneOf(b: bv8)
    ensures One(b & 1 == 1) == BitOf(b, 0) && One((b >> 1) & 1 == 1) == BitOf(b, 1)
    ensures One((b >> 2) & 1 == 1) == BitOf(b, 2) && One((b >> 3) & 1 == 1) == BitOf(b, 3)
    ensures One((b >> 4) & 1 == 1) == BitOf(b, 4) && One((b >> 5) & 1 == 1) == BitOf(b, 5)
    ensures One((b >> 6) & 1 == 1) == BitOf(b, 6) && One((b >> 7) & 1 == 1) == BitOf(b, 7)
  {
  }

  lemma OctetSum(fcs: bv16, b: bv8)
    ensures SumBits(fcs, OctetBits(b)) == TakeBits(fcs, b)
  {
    hide Divide, BitOf, One, SumBits, OctetBits, Xor;
    OneOf(b);
    OctetBitsAre(b);
    var o := OctetBits(b);
    ghost var a := fcs;
    a := NextBit(fcs, o, 0, a);
    a := NextBit(fcs, o, 1, a);
    a := NextBit(fcs, o, 2, a);
    a := NextBit(fcs, o, 3, a);
    a := NextBit(fcs, o, 4, a);
    a := NextBit(fcs, o, 5, a);
    a := NextBit(fcs, o, 6, a);
    a := NextBit(fcs, o, 7, a);
    NoBits(a);
  }

  lemma NextBit(fcs: bv16, o: seq<bool>, i: nat, a: bv16) returns (a': bv16)
    requires |o| == 8 && i < 8 && SumBits(fcs, o) == SumBits(a, o[i..])
    ensures a' == Divide(Xor(a, One(o[i])))
    ensures SumBits(fcs, o) == SumBits(a', o[i + 1..])
    ensures i == 7 ==> o[i + 1..] == []
  {
    hide Divide, One, Xor;
    a' := Divide(Xor(a, One(o[i])));
    assert o[i..][0] == o[i] && o[i..][1..] == o[i + 1..];
  }

  lemma NoBits(a: bv16)
    ensures SumBits(a, []) == a
  {
  }

  lemma OctetBitsAre(b: bv8)
    ensures var o := OctetBits(b);
            && o[0] == (b & 1 == 1) && o[1] == ((b >> 1) & 1 == 1) && o[2] == ((b >> 2) & 1 == 1)
            && o[3] == ((b >> 3) & 1 == 1) && o[4] == ((b >> 4) & 1 == 1) && o[5] == ((b >> 5) & 1 == 1)
            && o[6] == ((b >> 6) & 1 == 1) && o[7] == ((b >> 7) & 1 == 1)
  {
  }

  /** The sum of a message is the sum of its bits in line order. */
  lemma {:induction false} SumIsSumOfBits(fcs: bv16, msg: seq<bv8>)
    ensures Sum(fcs, msg) == SumBits(fcs, MessageBits(msg))
  {
    hide TakeBits, OctetBits, SumBits;
    if msg == [] {
      NoBits(fcs);
    } else {
      var n := |msg| - 1;
      SumIsSumOfBits(fcs, msg[..n]);
      SumBitsSplit(fcs, MessageBits(msg[..n]), OctetBits(msg[n]));
      OctetSum(Sum(fcs, msg[..n]), msg[n]);
    }
  }

  lemma XorOnes(s: bv16, t: bv16, d: bool, e: bool)
    ensures Half(Xor(Xor(s, One(d)), Xor(t, One(e)))) == Half(Xor(s, t))
  {
    hide Xor, Half, One;
    HalfXor(Xor(s, One(d)), Xor(t, One(e)));
    HalfXor(s, One(d));
    HalfXor(t, One(e));
    HalfXor(s, t);
    HalfOne(d);
    HalfOne(e);
    XorZero(Half(s));
    XorZero(Half(t));
  }

  lemma HalfOne(d: bool)
    ensures Half(One(d)) == 0
  {
  }

  /** A value that fits in n bits. */
  predicate Fits(x: bv16, n: nat) {
    if n == 0 then x == 0 else Fits(x >> 1, n - 1)
  }

  lemma FitsBelowTop(x: bv16, n: nat)
    requires Fits(x, n) && n <= 15
    ensures x & 0x8000 == 0
  {
    if n < 15 {
      FitsMore(x, n, 15);
    }
    assert Fits(x, 15);
    assert Fits(x >> 1, 14) && Fits((x >> 1) >> 1, 13);
    Fits15(x);
  }

  lemma {:induction false} FitsMore(x: bv16, n: nat, k: nat)
    requires Fits(x, n) && n <= k
    ensures Fits(x, k)
  {
    if n == 0 {
      if k > 0 {
        ZeroShift();
        FitsMore(0, 0, k - 1);
      }
    } else {
      FitsMore(x >> 1, n - 1, k - 1);
    }
  }

  lemma ZeroShift()
    ensures (0 as bv16) >> 1 == 0
  {
  }

  lemma FitsFive(x: bv16, n: nat)
    requires n >= 5
    ensures Fits(x, n) == Fits(x >> 5, n - 5)
  {
    FiveShifts(x);
    assert Fits(x, n) == Fits(x >> 1, n - 1) == Fits((x >> 1) >> 1, n - 2);
    assert Fits((x >> 1) >> 1, n - 2) == Fits(((x >> 1) >> 1) >> 1, n - 3) == Fits((((x >> 1) >> 1) >> 1) >> 1, n - 4);
  }

  lemma FiveShifts(x: bv16)
    ensures ((((x >> 1) >> 1) >> 1) >> 1) >> 1 == x >> 5
  {
  }

  lemma Fits15(x: bv16)
    requires Fits(x, 15)
    ensures x & 0x8000 == 0
  {
    FitsFive(x, 15);
    FitsFive(x >> 5, 10);
    FitsFive((x >> 5) >> 5, 5);
    assert ((x >> 5) >> 5) >> 5 == 0;
    TopShift(x);
  }

  lemma TopShift(x: bv16)
    ensures ((x >> 5) >> 5) >> 5 == 0 ==> x & 0x8000 == 0
  {
  }

  lemma UndoDivide(u: bv16)
    ensures Divide(u) & 0x8000 == 0 ==> Half(u) == Divide(u)
  {
  }

  /** If strings of n bits bring two registers together, they were within n bits of each other. */
  lemma {:induction false} WithinReach(s: bv16, t: bv16, v: seq<bool>, w: seq<bool>)
    requires |v| == |w| <= 15 && SumBits(s, v) == SumBits(t, w)
    ensures Fits(Xor(s, t), |v|)
    decreases |v|
  {
    hide Divide, One, Xor;
    if v == [] {
      XorFacts(s, t, 0);
    } else {
      var a, b := Xor(s, One(v[0])), Xor(t, One(w[0]));
      WithinReach(Divide(a), Divide(b), v[1..], w[1..]);
      DivideLinear(a, b);
      FitsBelowTop(Divide(Xor(a, b)), |v| - 1);
      UndoDivide(Xor(a, b));
      XorOnes(s, t, v[0], w[0]);
      FitsHalf(Xor(s, t), |v|);
    }
  }

  lemma FitsHalf(x: bv16, n: nat)
    requires n > 0 && Fits(Half(x), n - 1)
    ensures Fits(x, n)
  {
  }

  lemma FirstBitShows(s: bv16, d: bool, e: bool)
    requires d != e
    ensures Xor(Divide(Xor(s, One(d))), Divide(Xor(s, One(e)))) & 0x8000 != 0
  {
  }

  /** From one register, two different strings of up to sixteen bits lead apart. */
  lemma {:induction false} ShortStringsApart(s: bv16, v: seq<bool>, w: seq<bool>)
    requires |v| == |w| <= 16 && v != w
    ensures SumBits(s, v) != SumBits(s, w)
    decreases |v|
  {
    hide Divide, One, Xor, Fits;
    if v[0] == w[0] {
      assert v == [v[0]] + v[1..] && w == [w[0]] + w[1..];
      ShortStringsApart(Divide(Xor(s, One(v[0]))), v[1..], w[1..]);
    } else if SumBits(s, v) == SumBits(s, w) {
      var a, b := Divide(Xor(s, One(v[0]))), Divide(Xor(s, One(w[0])));
      WithinReach(a, b, v[1..], w[1..]);
      FitsBelowTop(Xor(a, b), |v| - 1);
      FirstBitShows(s, v[0], w[0]);
    }
  }

  /** Different registers stay different over the same bits. */
  lemma {:induction false} SameBitsKeepApart(s: bv16, t: bv16, bits: seq<bool>)
    requires s != t
    ensures SumBits(s, bits) != SumBits(t, bits)
    decreases |bits|
  {
    hide Divide, One, Xor;
    if bits != [] {
      var d := One(bits[0]);
      XorFacts(s, d, d);
      XorFacts(t, d, d);
      XorFacts(d, s, d);
      XorFacts(d, t, d);
      DivideOneToOne(Xor(s, d), Xor(t, d));
      SameBitsKeepApart(Divide(Xor(s, d)), Divide(Xor(t, d)), bits[1..]);
    }
  }

  /** Two messages whose bits on the line differ only inside a window of sixteen
      bits, wherever it lies, never have the same sum: every burst that short is
      caught, and so is any change of two adjacent octets. */
  lemma BurstCaught(fcs: bv16, m: seq<bv8>, m': seq<bv8>, head: seq<bool>, v: seq<bool>, w: seq<bool>, tail: seq<bool>)
    requires MessageBits(m) == head + v + tail && MessageBits(m') == head + w + tail
    requires |v| == |w| <= 16 && v != w
    ensures Sum(fcs, m) != Sum(fcs, m')
  {
    hide SumBits, Sum, MessageBits;
    SumIsSumOfBits(fcs, m);
    SumIsSumOfBits(fcs, m');
    SumBitsSplit(fcs, head + v, tail);
    SumBitsSplit(fcs, head, v);
    SumBitsSplit(fcs, head + w, tail);
    SumBitsSplit(fcs, head, w);
    ShortStringsApart(SumBits(fcs, head), v, w);
    SameBitsKeepApart(SumBits(SumBits(fcs, head), v), SumBits(SumBits(fcs, head), w), tail);
  }

  lemma OctetsOneToOne(x: bv8, y: bv8)
    requires OctetBits(x) == OctetBits(y)
    ensures x == y
  {
    hide OctetBits;
    OctetBitsAre(x);
    OctetBitsAre(y);
    BitsDecide(x, y);
  }

  lemma BitsDecide(x: bv8, y: bv8)
    requires (x & 1 == 1) == (y & 1 == 1) && ((x >> 1) & 1 == 1) == ((y >> 1) & 1 == 1)
    requires ((x >> 2) & 1 == 1) == ((y >> 2) & 1 == 1) && ((x >> 3) & 1 == 1) == ((y >> 3) & 1 == 1)
    requires ((x >> 4) & 1 == 1) == ((y >> 4) & 1 == 1) && ((x >> 5) & 1 == 1) == ((y >> 5) & 1 == 1)
    requires ((x >> 6) & 1 == 1) == ((y >> 6) & 1 == 1) && ((x >> 7) & 1 == 1) == ((y >> 7) & 1 == 1)
    ensures x == y
  {
  }

  /** From one register, two octets lead to a value in only one way. */
  lemma TwoOctetsShow(s: bv16, x: bv8, y: bv8, x': bv8, y': bv8)
    requires TakeBits(TakeBits(s, x), y) == TakeBits(TakeBits(s, x'), y')
    ensures x == x' && y == y'
  {
    hide TakeBits, OctetBits, SumBits;
    var v, w := OctetBits(x) + OctetBits(y), OctetBits(x') + OctetBits(y');
    OctetSum(s, x);
    OctetSum(TakeBits(s, x), y);
    OctetSum(s, x');
    OctetSum(TakeBits(s, x'), y');
    SumBitsSplit(s, OctetBits(x), OctetBits(y));
    SumBitsSplit(s, OctetBits(x'), OctetBits(y'));
    if v != w {
      ShortStringsApart(s, v, w);
    }
    assert v[..8] == OctetBits(x) && w[..8] == OctetBits(x') && v[8..] == OctetBits(y) && w[8..] == OctetBits(y');
    OctetsOneToOne(x, x');
    OctetsOneToOne(y, y');
  }

  lemma {:induction false} SumAppend(fcs: bv16, a: seq<bv8>, b: seq<bv8>)
    ensures Sum(fcs, a + b) == Sum(Sum(fcs, a), b)
  {
    hide TakeBits;
    if b == [] {
      assert a + b == a;
    } else {
      var n := |b| - 1;
      SumAppend(fcs, a, b[..n]);
      assert (a + b)[..|a| + n] == a + b[..n];
    }
  }

  /** Two messages that differ only in two adjacent octets never have the same sum. */
  lemma AdjacentOctetsCaught(fcs: bv16, pre: seq<bv8>, x: bv8, y: bv8, x': bv8, y': bv8, post: seq<bv8>)
    requires x != x' || y != y'
    ensures Sum(fcs, pre + [x, y] + post) != Sum(fcs, pre + [x', y'] + post)
  {
    hide TakeBits, Sum, SumBits, MessageBits;
    SumAppend(fcs, pre + [x, y], post);
    SumAppend(fcs, pre + [x', y'], post);
    SumTwo(fcs, pre, x, y);
    SumTwo(fcs, pre, x', y');
    var s, t := Sum(fcs, pre + [x, y]), Sum(fcs, pre + [x', y']);
    if s == t {
      TwoOctetsShow(Sum(fcs, pre), x, y, x', y');
    }
    SumIsSumOfBits(s, post);
    SumIsSumOfBits(t, post);
    SameBitsKeepApart(s, t, MessageBits(post));
  }

  /** A frame checks good exactly when its last two octets are the complement of
      the sum of the rest, low octet first. */
  lemma GoodIff(msg: seq<bv8>, x: bv8, y: bv8)
    ensures Sum(INITFCS, msg + [x, y]) == GOODFCS
       <==> x == Low(Sum(INITFCS, msg) ^ 0xffff) && y == High(Sum(INITFCS, msg) ^ 0xffff)
  {
    hide TakeBits, Low, High, Sum;
    SumTwo(INITFCS, msg, x, y);
    GoodTwo(Sum(INITFCS, msg), x, y);
  }

  lemma GoodTwo(v: bv16, x: bv8, y: bv8)
    ensures TakeBits(TakeBits(v, x), y) == GOODFCS <==> x == Low(v ^ 0xffff) && y == High(v ^ 0xffff)
  {
    hide TakeBits, Low, High;
    ComplementIsGood(v);
    if TakeBits(TakeBits(v, x), y) == GOODFCS {
      TwoOctetsShow(v, x, y, Low(v ^ 0xffff), High(v ^ 0xffff));
    }
  }
}
