/** The CRC-16 that guards every stored message: the table-driven loop of crc16.c, the
    bit-serial division it stands for, and the damage it always detects. */
module Crc16 {
  import opened Bytes

  // ----- The specification: division by the reflected polynomial 0xA001, one bit at a time.

  const BITS: nat := 8

  /** One step of the division register: shift right, subtract the divisor when a 1 falls out. */
  function BitStep(c: bv16): bv16 {
    if c & 1 == 1 then (c >> 1) ^ 0xA001 else c >> 1
  }

  function Xor(a: bv16, b: bv16): bv16 { a ^ b }

  /** A byte as the low half of a 16-bit word. */
  function Widen(x: byte): bv16 {
    Pack(Bit(x, 0), Bit(x, 1), Bit(x, 2), Bit(x, 3), Bit(x, 4), Bit(x, 5), Bit(x, 6), Bit(x, 7))
  }

  predicate Bit(x: nat, k: nat) {
    if k == 0 then x % 2 == 1 else Bit(x / 2, k - 1)
  }

  function Pack(b0: bool, b1: bool, b2: bool, b3: bool, b4: bool, b5: bool, b6: bool, b7: bool): bv16 {
    (if b0 then 0x01 else 0) | (if b1 then 0x02 else 0) | (if b2 then 0x04 else 0) | (if b3 then 0x08 else 0)
    | (if b4 then 0x10 else 0) | (if b5 then 0x20 else 0) | (if b6 then 0x40 else 0) | (if b7 then 0x80 else 0)
  }

  /** The register after the low n bits of b are brought in, least significant bit first. */
  function FeedBits(c: bv16, b: bv16, n: nat): bv16
    decreases n
  {
    if n == 0 then c else FeedBits(BitStep(Xor(c, b & 1)), b >> 1, n - 1)
  }

  /** The remainder of the whole byte string, started from zero. */
  function Remainder(data: seq<byte>): bv16 {
    if data == [] then 0
    else FeedBits(Remainder(data[..|data| - 1]), Widen(data[|data| - 1]), BITS)
  }

  /** The value stored in a frame. */
  function Crc(data: seq<byte>): (c: nat)
    ensures c < U16
  {
    Remainder(data) as int
  }

  // ----- The table of crc16.c, row by row as the source lays it out.

  function TabRows0(r: bv16): (row: seq<bv16>)
    ensures |row| == 8
  {
    match r
    case 0 => [0x0000, 0xC0C1, 0xC181, 0x0140, 0xC301, 0x03C0, 0x0280, 0xC241]
    case 1 => [0xC601, 0x06C0, 0x0780, 0xC741, 0x0500, 0xC5C1, 0xC481, 0x0440]
    case 2 => [0xCC01, 0x0CC0, 0x0D80, 0xCD41, 0x0F00, 0xCFC1, 0xCE81, 0x0E40]
    case 3 => [0x0A00, 0xCAC1, 0xCB81, 0x0B40, 0xC901, 0x09C0, 0x0880, 0xC841]
    case 4 => [0xD801, 0x18C0, 0x1980, 0xD941, 0x1B00, 0xDBC1, 0xDA81, 0x1A40]
    case 5 => [0x1E00, 0xDEC1, 0xDF81, 0x1F40, 0xDD01, 0x1DC0, 0x1C80, 0xDC41]
    case 6 => [0x1400, 0xD4C1, 0xD581, 0x1540, 0xD701, 0x17C0, 0x1680, 0xD641]
    case _ => [0xD201, 0x12C0, 0x1380, 0xD341, 0x1100, 0xD1C1, 0xD081, 0x1040]
  }

  function TabRows1(r: bv16): (row: seq<bv16>)
    ensures |row| == 8
  {
    match r
    case 0 => [0xF001, 0x30C0, 0x3180, 0xF141, 0x3300, 0xF3C1, 0xF281, 0x3240]
    case 1 => [0x3600, 0xF6C1, 0xF781, 0x3740, 0xF501, 0x35C0, 0x3480, 0xF441]
    case 2 => [0x3C00, 0xFCC1, 0xFD81, 0x3D40, 0xFF01, 0x3FC0, 0x3E80, 0xFE41]
    case 3 => [0xFA01, 0x3AC0, 0x3B80, 0xFB41, 0x3900, 0xF9C1, 0xF881, 0x3840]
    case 4 => [0x2800, 0xE8C1, 0xE981, 0x2940, 0xEB01, 0x2BC0, 0x2A80, 0xEA41]
    case 5 => [0xEE01, 0x2EC0, 0x2F80, 0xEF41, 0x2D00, 0xEDC1, 0xEC81, 0x2C40]
    case 6 => [0xE401, 0x24C0, 0x2580, 0xE541, 0x2700, 0xE7C1, 0xE681, 0x2640]
    case _ => [0x2200, 0xE2C1, 0xE381, 0x2340, 0xE101, 0x21C0, 0x2080, 0xE041]
  }

  function TabRows2(r: bv16): (row: seq<bv16>)
    ensures |row| == 8
  {
    match r
    case 0 => [0xA001, 0x60C0, 0x6180, 0xA141, 0x6300, 0xA3C1, 0xA281, 0x6240]
    case 1 => [0x6600, 0xA6C1, 0xA781, 0x6740, 0xA501, 0x65C0, 0x6480, 0xA441]
    case 2 => [0x6C00, 0xACC1, 0xAD81, 0x6D40, 0xAF01, 0x6FC0, 0x6E80, 0xAE41]
    case 3 => [0xAA01, 0x6AC0, 0x6B80, 0xAB41, 0x6900, 0xA9C1, 0xA881, 0x6840]
    case 4 => [0x7800, 0xB8C1, 0xB981, 0x7940, 0xBB01, 0x7BC0, 0x7A80, 0xBA41]
    case 5 => [0xBE01, 0x7EC0, 0x7F80, 0xBF41, 0x7D00, 0xBDC1, 0xBC81, 0x7C40]
    case 6 => [0xB401, 0x74C0, 0x7580, 0xB541, 0x7700, 0xB7C1, 0xB681, 0x7640]
    case _ => [0x7200, 0xB2C1, 0xB381, 0x7340, 0xB101, 0x71C0, 0x7080, 0xB041]
  }

  function TabRows3(r: bv16): (row: seq<bv16>)
    ensures |row| == 8
  {
    match r
    case 0 => [0x5000, 0x90C1, 0x9181, 0x5140, 0x9301, 0x53C0, 0x5280, 0x9241]
    case 1 => [0x9601, 0x56C0, 0x5780, 0x9741, 0x5500, 0x95C1, 0x9481, 0x5440]
    case 2 => [0x9C01, 0x5CC0, 0x5D80, 0x9D41, 0x5F00, 0x9FC1, 0x9E81, 0x5E40]
    case 3 => [0x5A00, 0x9AC1, 0x9B81, 0x5B40, 0x9901, 0x59C0, 0x5880, 0x9841]
    case 4 => [0x8801, 0x48C0, 0x4980, 0x8941, 0x4B00, 0x8BC1, 0x8A81, 0x4A40]
    case 5 => [0x4E00, 0x8EC1, 0x8F81, 0x4F40, 0x8D01, 0x4DC0, 0x4C80, 0x8C41]
    case 6 => [0x4400, 0x84C1, 0x8581, 0x4540, 0x8701, 0x47C0, 0x4680, 0x8641]
    case _ => [0x8201, 0x42C0, 0x4380, 0x8341, 0x4100, 0x81C1, 0x8081, 0x4040]
  }

  function Crc16Tab(x: bv16): bv16
    requires x < 256
  {
    var r := (x >> 3) & 7;
    var row := if x < 64 then TabRows0(r) else if x < 128 then TabRows1(r)
               else if x < 192 then TabRows2(r) else TabRows3(r);
    row[(x & 7) as int]
  }

  /** n bits of zero through the register; a table entry abbreviates eight of them. */
  function Steps(c: bv16, n: nat): bv16
    decreases n
  {
    if n == 0 then c else Steps(BitStep(c), n - 1)
  }

  lemma Table0(x: bv16)
    requires 0 <= x && x <= 15
    ensures Crc16Tab(x) == Steps(x, 8)
  {
    match x
    case 0 => case 1 => case 2 => case 3 => case 4 => case 5 => case 6 => case 7 =>
    case 8 => case 9 => case 10 => case 11 => case 12 => case 13 => case 14 => case 15 =>
    case _ =>
  }

  lemma Table16(x: bv16)
    requires 16 <= x && x <= 31
    ensures Crc16Tab(x) == Steps(x, 8)
  {
    match x
    case 16 => case 17 => case 18 => case 19 => case 20 => case 21 => case 22 => case 23 =>
    case 24 => case 25 => case 26 => case 27 => case 28 => case 29 => case 30 => case 31 =>
    case _ =>
  }

  lemma Table32(x: bv16)
    requires 32 <= x && x <= 47
    ensures Crc16Tab(x) == Steps(x, 8)
  {
    match x
    case 32 => case 33 => case 34 => case 35 => case 36 => case 37 => case 38 => case 39 =>
    case 40 => case 41 => case 42 => case 43 => case 44 => case 45 => case 46 => case 47 =>
    case _ =>
  }

  lemma Table48(x: bv16)
    requires 48 <= x && x <= 63
    ensures Crc16Tab(x) == Steps(x, 8)
  {
    match x
    case 48 => case 49 => case 50 => case 51 => case 52 => case 53 => case 54 => case 55 =>
    case 56 => case 57 => case 58 => case 59 => case 60 => case 61 => case 62 => case 63 =>
    case _ =>
  }

  lemma Table64(x: bv16)
    requires 64 <= x && x <= 79
    ensures Crc16Tab(x) == Steps(x, 8)
  {
    match x
    case 64 => case 65 => case 66 => case 67 => case 68 => case 69 => case 70 => case 71 =>
    case 72 => case 73 => case 74 => case 75 => case 76 => case 77 => case 78 => case 79 =>
    case _ =>
  }

  lemma Table80(x: bv16)
    requires 80 <= x && x <= 95
    ensures Crc16Tab(x) == Steps(x, 8)
  {
    match x
    case 80 => case 81 => case 82 => case 83 => case 84 => case 85 => case 86 => case 87 =>
    case 88 => case 89 => case 90 => case 91 => case 92 => case 93 => case 94 => case 95 =>
    case _ =>
  }

  lemma Table96(x: bv16)
    requires 96 <= x && x <= 111
    ensures Crc16Tab(x) == Steps(x, 8)
  {
    match x
    case 96 => case 97 => case 98 => case 99 => case 100 => case 101 => case 102 => case 103 =>
    case 104 => case 105 => case 106 => case 107 => case 108 => case 109 => case 110 => case 111 =>
    case _ =>
  }

  lemma Table112(x: bv16)
    requires 112 <= x && x <= 127
    ensures Crc16Tab(x) == Steps(x, 8)
  {
    match x
    case 112 => case 113 => case 114 => case 115 => case 116 => case 117 => case 118 => case 119 =>
    case 120 => case 121 => case 122 => case 123 => case 124 => case 125 => case 126 => case 127 =>
    case _ =>
  }

  lemma Table128(x: bv16)
    requires 128 <= x && x <= 143
    ensures Crc16Tab(x) == Steps(x, 8)
  {
    match x
    case 128 => case 129 => case 130 => case 131 => case 132 => case 133 => case 134 => case 135 =>
    case 136 => case 137 => case 138 => case 139 => case 140 => case 141 => case 142 => case 143 =>
    case _ =>
  }

  lemma Table144(x: bv16)
    requires 144 <= x && x <= 159
    ensures Crc16Tab(x) == Steps(x, 8)
  {
    match x
    case 144 => case 145 => case 146 => case 147 => case 148 => case 149 => case 150 => case 151 =>
    case 152 => case 153 => case 154 => case 155 => case 156 => case 157 => case 158 => case 159 =>
    case _ =>
  }

  lemma Table160(x: bv16)
    requires 160 <= x && x <= 175
    ensures Crc16Tab(x) == Steps(x, 8)
  {
    match x
    case 160 => case 161 => case 162 => case 163 => case 164 => case 165 => case 166 => case 167 =>
    case 168 => case 169 => case 170 => case 171 => case 172 => case 173 => case 174 => case 175 =>
    case _ =>
  }

  lemma Table176(x: bv16)
    requires 176 <= x && x <= 191
    ensures Crc16Tab(x) == Steps(x, 8)
  {
    match x
    case 176 => case 177 => case 178 => case 179 => case 180 => case 181 => case 182 => case 183 =>
    case 184 => case 185 => case 186 => case 187 => case 188 => case 189 => case 190 => case 191 =>
    case _ =>
  }

  lemma Table192(x: bv16)
    requires 192 <= x && x <= 207
    ensures Crc16Tab(x) == Steps(x, 8)
  {
    match x
    case 192 => case 193 => case 194 => case 195 => case 196 => case 197 => case 198 => case 199 =>
    case 200 => case 201 => case 202 => case 203 => case 204 => case 205 => case 206 => case 207 =>
    case _ =>
  }

  lemma Table208(x: bv16)
    requires 208 <= x && x <= 223
    ensures Crc16Tab(x) == Steps(x, 8)
  {
    match x
    case 208 => case 209 => case 210 => case 211 => case 212 => case 213 => case 214 => case 215 =>
    case 216 => case 217 => case 218 => case 219 => case 220 => case 221 => case 222 => case 223 =>
    case _ =>
  }

  lemma Table224(x: bv16)
    requires 224 <= x && x <= 239
    ensures Crc16Tab(x) == Steps(x, 8)
  {
    match x
    case 224 => case 225 => case 226 => case 227 => case 228 => case 229 => case 230 => case 231 =>
    case 232 => case 233 => case 234 => case 235 => case 236 => case 237 => case 238 => case 239 =>
    case _ =>
  }

  lemma Table240(x: bv16)
    requires 240 <= x && x <= 255
    ensures Crc16Tab(x) == Steps(x, 8)
  {
    match x
    case 240 => case 241 => case 242 => case 243 => case 244 => case 245 => case 246 => case 247 =>
    case 248 => case 249 => case 250 => case 251 => case 252 => case 253 => case 254 => case 255 =>
    case _ =>
  }

  /** Every one of the 256 entries is eight steps of the bit-serial division. */
  lemma {:induction false} TableCorrect(x: bv16)
    requires x < 256
    ensures Crc16Tab(x) == Steps(x, BITS)
  {
    if x < 16 { Table0(x); } else if x < 32 { Table16(x); }
    else if x < 48 { Table32(x); } else if x < 64 { Table48(x); }
    else if x < 80 { Table64(x); } else if x < 96 { Table80(x); }
    else if x < 112 { Table96(x); } else if x < 128 { Table112(x); }
    else if x < 144 { Table128(x); } else if x < 160 { Table144(x); }
    else if x < 176 { Table160(x); } else if x < 192 { Table176(x); }
    else if x < 208 { Table192(x); } else if x < 224 { Table208(x); }
    else if x < 240 { Table224(x); } else { Table240(x); }
  }

  /** A word is its lowest bit and an even rest, and the rest is only shifted. */
  lemma LowestBit(b: bv16)
    ensures b == Xor(b & 1, b & 0xFFFE) && BitStep(b & 0xFFFE) == b >> 1
  {}

  lemma FeedOneBit(c: bv16, b: bv16)
    ensures BitStep(Xor(c, b)) == Xor(BitStep(Xor(c, b & 1)), b >> 1)
  {
    hide BitStep, Xor;
    LowestBit(b);
    XorAssociates(c, b & 1, b & 0xFFFE);
    BitStepLinear(Xor(c, b & 1), b & 0xFFFE);
  }

  function Shift(b: bv16, n: nat): bv16
    decreases n
  {
    if n == 0 then b else Shift(b >> 1, n - 1)
  }

  /** Feeding bits one by one equals xoring them all in first; what is not yet fed is still there. */
  lemma {:induction false} FeedAtOnce(c: bv16, b: bv16, n: nat)
    ensures Steps(Xor(c, b), n) == Xor(FeedBits(c, b, n), Shift(b, n))
    decreases n
  {
    hide BitStep, Xor;
    if n > 0 {
      FeedOneBit(c, b);
      FeedAtOnce(BitStep(Xor(c, b & 1)), b >> 1, n - 1);
    }
  }

  lemma FeedByte(c: bv16, b: bv16)
    requires b < 256
    ensures FeedBits(c, b, BITS) == Steps(Xor(c, b), BITS)
  {
    FeedAtOnce(c, b, BITS);
    hide Steps, FeedBits;
    assert Shift(b, 8) == 0;
  }

  lemma XorShift(a: bv16, b: bv16)
    ensures Xor(a, b) >> 1 == Xor(a >> 1, b >> 1)
  {}

  lemma LowBitXor(a: bv16, b: bv16)
    ensures Xor(a, b) & 1 == (a & 1) ^ (b & 1)
  {}

  lemma LowBit(a: bv16)
    ensures a & 1 == 0 || a & 1 == 1
  {}

  lemma XorAssociates(x: bv16, y: bv16, z: bv16)
    ensures Xor(Xor(x, y), z) == Xor(x, Xor(y, z))
  {}

  lemma XorCommutes(x: bv16, y: bv16)
    ensures Xor(x, y) == Xor(y, x)
  {}

  lemma XorSelf(x: bv16)
    ensures Xor(x, x) == 0 && Xor(x, 0) == x
  {}

  lemma XorTwice(x: bv16, y: bv16, d: bv16)
    ensures Xor(Xor(x, d), Xor(y, d)) == Xor(x, y)
    ensures Xor(Xor(x, d), y) == Xor(Xor(x, y), d)
    ensures Xor(x, Xor(y, d)) == Xor(Xor(x, y), d)
  {
    hide Xor;
    XorAssociates(x, y, d);
    XorAssociates(x, d, y);
    XorCommutes(d, y);
    XorAssociates(Xor(x, d), y, d);
    XorAssociates(Xor(x, y), d, d);
    XorSelf(d);
    XorSelf(Xor(x, y));
  }

  lemma BitStepIs(c: bv16)
    ensures BitStep(c) == if c & 1 == 1 then Xor(c >> 1, 0xA001) else c >> 1
  {}

  lemma BitStepLinear(a: bv16, b: bv16)
    ensures BitStep(Xor(a, b)) == Xor(BitStep(a), BitStep(b))
  {
    hide BitStep, Xor;
    BitStepIs(a);
    BitStepIs(b);
    BitStepIs(Xor(a, b));
    XorShift(a, b);
    LowBitXor(a, b);
    LowBit(a);
    LowBit(b);
    XorTwice(a >> 1, b >> 1, 0xA001);
  }

  /** Division is linear over xor: the remainder of a sum is the sum of the remainders. */
  lemma {:induction false} StepsLinear(a: bv16, b: bv16, n: nat)
    ensures Steps(Xor(a, b), n) == Xor(Steps(a, n), Steps(b, n))
    decreases n
  {
    hide BitStep, Xor;
    if n > 0 {
      BitStepLinear(a, b);
      StepsLinear(BitStep(a), BitStep(b), n - 1);
    }
  }

  lemma ShiftsOnly(h: bv16)
    requires h & 0xff == 0
    ensures Steps(h, BITS) == h >> 8
  {
    assert Steps(h, 8) == h >> 8;
  }

  lemma HighByteShifts(c: bv16)
    ensures Steps(c, BITS) == Xor(c >> 8, Steps(c & 0xff, BITS))
  {
    var h := c & 0xff00;
    assert c == Xor(h, c & 0xff);
    assert h >> 8 == c >> 8;
    hide Steps, Xor;
    StepsLinear(h, c & 0xff, BITS);
    ShiftsOnly(h);
  }

  lemma XorByte(c: bv16, b: bv16)
    requires b < 256
    ensures Xor(c, b) >> 8 == c >> 8
    ensures Xor(c, b) & 0xff < 256
  {}

  /** One round of the table-driven loop is the division of one byte. */
  lemma {:induction false} TableRound(c: bv16, b: bv16)
    requires b < 256
    ensures Xor(c, b) & 0xff < 256
    ensures Xor(c >> 8, Crc16Tab(Xor(c, b) & 0xff)) == FeedBits(c, b, BITS)
  {
    hide Crc16Tab, Steps, FeedBits, Xor;
    XorByte(c, b);
    TableCorrect(Xor(c, b) & 0xff);
    FeedByte(c, b);
    HighByteShifts(Xor(c, b));
  }

  lemma ByteFits(x: byte)
    ensures Widen(x) < 256
  {}

  lemma PackInjective(b0: bool, b1: bool, b2: bool, b3: bool, b4: bool, b5: bool, b6: bool, b7: bool,
                      c0: bool, c1: bool, c2: bool, c3: bool, c4: bool, c5: bool, c6: bool, c7: bool)
    requires Pack(b0, b1, b2, b3, b4, b5, b6, b7) == Pack(c0, c1, c2, c3, c4, c5, c6, c7)
    ensures b0 == c0 && b1 == c1 && b2 == c2 && b3 == c3 && b4 == c4 && b5 == c5 && b6 == c6 && b7 == c7
  {}

  function Two(n: nat): nat { if n == 0 then 1 else 2 * Two(n - 1) }

  lemma {:induction false} SameBits(x: nat, y: nat, n: nat)
    requires x < Two(n) && y < Two(n) && forall k :: 0 <= k < n ==> Bit(x, k) == Bit(y, k)
    ensures x == y
  {
    if n > 0 {
      assert Bit(x, 0) == Bit(y, 0);
      forall k | 0 <= k < n - 1
        ensures Bit(x / 2, k) == Bit(y / 2, k)
      {
        assert Bit(x, k + 1) == Bit(y, k + 1);
      }
      SameBits(x / 2, y / 2, n - 1);
    }
  }

  lemma TwoToEight()
    ensures Two(8) == 256
  {
    assert Two(4) == 16;
  }

  lemma EightBits(x: byte, y: byte)
    requires Bit(x, 0) == Bit(y, 0) && Bit(x, 1) == Bit(y, 1) && Bit(x, 2) == Bit(y, 2) && Bit(x, 3) == Bit(y, 3)
    requires Bit(x, 4) == Bit(y, 4) && Bit(x, 5) == Bit(y, 5) && Bit(x, 6) == Bit(y, 6) && Bit(x, 7) == Bit(y, 7)
    ensures x == y
  {
    hide Bit, Two;
    TwoToEight();
    SameBits(x, y, 8);
  }

  lemma ByteInjective(x: byte, y: byte)
    requires Widen(x) == Widen(y)
    ensures x == y
  {
    hide Bit, Pack, Two;
    PackInjective(Bit(x, 0), Bit(x, 1), Bit(x, 2), Bit(x, 3), Bit(x, 4), Bit(x, 5), Bit(x, 6), Bit(x, 7),
                  Bit(y, 0), Bit(y, 1), Bit(y, 2), Bit(y, 3), Bit(y, 4), Bit(y, 5), Bit(y, 6), Bit(y, 7));
    EightBits(x, y);
  }

  // ----- The loop of crc16.c.

  /** crc16_append: the incoming accumulator is ignored and overwritten. */
  method Crc16Append(data: array<byte>, at: nat, len: nat) returns (c16: nat)
    requires at + len <= data.Length
    ensures c16 == Crc(data[at..at + len])
  {
    hide Crc16Tab, FeedBits, Xor, Widen;
    var c: bv16 := 0;
    assert data[at..at] == [];
    for i := 0 to len
      invariant c == Remainder(data[at..at + i])
    {
      ByteFits(data[at + i]);
      var b := Widen(data[at + i]);
      TableRound(c, b);
      c := Xor(c >> 8, Crc16Tab(Xor(c, b) & 0xff));
      assert data[at..at + i + 1] == data[at..at + i] + [data[at + i]];
    }
    c16 := c as int;
  }

  // ----- Damage the checksum cannot miss.

  lemma BitStepInjective(a: bv16, b: bv16)
    requires BitStep(a) == BitStep(b)
    ensures a == b
  {}

  lemma {:induction false} StepsInjective(a: bv16, b: bv16, n: nat)
    requires Steps(a, n) == Steps(b, n)
    ensures a == b
    decreases n
  {
    hide BitStep;
    if n > 0 {
      StepsInjective(BitStep(a), BitStep(b), n - 1);
      BitStepInjective(a, b);
    }
  }

  /** No nonzero byte can cancel itself within the low half of the register. */
  lemma ByteLeavesLowHalf(z: bv16)
    requires z < 256 && Steps(z, BITS) < 256
    ensures z == 0
  {
    assert Steps(z, 8) < 256;
  }

  lemma XorCancels(p: bv16, q: bv16, y: bv16, y': bv16)
    requires y < 256 && y' < 256 && Xor(p, y) == Xor(q, y')
    ensures Xor(p, q) < 256
    ensures p == q ==> y == y'
  {}

  lemma XorCommon(c: bv16, x: bv16, x': bv16)
    requires x < 256 && x' < 256
    ensures Xor(Xor(c, x), Xor(c, x')) == Xor(x, x') < 256
    ensures Xor(x, x') == 0 ==> x == x'
  {}

  /** Two bytes after the same register determine, and are determined by, the register they leave. */
  lemma TwoBytesInjective(c: bv16, x: bv16, y: bv16, x': bv16, y': bv16)
    requires x < 256 && y < 256 && x' < 256 && y' < 256
    requires FeedBits(FeedBits(c, x, BITS), y, BITS) == FeedBits(FeedBits(c, x', BITS), y', BITS)
    ensures x == x' && y == y'
  {
    hide Steps, FeedBits, Xor;
    var p, q := FeedBits(c, x, BITS), FeedBits(c, x', BITS);
    FeedByte(c, x); FeedByte(c, x'); FeedByte(p, y); FeedByte(q, y');
    StepsInjective(Xor(p, y), Xor(q, y'), BITS);
    XorCancels(p, q, y, y');
    StepsLinear(Xor(c, x), Xor(c, x'), BITS);
    XorCommon(c, x, x');
    ByteLeavesLowHalf(Xor(x, x'));
  }

  lemma FeedInjective(c: bv16, c': bv16, b: bv16)
    requires b < 256 && FeedBits(c, b, BITS) == FeedBits(c', b, BITS)
    ensures c == c'
  {
    hide Steps, FeedBits;
    FeedByte(c, b); FeedByte(c', b);
    StepsInjective(Xor(c, b), Xor(c', b), BITS);
  }

  /** Different registers stay different over any common continuation. */
  lemma {:induction false} RemainderInjective(a: seq<byte>, b: seq<byte>, t: seq<byte>)
    requires Remainder(a) != Remainder(b)
    ensures Remainder(a + t) != Remainder(b + t)
  {
    hide FeedBits;
    if t == [] {
      assert a + t == a && b + t == b;
    } else {
      var k := |t| - 1;
      RemainderInjective(a, b, t[..k]);
      assert (a + t)[..|a + t| - 1] == a + t[..k] && (b + t)[..|b + t| - 1] == b + t[..k];
      ByteFits(t[k]);
      if Remainder(a + t) == Remainder(b + t) {
        FeedInjective(Remainder(a + t[..k]), Remainder(b + t[..k]), Widen(t[k]));
      }
    }
  }

  lemma RemainderOfTwo(h: seq<byte>, x: byte, y: byte)
    ensures Remainder(h + [x, y]) == FeedBits(FeedBits(Remainder(h), Widen(x), BITS), Widen(y), BITS)
  {
    hide FeedBits;
    assert (h + [x, y])[..|h| + 1] == h + [x] && (h + [x])[..|h|] == h;
  }

  lemma CrcInjective(a: seq<byte>, b: seq<byte>)
    requires Crc(a) == Crc(b)
    ensures Remainder(a) == Remainder(b)
  {
    hide Remainder;
    RegisterValue(Remainder(a));
    RegisterValue(Remainder(b));
  }

  lemma RegisterValue(c: bv16)
    ensures (c as int) as bv16 == c
  {}

  /** Replacing any two adjacent bytes by any other pair changes the checksum. */
  lemma {:induction false} AdjacentDamageDetected(h: seq<byte>, x: byte, y: byte, x': byte, y': byte, t: seq<byte>)
    requires x != x' || y != y'
    ensures Crc(h + [x, y] + t) != Crc(h + [x', y'] + t)
  {
    hide FeedBits, Crc;
    AdjacentRemainders(h, x, y, x', y');
    RemainderInjective(h + [x, y], h + [x', y'], t);
    if Crc(h + [x, y] + t) == Crc(h + [x', y'] + t) {
      CrcInjective(h + [x, y] + t, h + [x', y'] + t);
    }
  }

  lemma AdjacentRemainders(h: seq<byte>, x: byte, y: byte, x': byte, y': byte)
    requires x != x' || y != y'
    ensures Remainder(h + [x, y]) != Remainder(h + [x', y'])
  {
    hide FeedBits, Remainder;
    RemainderOfTwo(h, x, y);
    RemainderOfTwo(h, x', y');
    ByteFits(x); ByteFits(y); ByteFits(x'); ByteFits(y');
    if Remainder(h + [x, y]) == Remainder(h + [x', y']) {
      TwoBytesInjective(Remainder(h), Widen(x), Widen(y), Widen(x'), Widen(y'));
      ByteInjective(x, x');
      ByteInjective(y, y');
    }
  }

  /** So does replacing any single byte, the last one included. */
  lemma {:induction false} SingleDamageDetected(h: seq<byte>, x: byte, x': byte, t: seq<byte>)
    requires x != x'
    ensures Crc(h + [x] + t) != Crc(h + [x'] + t)
  {
    hide FeedBits, Crc;
    AdjacentRemainders(h, x, 0, x', 0);
    var a, b := h + [x], h + [x'];
    assert h + [x, 0] == a + [0] && h + [x', 0] == b + [0];
    assert (a + [0])[..|a|] == a && (b + [0])[..|b|] == b;
    assert Remainder(a) != Remainder(b);
    RemainderInjective(a, b, t);
    if Crc(a + t) == Crc(b + t) {
      CrcInjective(a + t, b + t);
    }
  }
}
