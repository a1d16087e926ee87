/**
 The table-driven CRCs of the radio: the BLE CRC-24 (Bluetooth Core Specification, Vol 6 Part B, section 3.1.1)
 and the IEEE 802.15.4 FCS (IEEE 802.15.4-2006, section 7.2.1.9).

 The code works on reflected registers: bit 0 of the word is the most significant coefficient, which is also the
 first bit of the CRC on air.
 */
module Crc {
  import opened Gf2
  import opened ReflectedRegister

  /** Both lookup tables, 16 entries per row: entry i is in row i / 16, column i % 16. */
  const TABLE_24_BLE: seq<seq<bv32>> := [
    [0x000000, 0x01b4c0, 0x036980, 0x02dd40, 0x06d300, 0x0767c0, 0x05ba80, 0x040e40, 0x0da600, 0x0c12c0, 0x0ecf80, 0x0f7b40, 0x0b7500, 0x0ac1c0, 0x081c80, 0x09a840],
    [0x1b4c00, 0x1af8c0, 0x182580, 0x199140, 0x1d9f00, 0x1c2bc0, 0x1ef680, 0x1f4240, 0x16ea00, 0x175ec0, 0x158380, 0x143740, 0x103900, 0x118dc0, 0x135080, 0x12e440],
    [0x369800, 0x372cc0, 0x35f180, 0x344540, 0x304b00, 0x31ffc0, 0x332280, 0x329640, 0x3b3e00, 0x3a8ac0, 0x385780, 0x39e340, 0x3ded00, 0x3c59c0, 0x3e8480, 0x3f3040],
    [0x2dd400, 0x2c60c0, 0x2ebd80, 0x2f0940, 0x2b0700, 0x2ab3c0, 0x286e80, 0x29da40, 0x207200, 0x21c6c0, 0x231b80, 0x22af40, 0x26a100, 0x2715c0, 0x25c880, 0x247c40],
    [0x6d3000, 0x6c84c0, 0x6e5980, 0x6fed40, 0x6be300, 0x6a57c0, 0x688a80, 0x693e40, 0x609600, 0x6122c0, 0x63ff80, 0x624b40, 0x664500, 0x67f1c0, 0x652c80, 0x649840],
    [0x767c00, 0x77c8c0, 0x751580, 0x74a140, 0x70af00, 0x711bc0, 0x73c680, 0x727240, 0x7bda00, 0x7a6ec0, 0x78b380, 0x790740, 0x7d0900, 0x7cbdc0, 0x7e6080, 0x7fd440],
    [0x5ba800, 0x5a1cc0, 0x58c180, 0x597540, 0x5d7b00, 0x5ccfc0, 0x5e1280, 0x5fa640, 0x560e00, 0x57bac0, 0x556780, 0x54d340, 0x50dd00, 0x5169c0, 0x53b480, 0x520040],
    [0x40e400, 0x4150c0, 0x438d80, 0x423940, 0x463700, 0x4783c0, 0x455e80, 0x44ea40, 0x4d4200, 0x4cf6c0, 0x4e2b80, 0x4f9f40, 0x4b9100, 0x4a25c0, 0x48f880, 0x494c40],
    [0xda6000, 0xdbd4c0, 0xd90980, 0xd8bd40, 0xdcb300, 0xdd07c0, 0xdfda80, 0xde6e40, 0xd7c600, 0xd672c0, 0xd4af80, 0xd51b40, 0xd11500, 0xd0a1c0, 0xd27c80, 0xd3c840],
    [0xc12c00, 0xc098c0, 0xc24580, 0xc3f140, 0xc7ff00, 0xc64bc0, 0xc49680, 0xc52240, 0xcc8a00, 0xcd3ec0, 0xcfe380, 0xce5740, 0xca5900, 0xcbedc0, 0xc93080, 0xc88440],
    [0xecf800, 0xed4cc0, 0xef9180, 0xee2540, 0xea2b00, 0xeb9fc0, 0xe94280, 0xe8f640, 0xe15e00, 0xe0eac0, 0xe23780, 0xe38340, 0xe78d00, 0xe639c0, 0xe4e480, 0xe55040],
    [0xf7b400, 0xf600c0, 0xf4dd80, 0xf56940, 0xf16700, 0xf0d3c0, 0xf20e80, 0xf3ba40, 0xfa1200, 0xfba6c0, 0xf97b80, 0xf8cf40, 0xfcc100, 0xfd75c0, 0xffa880, 0xfe1c40],
    [0xb75000, 0xb6e4c0, 0xb43980, 0xb58d40, 0xb18300, 0xb037c0, 0xb2ea80, 0xb35e40, 0xbaf600, 0xbb42c0, 0xb99f80, 0xb82b40, 0xbc2500, 0xbd91c0, 0xbf4c80, 0xbef840],
    [0xac1c00, 0xada8c0, 0xaf7580, 0xaec140, 0xaacf00, 0xab7bc0, 0xa9a680, 0xa81240, 0xa1ba00, 0xa00ec0, 0xa2d380, 0xa36740, 0xa76900, 0xa6ddc0, 0xa40080, 0xa5b440],
    [0x81c800, 0x807cc0, 0x82a180, 0x831540, 0x871b00, 0x86afc0, 0x847280, 0x85c640, 0x8c6e00, 0x8ddac0, 0x8f0780, 0x8eb340, 0x8abd00, 0x8b09c0, 0x89d480, 0x886040],
    [0x9a8400, 0x9b30c0, 0x99ed80, 0x985940, 0x9c5700, 0x9de3c0, 0x9f3e80, 0x9e8a40, 0x972200, 0x9696c0, 0x944b80, 0x95ff40, 0x91f100, 0x9045c0, 0x929880, 0x932c40]
  ]

  const TABLE_154: seq<seq<bv32>> := [
    [0x0000, 0x1189, 0x2312, 0x329b, 0x4624, 0x57ad, 0x6536, 0x74bf, 0x8c48, 0x9dc1, 0xaf5a, 0xbed3, 0xca6c, 0xdbe5, 0xe97e, 0xf8f7],
    [0x1081, 0x0108, 0x3393, 0x221a, 0x56a5, 0x472c, 0x75b7, 0x643e, 0x9cc9, 0x8d40, 0xbfdb, 0xae52, 0xdaed, 0xcb64, 0xf9ff, 0xe876],
    [0x2102, 0x308b, 0x0210, 0x1399, 0x6726, 0x76af, 0x4434, 0x55bd, 0xad4a, 0xbcc3, 0x8e58, 0x9fd1, 0xeb6e, 0xfae7, 0xc87c, 0xd9f5],
    [0x3183, 0x200a, 0x1291, 0x0318, 0x77a7, 0x662e, 0x54b5, 0x453c, 0xbdcb, 0xac42, 0x9ed9, 0x8f50, 0xfbef, 0xea66, 0xd8fd, 0xc974],
    [0x4204, 0x538d, 0x6116, 0x709f, 0x0420, 0x15a9, 0x2732, 0x36bb, 0xce4c, 0xdfc5, 0xed5e, 0xfcd7, 0x8868, 0x99e1, 0xab7a, 0xbaf3],
    [0x5285, 0x430c, 0x7197, 0x601e, 0x14a1, 0x0528, 0x37b3, 0x263a, 0xdecd, 0xcf44, 0xfddf, 0xec56, 0x98e9, 0x8960, 0xbbfb, 0xaa72],
    [0x6306, 0x728f, 0x4014, 0x519d, 0x2522, 0x34ab, 0x0630, 0x17b9, 0xef4e, 0xfec7, 0xcc5c, 0xddd5, 0xa96a, 0xb8e3, 0x8a78, 0x9bf1],
    [0x7387, 0x620e, 0x5095, 0x411c, 0x35a3, 0x242a, 0x16b1, 0x0738, 0xffcf, 0xee46, 0xdcdd, 0xcd54, 0xb9eb, 0xa862, 0x9af9, 0x8b70],
    [0x8408, 0x9581, 0xa71a, 0xb693, 0xc22c, 0xd3a5, 0xe13e, 0xf0b7, 0x0840, 0x19c9, 0x2b52, 0x3adb, 0x4e64, 0x5fed, 0x6d76, 0x7cff],
    [0x9489, 0x8500, 0xb79b, 0xa612, 0xd2ad, 0xc324, 0xf1bf, 0xe036, 0x18c1, 0x0948, 0x3bd3, 0x2a5a, 0x5ee5, 0x4f6c, 0x7df7, 0x6c7e],
    [0xa50a, 0xb483, 0x8618, 0x9791, 0xe32e, 0xf2a7, 0xc03c, 0xd1b5, 0x2942, 0x38cb, 0x0a50, 0x1bd9, 0x6f66, 0x7eef, 0x4c74, 0x5dfd],
    [0xb58b, 0xa402, 0x9699, 0x8710, 0xf3af, 0xe226, 0xd0bd, 0xc134, 0x39c3, 0x284a, 0x1ad1, 0x0b58, 0x7fe7, 0x6e6e, 0x5cf5, 0x4d7c],
    [0xc60c, 0xd785, 0xe51e, 0xf497, 0x8028, 0x91a1, 0xa33a, 0xb2b3, 0x4a44, 0x5bcd, 0x6956, 0x78df, 0x0c60, 0x1de9, 0x2f72, 0x3efb],
    [0xd68d, 0xc704, 0xf59f, 0xe416, 0x90a9, 0x8120, 0xb3bb, 0xa232, 0x5ac5, 0x4b4c, 0x79d7, 0x685e, 0x1ce1, 0x0d68, 0x3ff3, 0x2e7a],
    [0xe70e, 0xf687, 0xc41c, 0xd595, 0xa12a, 0xb0a3, 0x8238, 0x93b1, 0x6b46, 0x7acf, 0x4854, 0x59dd, 0x2d62, 0x3ceb, 0x0e70, 0x1ff9],
    [0xf78f, 0xe606, 0xd49d, 0xc514, 0xb1ab, 0xa022, 0x92b9, 0x8330, 0x7bc7, 0x6a4e, 0x58d5, 0x495c, 0x3de3, 0x2c6a, 0x1ef1, 0x0f78]
  ]

  predicate IsTable(table: seq<seq<bv32>>) {
    |table| == 16 && forall r :: 0 <= r < 16 ==> |table[r]| == 16
  }

  function Lookup(table: seq<seq<bv32>>, index: bv8): bv32
    requires IsTable(table)
  {
    table[(index >> 4) as int][(index & 0x0f) as int]
  }

  // ---------- Generators ----------

  /** The low-order coefficients of a generator of degree `width`: the exponents below `width` that it contains. */
  function Generator(width: nat, exponents: set<nat>): (g: Bits)
    ensures |g| == width
  {
    seq(width, k requires 0 <= k < width => width - 1 - k in exponents)
  }

  /** x^24 + x^10 + x^9 + x^6 + x^4 + x^3 + x + 1 */
  const POLY_BLE: Bits := Generator(24, {10, 9, 6, 4, 3, 1, 0})

  /** x^16 + x^12 + x^5 + 1 */
  const POLY_154: Bits := Generator(16, {12, 5, 0})

  /** The same generators as reflected words. */
  const REFLECTED_BLE: bv32 := 0xDA6000
  const REFLECTED_154: bv32 := 0x8408

  // ---------- Machine words ----------

  const OPS: WordOps<bv32> := WordOps(x => x & 1 != 0, x => x >> 1, (x, y) => x ^ y)

  /** A byte goes on air least significant bit first. */
  function ByteBits(b: bv8): (r: Bits)
    ensures |r| == 8
  {
    WordBits(OPS, b as bv32, 8)
  }

  function MessageBits(data: seq<bv8>): (r: Bits)
    ensures |r| == 8 * |data|
  {
    if data == [] then [] else MessageBits(data[..|data| - 1]) + ByteBits(data[|data| - 1])
  }

  function Reverse(b: Bits): (r: Bits)
    ensures |r| == |b| && forall k :: 0 <= k < |b| ==> r[k] == b[|b| - 1 - k]
  {
    seq(|b|, k requires 0 <= k < |b| => b[|b| - 1 - k])
  }

  lemma {:induction false} MessageBitsConcat(a: seq<bv8>, b: seq<bv8>)
    ensures MessageBits(a + b) == MessageBits(a) + MessageBits(b)
    decreases |b|
  {
    if b == [] {
      assert a + b == a;
    } else {
      var b' := b[..|b| - 1];
      assert (a + b)[..|a + b| - 1] == a + b';
      MessageBitsConcat(a, b');
    }
  }

  lemma AddReorders()
    ensures Reorders(OPS)
  {
  }

  lemma AddAssociates()
    ensures Associates(OPS)
  {
  }

  lemma AddCancels()
    ensures Cancels(OPS)
  {
  }

  lemma ShiftAdds()
    ensures ShiftDistributes(OPS)
  {
  }

  lemma LowAdds()
    ensures LowDistributes(OPS)
  {
  }

  lemma WordsAreLawful()
    ensures Lawful(OPS)
  {
    AddReorders();
    AddAssociates();
    AddCancels();
    ShiftAdds();
    LowAdds();
  }

  lemma ShiftBy8(x: bv32)
    ensures ShiftBy(OPS, x, 8) == x >> 8
  {
  }

  lemma ShiftBy16(x: bv32)
    ensures ShiftBy(OPS, x, 16) == x >> 16
  {
    ShiftByPlus(OPS, x, 8, 8);
    ShiftBy8(x);
    ShiftBy8(x >> 8);
  }

  lemma ShiftBy24(x: bv32)
    ensures ShiftBy(OPS, x, 24) == x >> 24
  {
    ShiftByPlus(OPS, x, 16, 8);
    ShiftBy16(x);
    ShiftBy8(x >> 16);
  }

  lemma LimitFits(x: bv32)
    ensures x <= 0xffffff ==> Fits(OPS, x, 24)
    ensures x <= 0xffff ==> Fits(OPS, x, 16)
    ensures x <= 0xff ==> Fits(OPS, x, 8)
  {
    ShiftBy8(x);
    ShiftBy16(x);
    ShiftBy24(x);
    if x <= 0xffffff { FitsWhenShiftedOut(OPS, x, 24, 0); }
    if x <= 0xffff { FitsWhenShiftedOut(OPS, x, 16, 0); }
    if x <= 0xff { FitsWhenShiftedOut(OPS, x, 8, 0); }
  }

  /** Bits 0 to 7 written with masks. */
  lemma LowBits(x: bv32)
    ensures Bit(OPS, x, 0) == (x & 0x01 != 0) && Bit(OPS, x, 1) == (x & 0x02 != 0)
    ensures Bit(OPS, x, 2) == (x & 0x04 != 0) && Bit(OPS, x, 3) == (x & 0x08 != 0)
    ensures Bit(OPS, x, 4) == (x & 0x10 != 0) && Bit(OPS, x, 5) == (x & 0x20 != 0)
    ensures Bit(OPS, x, 6) == (x & 0x40 != 0) && Bit(OPS, x, 7) == (x & 0x80 != 0)
  {
  }

  /** Two words with the same low eight bits. */
  ghost predicate SameLowByte(x: bv32, y: bv32) {
    && (x & 0x01 != 0) == (y & 0x01 != 0) && (x & 0x02 != 0) == (y & 0x02 != 0)
    && (x & 0x04 != 0) == (y & 0x04 != 0) && (x & 0x08 != 0) == (y & 0x08 != 0)
    && (x & 0x10 != 0) == (y & 0x10 != 0) && (x & 0x20 != 0) == (y & 0x20 != 0)
    && (x & 0x40 != 0) == (y & 0x40 != 0) && (x & 0x80 != 0) == (y & 0x80 != 0)
  }

  lemma SameLowByteBits(x: bv32, y: bv32)
    requires SameLowByte(x, y)
    ensures WordBits(OPS, x, 8) == WordBits(OPS, y, 8)
  {
    LowBits(x);
    LowBits(y);
    forall k: nat | k < 8
      ensures WordBits(OPS, x, 8)[k] == WordBits(OPS, y, 8)[k]
    {
      if k == 0 {} else if k == 1 {} else if k == 2 {} else if k == 3 {}
      else if k == 4 {} else if k == 5 {} else if k == 6 {} else {}
    }
  }

  lemma LowByteKept(x: bv32)
    ensures SameLowByte(x, ((x & 0xff) as bv8) as bv32)
  {
  }

  lemma LowByteBits(x: bv32)
    ensures WordBits(OPS, x, 8) == ByteBits((x & 0xff) as bv8)
  {
    LowByteKept(x);
    SameLowByteBits(x, ((x & 0xff) as bv8) as bv32);
  }

  /** The bytes of a word, least significant first, carry its bits in order. */
  lemma WordOfBytes(x: bv32)
    ensures WordBits(OPS, x, 16) == ByteBits((x & 0xff) as bv8) + ByteBits(((x >> 8) & 0xff) as bv8)
    ensures WordBits(OPS, x, 24) == ByteBits((x & 0xff) as bv8) + ByteBits(((x >> 8) & 0xff) as bv8)
                                    + ByteBits(((x >> 16) & 0xff) as bv8)
  {
    ShiftBy8(x);
    ShiftBy16(x);
    WordBitsSplit(OPS, x, 8, 8);
    WordBitsSplit(OPS, x, 16, 8);
    LowByteBits(x);
    LowByteBits(x >> 8);
    LowByteBits(x >> 16);
  }

  // ---------- Bit reversal ----------

  function RevByte(input: bv8): bv8 {
    (((((input as bv64 * 0x80200802) & 0x0884422110) * 0x0101010101) >> 32) & 0xff) as bv8
  }

  function Rev24(input: bv32): bv32 {
    (RevByte((input & 0xff) as bv8) as bv32 << 16)
    | (RevByte(((input >> 8) & 0xff) as bv8) as bv32 << 8)
    | (RevByte(((input >> 16) & 0xff) as bv8) as bv32)
  }

  function Rev16(input: bv32): bv32 {
    (RevByte((input & 0xff) as bv8) as bv32 << 8)
    | (RevByte(((input >> 8) & 0xff) as bv8) as bv32)
  }

  /** Two words whose low eight bits mirror each other. */
  ghost predicate Mirrored(r: bv32, x: bv32) {
    && (r & 0x01 != 0) == (x & 0x80 != 0) && (r & 0x02 != 0) == (x & 0x40 != 0)
    && (r & 0x04 != 0) == (x & 0x20 != 0) && (r & 0x08 != 0) == (x & 0x10 != 0)
    && (r & 0x10 != 0) == (x & 0x08 != 0) && (r & 0x20 != 0) == (x & 0x04 != 0)
    && (r & 0x40 != 0) == (x & 0x02 != 0) && (r & 0x80 != 0) == (x & 0x01 != 0)
  }

  /** The multiplication trick sends bit k to bit 7 - k. */
  lemma RevByteMirrors(b: bv8)
    ensures Mirrored(RevByte(b) as bv32, b as bv32)
  {
  }

  lemma MirroredBits(r: bv32, x: bv32)
    requires Mirrored(r, x)
    ensures WordBits(OPS, r, 8) == Reverse(WordBits(OPS, x, 8))
  {
    LowBits(x);
    LowBits(r);
    forall k: nat | k < 8
      ensures WordBits(OPS, r, 8)[k] == WordBits(OPS, x, 8)[7 - k]
    {
      if k == 0 {} else if k == 1 {} else if k == 2 {} else if k == 3 {}
      else if k == 4 {} else if k == 5 {} else if k == 6 {} else {}
    }
  }

  lemma RevByteReverses(b: bv8)
    ensures ByteBits(RevByte(b)) == Reverse(ByteBits(b))
  {
    RevByteMirrors(b);
    MirroredBits(RevByte(b) as bv32, b as bv32);
  }

  lemma ReverseConcat(a: Bits, b: Bits)
    ensures Reverse(a + b) == Reverse(b) + Reverse(a)
  {
  }

  lemma Rev24Bytes(x: bv32)
    ensures (Rev24(x) & 0xff) as bv8 == RevByte(((x >> 16) & 0xff) as bv8)
    ensures ((Rev24(x) >> 8) & 0xff) as bv8 == RevByte(((x >> 8) & 0xff) as bv8)
    ensures ((Rev24(x) >> 16) & 0xff) as bv8 == RevByte((x & 0xff) as bv8)
    ensures Rev24(x) <= 0xffffff
  {
  }

  lemma Rev24Reverses(x: bv32)
    ensures WordBits(OPS, Rev24(x), 24) == Reverse(WordBits(OPS, x, 24))
  {
    WordOfBytes(x);
    WordOfBytes(Rev24(x));
    Rev24Bytes(x);
    ReverseThree((x & 0xff) as bv8, ((x >> 8) & 0xff) as bv8, ((x >> 16) & 0xff) as bv8);
  }

  lemma ReverseThree(a: bv8, b: bv8, c: bv8)
    ensures ByteBits(RevByte(c)) + ByteBits(RevByte(b)) + ByteBits(RevByte(a))
         == Reverse(ByteBits(a) + ByteBits(b) + ByteBits(c))
  {
    RevByteReverses(a);
    RevByteReverses(b);
    RevByteReverses(c);
    ReverseConcat(ByteBits(a) + ByteBits(b), ByteBits(c));
    ReverseConcat(ByteBits(a), ByteBits(b));
  }

  lemma Rev16Bytes(x: bv32)
    ensures (Rev16(x) & 0xff) as bv8 == RevByte(((x >> 8) & 0xff) as bv8)
    ensures ((Rev16(x) >> 8) & 0xff) as bv8 == RevByte((x & 0xff) as bv8)
    ensures Rev16(x) <= 0xffff
  {
  }

  lemma Rev16Reverses(x: bv32)
    ensures WordBits(OPS, Rev16(x), 16) == Reverse(WordBits(OPS, x, 16))
  {
    WordOfBytes(x);
    WordOfBytes(Rev16(x));
    Rev16Bytes(x);
    RevByteReverses((x & 0xff) as bv8);
    RevByteReverses(((x >> 8) & 0xff) as bv8);
    ReverseConcat(ByteBits((x & 0xff) as bv8), ByteBits(((x >> 8) & 0xff) as bv8));
  }

  // ---------- The tables ----------

  /** A row of sixteen entries given by a function of the column. */
  function RowOf<T>(f: bv8 -> T): (row: seq<T>)
    ensures |row| == 16
  {
    [f(0), f(1), f(2), f(3), f(4), f(5), f(6), f(7), f(8), f(9), f(10), f(11), f(12), f(13), f(14), f(15)]
  }

  lemma RowAt<T>(f: bv8 -> T, i: bv8)
    requires i < 16
    ensures RowOf(f)[i as int] == f(i)
  {
    if i < 8 {
      if i == 0 {} else if i == 1 {} else if i == 2 {} else if i == 3 {}
      else if i == 4 {} else if i == 5 {} else if i == 6 {} else {}
    } else {
      if i == 8 {} else if i == 9 {} else if i == 10 {} else if i == 11 {}
      else if i == 12 {} else if i == 13 {} else if i == 14 {} else {}
    }
  }

  /** n steps from a byte. */
  function ByteSteps(poly: bv32, b: bv8, n: nat): bv32 {
    Steps(OPS, poly, b as bv32, n)
  }

  /** Eight steps written out. */
  function EightSteps(poly: bv32, x: bv32): bv32 {
    var a := Step(OPS, poly, Step(OPS, poly, x));
    var b := Step(OPS, poly, Step(OPS, poly, a));
    var c := Step(OPS, poly, Step(OPS, poly, b));
    Step(OPS, poly, Step(OPS, poly, c))
  }

  /** The table entry for half bytes r (high) and c (low): the sum of their separate contributions. */
  function Entry(poly: bv32, n: nat, r: bv8, c: bv8): bv32 {
    OPS.add(ByteSteps(poly, r << 4, n), ByteSteps(poly, c, n))
  }

  function TableRow(poly: bv32, n: nat, r: bv8): (row: seq<bv32>)
    ensures |row| == 16
  {
    RowOf(c => Entry(poly, n, r, c))
  }

  /** Every entry is the register n steps after its index. */
  ghost predicate TableOf(table: seq<seq<bv32>>, poly: bv32, n: nat) {
    table == RowOf(r => TableRow(poly, n, r))
  }

  lemma ByteStepsAreEight(poly: bv32, b: bv8)
    ensures ByteSteps(poly, b, 8) == EightSteps(poly, b as bv32)
  {
    hide ReflectedRegister.Step;
  }

  lemma LowSteps24()
    ensures ByteSteps(REFLECTED_BLE, 0x0, 8) == 0x000000 && ByteSteps(REFLECTED_BLE, 0x1, 8) == 0x01b4c0
    ensures ByteSteps(REFLECTED_BLE, 0x2, 8) == 0x036980 && ByteSteps(REFLECTED_BLE, 0x3, 8) == 0x02dd40
    ensures ByteSteps(REFLECTED_BLE, 0x4, 8) == 0x06d300 && ByteSteps(REFLECTED_BLE, 0x5, 8) == 0x0767c0
    ensures ByteSteps(REFLECTED_BLE, 0x6, 8) == 0x05ba80 && ByteSteps(REFLECTED_BLE, 0x7, 8) == 0x040e40
    ensures ByteSteps(REFLECTED_BLE, 0x8, 8) == 0x0da600 && ByteSteps(REFLECTED_BLE, 0x9, 8) == 0x0c12c0
    ensures ByteSteps(REFLECTED_BLE, 0xa, 8) == 0x0ecf80 && ByteSteps(REFLECTED_BLE, 0xb, 8) == 0x0f7b40
    ensures ByteSteps(REFLECTED_BLE, 0xc, 8) == 0x0b7500 && ByteSteps(REFLECTED_BLE, 0xd, 8) == 0x0ac1c0
    ensures ByteSteps(REFLECTED_BLE, 0xe, 8) == 0x081c80 && ByteSteps(REFLECTED_BLE, 0xf, 8) == 0x09a840
  {
    ByteStepsAreEight(REFLECTED_BLE, 0x0); ByteStepsAreEight(REFLECTED_BLE, 0x1);
    ByteStepsAreEight(REFLECTED_BLE, 0x2); ByteStepsAreEight(REFLECTED_BLE, 0x3);
    ByteStepsAreEight(REFLECTED_BLE, 0x4); ByteStepsAreEight(REFLECTED_BLE, 0x5);
    ByteStepsAreEight(REFLECTED_BLE, 0x6); ByteStepsAreEight(REFLECTED_BLE, 0x7);
    ByteStepsAreEight(REFLECTED_BLE, 0x8); ByteStepsAreEight(REFLECTED_BLE, 0x9);
    ByteStepsAreEight(REFLECTED_BLE, 0xa); ByteStepsAreEight(REFLECTED_BLE, 0xb);
    ByteStepsAreEight(REFLECTED_BLE, 0xc); ByteStepsAreEight(REFLECTED_BLE, 0xd);
    ByteStepsAreEight(REFLECTED_BLE, 0xe); ByteStepsAreEight(REFLECTED_BLE, 0xf);
  }

  lemma HighSteps24()
    ensures ByteSteps(REFLECTED_BLE, 0x10, 8) == 0x1b4c00 && ByteSteps(REFLECTED_BLE, 0x20, 8) == 0x369800
    ensures ByteSteps(REFLECTED_BLE, 0x30, 8) == 0x2dd400 && ByteSteps(REFLECTED_BLE, 0x40, 8) == 0x6d3000
    ensures ByteSteps(REFLECTED_BLE, 0x50, 8) == 0x767c00 && ByteSteps(REFLECTED_BLE, 0x60, 8) == 0x5ba800
    ensures ByteSteps(REFLECTED_BLE, 0x70, 8) == 0x40e400 && ByteSteps(REFLECTED_BLE, 0x80, 8) == 0xda6000
    ensures ByteSteps(REFLECTED_BLE, 0x90, 8) == 0xc12c00 && ByteSteps(REFLECTED_BLE, 0xa0, 8) == 0xecf800
    ensures ByteSteps(REFLECTED_BLE, 0xb0, 8) == 0xf7b400 && ByteSteps(REFLECTED_BLE, 0xc0, 8) == 0xb75000
    ensures ByteSteps(REFLECTED_BLE, 0xd0, 8) == 0xac1c00 && ByteSteps(REFLECTED_BLE, 0xe0, 8) == 0x81c800
    ensures ByteSteps(REFLECTED_BLE, 0xf0, 8) == 0x9a8400
  {
    ByteStepsAreEight(REFLECTED_BLE, 0x10); ByteStepsAreEight(REFLECTED_BLE, 0x20);
    ByteStepsAreEight(REFLECTED_BLE, 0x30); ByteStepsAreEight(REFLECTED_BLE, 0x40);
    ByteStepsAreEight(REFLECTED_BLE, 0x50); ByteStepsAreEight(REFLECTED_BLE, 0x60);
    ByteStepsAreEight(REFLECTED_BLE, 0x70); ByteStepsAreEight(REFLECTED_BLE, 0x80);
    ByteStepsAreEight(REFLECTED_BLE, 0x90); ByteStepsAreEight(REFLECTED_BLE, 0xa0);
    ByteStepsAreEight(REFLECTED_BLE, 0xb0); ByteStepsAreEight(REFLECTED_BLE, 0xc0);
    ByteStepsAreEight(REFLECTED_BLE, 0xd0); ByteStepsAreEight(REFLECTED_BLE, 0xe0);
    ByteStepsAreEight(REFLECTED_BLE, 0xf0);
  }

  lemma TableRows24From0()
    ensures TABLE_24_BLE[0] == TableRow(REFLECTED_BLE, 8, 0) && TABLE_24_BLE[1] == TableRow(REFLECTED_BLE, 8, 1)
  {
    LowSteps24();
    HighSteps24();
  }

  lemma TableRows24From2()
    ensures TABLE_24_BLE[2] == TableRow(REFLECTED_BLE, 8, 2) && TABLE_24_BLE[3] == TableRow(REFLECTED_BLE, 8, 3)
  {
    LowSteps24();
    HighSteps24();
  }

  lemma TableRows24From4()
    ensures TABLE_24_BLE[4] == TableRow(REFLECTED_BLE, 8, 4) && TABLE_24_BLE[5] == TableRow(REFLECTED_BLE, 8, 5)
  {
    LowSteps24();
    HighSteps24();
  }

  lemma TableRows24From6()
    ensures TABLE_24_BLE[6] == TableRow(REFLECTED_BLE, 8, 6) && TABLE_24_BLE[7] == TableRow(REFLECTED_BLE, 8, 7)
  {
    LowSteps24();
    HighSteps24();
  }

  lemma TableRows24From8()
    ensures TABLE_24_BLE[8] == TableRow(REFLECTED_BLE, 8, 8) && TABLE_24_BLE[9] == TableRow(REFLECTED_BLE, 8, 9)
  {
    LowSteps24();
    HighSteps24();
  }

  lemma TableRows24From10()
    ensures TABLE_24_BLE[10] == TableRow(REFLECTED_BLE, 8, 10) && TABLE_24_BLE[11] == TableRow(REFLECTED_BLE, 8, 11)
  {
    LowSteps24();
    HighSteps24();
  }

  lemma TableRows24From12()
    ensures TABLE_24_BLE[12] == TableRow(REFLECTED_BLE, 8, 12) && TABLE_24_BLE[13] == TableRow(REFLECTED_BLE, 8, 13)
  {
    LowSteps24();
    HighSteps24();
  }

  lemma TableRows24From14()
    ensures TABLE_24_BLE[14] == TableRow(REFLECTED_BLE, 8, 14) && TABLE_24_BLE[15] == TableRow(REFLECTED_BLE, 8, 15)
  {
    LowSteps24();
    HighSteps24();
  }

  lemma TableRows24()
    ensures TableOf(TABLE_24_BLE, REFLECTED_BLE, 8)
  {
    TableRows24From0();
    TableRows24From2();
    TableRows24From4();
    TableRows24From6();
    TableRows24From8();
    TableRows24From10();
    TableRows24From12();
    TableRows24From14();
  }

  lemma LowSteps16()
    ensures ByteSteps(REFLECTED_154, 0x0, 8) == 0x0000 && ByteSteps(REFLECTED_154, 0x1, 8) == 0x1189
    ensures ByteSteps(REFLECTED_154, 0x2, 8) == 0x2312 && ByteSteps(REFLECTED_154, 0x3, 8) == 0x329b
    ensures ByteSteps(REFLECTED_154, 0x4, 8) == 0x4624 && ByteSteps(REFLECTED_154, 0x5, 8) == 0x57ad
    ensures ByteSteps(REFLECTED_154, 0x6, 8) == 0x6536 && ByteSteps(REFLECTED_154, 0x7, 8) == 0x74bf
    ensures ByteSteps(REFLECTED_154, 0x8, 8) == 0x8c48 && ByteSteps(REFLECTED_154, 0x9, 8) == 0x9dc1
    ensures ByteSteps(REFLECTED_154, 0xa, 8) == 0xaf5a && ByteSteps(REFLECTED_154, 0xb, 8) == 0xbed3
    ensures ByteSteps(REFLECTED_154, 0xc, 8) == 0xca6c && ByteSteps(REFLECTED_154, 0xd, 8) == 0xdbe5
    ensures ByteSteps(REFLECTED_154, 0xe, 8) == 0xe97e && ByteSteps(REFLECTED_154, 0xf, 8) == 0xf8f7
  {
    ByteStepsAreEight(REFLECTED_154, 0x0); ByteStepsAreEight(REFLECTED_154, 0x1);
    ByteStepsAreEight(REFLECTED_154, 0x2); ByteStepsAreEight(REFLECTED_154, 0x3);
    ByteStepsAreEight(REFLECTED_154, 0x4); ByteStepsAreEight(REFLECTED_154, 0x5);
    ByteStepsAreEight(REFLECTED_154, 0x6); ByteStepsAreEight(REFLECTED_154, 0x7);
    ByteStepsAreEight(REFLECTED_154, 0x8); ByteStepsAreEight(REFLECTED_154, 0x9);
    ByteStepsAreEight(REFLECTED_154, 0xa); ByteStepsAreEight(REFLECTED_154, 0xb);
    ByteStepsAreEight(REFLECTED_154, 0xc); ByteStepsAreEight(REFLECTED_154, 0xd);
    ByteStepsAreEight(REFLECTED_154, 0xe); ByteStepsAreEight(REFLECTED_154, 0xf);
  }

  lemma HighSteps16()
    ensures ByteSteps(REFLECTED_154, 0x10, 8) == 0x1081 && ByteSteps(REFLECTED_154, 0x20, 8) == 0x2102
    ensures ByteSteps(REFLECTED_154, 0x30, 8) == 0x3183 && ByteSteps(REFLECTED_154, 0x40, 8) == 0x4204
    ensures ByteSteps(REFLECTED_154, 0x50, 8) == 0x5285 && ByteSteps(REFLECTED_154, 0x60, 8) == 0x6306
    ensures ByteSteps(REFLECTED_154, 0x70, 8) == 0x7387 && ByteSteps(REFLECTED_154, 0x80, 8) == 0x8408
    ensures ByteSteps(REFLECTED_154, 0x90, 8) == 0x9489 && ByteSteps(REFLECTED_154, 0xa0, 8) == 0xa50a
    ensures ByteSteps(REFLECTED_154, 0xb0, 8) == 0xb58b && ByteSteps(REFLECTED_154, 0xc0, 8) == 0xc60c
    ensures ByteSteps(REFLECTED_154, 0xd0, 8) == 0xd68d && ByteSteps(REFLECTED_154, 0xe0, 8) == 0xe70e
    ensures ByteSteps(REFLECTED_154, 0xf0, 8) == 0xf78f
  {
    ByteStepsAreEight(REFLECTED_154, 0x10); ByteStepsAreEight(REFLECTED_154, 0x20);
    ByteStepsAreEight(REFLECTED_154, 0x30); ByteStepsAreEight(REFLECTED_154, 0x40);
    ByteStepsAreEight(REFLECTED_154, 0x50); ByteStepsAreEight(REFLECTED_154, 0x60);
    ByteStepsAreEight(REFLECTED_154, 0x70); ByteStepsAreEight(REFLECTED_154, 0x80);
    ByteStepsAreEight(REFLECTED_154, 0x90); ByteStepsAreEight(REFLECTED_154, 0xa0);
    ByteStepsAreEight(REFLECTED_154, 0xb0); ByteStepsAreEight(REFLECTED_154, 0xc0);
    ByteStepsAreEight(REFLECTED_154, 0xd0); ByteStepsAreEight(REFLECTED_154, 0xe0);
    ByteStepsAreEight(REFLECTED_154, 0xf0);
  }

  lemma TableRows16From0()
    ensures TABLE_154[0] == TableRow(REFLECTED_154, 8, 0) && TABLE_154[1] == TableRow(REFLECTED_154, 8, 1)
  {
    LowSteps16();
    HighSteps16();
  }

  lemma TableRows16From2()
    ensures TABLE_154[2] == TableRow(REFLECTED_154, 8, 2) && TABLE_154[3] == TableRow(REFLECTED_154, 8, 3)
  {
    LowSteps16();
    HighSteps16();
  }

  lemma TableRows16From4()
    ensures TABLE_154[4] == TableRow(REFLECTED_154, 8, 4) && TABLE_154[5] == TableRow(REFLECTED_154, 8, 5)
  {
    LowSteps16();
    HighSteps16();
  }

  lemma TableRows16From6()
    ensures TABLE_154[6] == TableRow(REFLECTED_154, 8, 6) && TABLE_154[7] == TableRow(REFLECTED_154, 8, 7)
  {
    LowSteps16();
    HighSteps16();
  }

  lemma TableRows16From8()
    ensures TABLE_154[8] == TableRow(REFLECTED_154, 8, 8) && TABLE_154[9] == TableRow(REFLECTED_154, 8, 9)
  {
    LowSteps16();
    HighSteps16();
  }

  lemma TableRows16From10()
    ensures TABLE_154[10] == TableRow(REFLECTED_154, 8, 10) && TABLE_154[11] == TableRow(REFLECTED_154, 8, 11)
  {
    LowSteps16();
    HighSteps16();
  }

  lemma TableRows16From12()
    ensures TABLE_154[12] == TableRow(REFLECTED_154, 8, 12) && TABLE_154[13] == TableRow(REFLECTED_154, 8, 13)
  {
    LowSteps16();
    HighSteps16();
  }

  lemma TableRows16From14()
    ensures TABLE_154[14] == TableRow(REFLECTED_154, 8, 14) && TABLE_154[15] == TableRow(REFLECTED_154, 8, 15)
  {
    LowSteps16();
    HighSteps16();
  }

  lemma TableRows16()
    ensures TableOf(TABLE_154, REFLECTED_154, 8)
  {
    TableRows16From0();
    TableRows16From2();
    TableRows16From4();
    TableRows16From6();
    TableRows16From8();
    TableRows16From10();
    TableRows16From12();
    TableRows16From14();
  }

  lemma SplitByte(i: bv8)
    ensures i as bv32 == OPS.add(((i >> 4) << 4) as bv32, (i & 0x0f) as bv32)
  {
  }

  lemma BytesAdd(poly: bv32, n: nat, high: bv8, low: bv8, i: bv8)
    requires i as bv32 == OPS.add(high as bv32, low as bv32)
    ensures OPS.add(ByteSteps(poly, high, n), ByteSteps(poly, low, n)) == ByteSteps(poly, i, n)
  {
    hide ReflectedRegister.Steps;
    WordsAreLawful();
    StepsLinear(OPS, poly, high as bv32, low as bv32, n);
  }

  lemma EntryIsSteps(poly: bv32, n: nat, i: bv8)
    ensures Entry(poly, n, i >> 4, i & 0x0f) == ByteSteps(poly, i, n)
  {
    hide ReflectedRegister.Steps, ByteSteps;
    SplitByte(i);
    BytesAdd(poly, n, (i >> 4) << 4, i & 0x0f, i);
  }

  /** Looking a byte up is taking n steps from it. */
  lemma LookupIsSteps(table: seq<seq<bv32>>, poly: bv32, n: nat, i: bv8)
    requires TableOf(table, poly, n) && IsTable(table)
    ensures Lookup(table, i) == ByteSteps(poly, i, n)
  {
    hide ReflectedRegister.Steps, ByteSteps, Entry;
    var high, low := i >> 4, i & 0x0f;
    RowAt(r => TableRow(poly, n, r), high);
    RowAt(c => Entry(poly, n, high, c), low);
    EntryIsSteps(poly, n, i);
  }

  lemma SplitWord(y: bv32)
    ensures y == OPS.add(((y & 0xff) as bv8) as bv32, y & 0xffffff00)
    ensures (y & 0xffffff00) >> 8 == y >> 8
    ensures SameLowByte(y & 0xffffff00, 0)
  {
  }

  /** A word whose low byte is zero only shifts during eight steps. */
  lemma HighBytesShift(poly: bv32, n: nat, high: bv32)
    requires SameLowByte(high, 0) && n == 8
    ensures Steps(OPS, poly, high, n) == high >> 8
  {
    SameLowByteBits(high, 0);
    forall k: nat | k < 8
      ensures !Bit(OPS, high, k)
    {
      assert WordBits(OPS, high, 8)[k] == WordBits(OPS, 0, 8)[k];
      ShiftByFixed(OPS, 0, k);
    }
    StepsShift(OPS, poly, high, n);
    ShiftBy8(high);
  }

  lemma StepsOfSplit(poly: bv32, n: nat, y: bv32, low: bv8, high: bv32)
    requires y == OPS.add(low as bv32, high) && SameLowByte(high, 0) && n == 8
    ensures Steps(OPS, poly, y, n) == OPS.add(ByteSteps(poly, low, n), high >> 8)
  {
    hide ReflectedRegister.Steps;
    WordsAreLawful();
    StepsLinear(OPS, poly, low as bv32, high, n);
    HighBytesShift(poly, n, high);
  }

  lemma LookupPlusShift(table: seq<seq<bv32>>, poly: bv32, n: nat, y: bv32, low: bv8, high: bv32, rest: bv32)
    requires TableOf(table, poly, n) && IsTable(table) && n == 8
    requires y == OPS.add(low as bv32, high) && SameLowByte(high, 0) && rest == high >> 8
    ensures OPS.add(Lookup(table, low), rest) == Steps(OPS, poly, y, n)
  {
    hide ReflectedRegister.Steps, ReflectedRegister.ShiftBy;
    LookupIsSteps(table, poly, n, low);
    StepsOfSplit(poly, n, y, low, high);
  }

  /** The update formula: table entry of the low byte plus the word shifted by a byte is eight steps. */
  lemma TableStep(table: seq<seq<bv32>>, poly: bv32, n: nat, y: bv32)
    requires TableOf(table, poly, n) && IsTable(table) && n == 8
    ensures OPS.add(Lookup(table, (y & 0xff) as bv8), y >> 8) == Steps(OPS, poly, y, n)
  {
    hide ReflectedRegister.Steps, ReflectedRegister.ShiftBy, Lookup, SameLowByte, TableOf;
    SplitWord(y);
    LookupPlusShift(table, poly, n, y, (y & 0xff) as bv8, y & 0xffffff00, y >> 8);
  }

  lemma GeneratorWords()
    ensures WordBits(OPS, REFLECTED_BLE, 24) == POLY_BLE && Fits(OPS, REFLECTED_BLE, 24)
    ensures WordBits(OPS, REFLECTED_154, 16) == POLY_154 && Fits(OPS, REFLECTED_154, 16)
  {
    LimitFits(REFLECTED_BLE);
    LimitFits(REFLECTED_154);
    WordOfBytes(REFLECTED_BLE);
    WordOfBytes(REFLECTED_154);
    LowBits(0x00);
    LowBits(0x60);
    LowBits(0xda);
    LowBits(0x08);
    LowBits(0x84);
  }

  // ---------- Updating and appending ----------

  lemma MessageByte(crc: bv32, d: bv8)
    ensures OPS.add(crc, d as bv32) == crc ^ d as bv32
    ensures (crc ^ d as bv32) >> 8 == crc >> 8
  {
  }

  /** One round of the update loop feeds the eight bits of one byte. */
  lemma UpdateByte(table: seq<seq<bv32>>, reflected: bv32, poly: Bits, crc: bv32, d: bv8, n: nat)
    requires TableOf(table, reflected, n) && IsTable(table) && n == 8 <= |poly|
    requires WordBits(OPS, reflected, |poly|) == poly && Fits(OPS, reflected, |poly|) && Fits(OPS, crc, |poly|)
    ensures var r := OPS.add(Lookup(table, ((crc ^ d as bv32) & 0xff) as bv8), crc >> 8);
      && WordBits(OPS, r, |poly|) == FeedAll(poly, WordBits(OPS, crc, |poly|), ByteBits(d))
      && Fits(OPS, r, |poly|)
  {
    hide ReflectedRegister.Steps, ReflectedRegister.ShiftBy, Lookup, TableOf;
    WordsAreLawful();
    MessageByte(crc, d);
    TableStep(table, reflected, n, crc ^ d as bv32);
    LimitFits(d as bv32);
    AddThenStep(OPS, reflected, crc, d as bv32, |poly|, n);
  }

  /** A word with no bits from some position on is below the power of two at that position. */
  lemma FitsIsLimit(x: bv32)
    ensures Fits(OPS, x, 24) ==> x <= 0xffffff
    ensures Fits(OPS, x, 16) ==> x <= 0xffff
  {
    ShiftBy16(x);
    ShiftBy24(x);
    if Fits(OPS, x, 24) {
      NoBitsInByte(x, 24);
      NoLowBits(x >> 24);
    }
    if Fits(OPS, x, 16) {
      NoBitsInByte(x, 16);
      NoBitsInByte(x, 24);
      NoLowBits(x >> 16);
      NoLowBits(x >> 24);
    }
  }

  lemma NoBitsInByte(x: bv32, n: nat)
    requires Fits(OPS, x, n) || (n >= 8 && Fits(OPS, x, n - 8))
    ensures forall k: nat :: k < 8 ==> !Bit(OPS, ShiftBy(OPS, x, n), k)
  {
    forall k: nat | k < 8
      ensures !Bit(OPS, ShiftBy(OPS, x, n), k)
    {
      ShiftByPlus(OPS, x, n, k);
      assert !Bit(OPS, x, n + k);
    }
  }

  lemma NoLowBits(x: bv32)
    requires forall k: nat :: k < 8 ==> !Bit(OPS, x, k)
    ensures x & 0xff == 0
  {
    LowBits(x);
    assert !Bit(OPS, x, 0) && !Bit(OPS, x, 1) && !Bit(OPS, x, 2) && !Bit(OPS, x, 3);
    assert !Bit(OPS, x, 4) && !Bit(OPS, x, 5) && !Bit(OPS, x, 6) && !Bit(OPS, x, 7);
  }

  lemma MaskKeeps(a: bv32, b: bv32, sum: bv32)
    requires sum == OPS.add(a, b)
    ensures sum <= 0xffffff ==> (a ^ b) & 0xffffff == sum
    ensures sum <= 0xffff ==> (a ^ b) & 0xffff == sum
  {
  }

  // ---------- The update loops ----------

  /** Both generators have a constant term. */
  lemma Generators()
    ensures |POLY_BLE| == 24 && POLY_BLE[23]
    ensures |POLY_154| == 16 && POLY_154[15]
  {
  }

  lemma EmptyMessage(poly: Bits, reg: Bits)
    requires |reg| == |poly| > 0
    ensures FeedAll(poly, reg, MessageBits([])) == reg
  {
  }

  lemma FeedMessageByte(poly: Bits, reg: Bits, before: seq<bv8>, d: bv8)
    requires |reg| == |poly| > 0
    ensures FeedAll(poly, reg, MessageBits(before + [d]))
         == FeedAll(poly, FeedAll(poly, reg, MessageBits(before)), ByteBits(d))
  {
    assert (before + [d])[..|before|] == before;
    FeedAllConcat(poly, reg, MessageBits(before), ByteBits(d));
  }

  /** Byte i of the register, counted from the least significant one. */
  function CrcByte(crc: bv32, i: nat): bv8 {
    if i == 0 then (crc & 0xff) as bv8 else CrcByte(crc >> 8, i - 1)
  }

  function CrcBytes(crc: bv32, n: nat): (b: seq<bv8>)
    ensures |b| == n && forall i :: 0 <= i < n ==> b[i] == CrcByte(crc, i)
  {
    seq(n, i requires 0 <= i < n => CrcByte(crc, i))
  }

  /** The appended bytes carry the register on air, most significant coefficient first. */
  lemma CrcBytesBits(crc: bv32)
    ensures MessageBits(CrcBytes(crc, 3)) == WordBits(OPS, crc, 24)
    ensures MessageBits(CrcBytes(crc, 2)) == WordBits(OPS, crc, 16)
  {
    hide CrcByte, ByteBits, ReflectedRegister.WordBits;
    WordOfBytes(crc);
    CrcByteAt(crc);
    var a, b, c := CrcByte(crc, 0), CrcByte(crc, 1), CrcByte(crc, 2);
    assert CrcBytes(crc, 3) == [a] + [b] + [c] && CrcBytes(crc, 2) == [a] + [b];
    MessageBitsConcat([a], [b]);
    MessageBitsConcat([a] + [b], [c]);
    OneByte(a);
    OneByte(b);
    OneByte(c);
  }

  lemma CrcByteAt(crc: bv32)
    ensures CrcByte(crc, 0) == (crc & 0xff) as bv8 && CrcByte(crc, 1) == ((crc >> 8) & 0xff) as bv8
    ensures CrcByte(crc, 2) == ((crc >> 16) & 0xff) as bv8
  {
    assert CrcByte(crc, 1) == CrcByte(crc >> 8, 0);
    assert (crc >> 8) >> 8 == crc >> 16;
    assert CrcByte(crc, 2) == CrcByte(crc >> 8, 1) == CrcByte((crc >> 8) >> 8, 0);
  }

  lemma OneByte(d: bv8)
    ensures MessageBits([d]) == ByteBits(d)
  {
    assert MessageBits([d]) == MessageBits([]) + ByteBits(d);
  }

  /** One round of the Ble update loop. */
  function RoundBle(crc: bv32, d: bv8): bv32 {
    var tblIdx := ((crc ^ d as bv32) & 0xff) as bv8;
    (Lookup(TABLE_24_BLE, tblIdx) ^ (crc >> 8)) & 0xffffff
  }

  lemma RoundBleFeeds(crc: bv32, d: bv8)
    requires crc <= 0xffffff
    ensures RoundBle(crc, d) <= 0xffffff
    ensures WordBits(OPS, RoundBle(crc, d), 24) == FeedAll(POLY_BLE, WordBits(OPS, crc, 24), ByteBits(d))
  {
    hide Lookup, TableOf, ReflectedRegister.WordBits, ReflectedRegister.Bit;
    TableRows24();
    GeneratorWords();
    LimitFits(crc);
    UpdateByte(TABLE_24_BLE, REFLECTED_BLE, POLY_BLE, crc, d, 8);
    var entry := Lookup(TABLE_24_BLE, ((crc ^ d as bv32) & 0xff) as bv8);
    FitsIsLimit(OPS.add(entry, crc >> 8));
    MaskKeeps(entry, crc >> 8, OPS.add(entry, crc >> 8));
  }

  /** The register after `len` bytes, as the shift register leaves it. */
  method CrcUpdateBle(crc: bv32, data: array<bv8>, from: nat, len: nat) returns (r: bv32)
    requires crc <= 0xffffff && from + len <= data.Length
    ensures r <= 0xffffff
    ensures WordBits(OPS, r, 24) == FeedAll(POLY_BLE, WordBits(OPS, crc, 24), MessageBits(data[from..from + len]))
  {
    hide *;
    r := crc;
    Generators();
    EmptyMessage(POLY_BLE, WordBits(OPS, crc, 24));
    for i := 0 to len
      invariant r <= 0xffffff
      invariant WordBits(OPS, r, 24) == FeedAll(POLY_BLE, WordBits(OPS, crc, 24), MessageBits(data[from..from + i]))
    {
      assert data[from..from + i + 1] == data[from..from + i] + [data[from + i]];
      FeedMessageByte(POLY_BLE, WordBits(OPS, crc, 24), data[from..from + i], data[from + i]);
      RoundBleFeeds(r, data[from + i]);
      r := RoundBle(r, data[from + i]);
    }
    r := r & 0xffffff;
  }

  /** Appends the Ble CRC of `len` bytes right behind them: the appended bits are the remainder of dividing the
      message, shifted by 24 places and with CRCINIT added to its first 24 bits, by the generator. */
  method AppendCrcBle(buf: array<bv8>, from: nat, len: nat, crcInit: bv32)
    requires from + len + 3 <= buf.Length
    modifies buf
    ensures buf[..from + len] == old(buf[..from + len]) && buf[from + len + 3..] == old(buf[from + len + 3..])
    ensures MessageBits(buf[from + len..from + len + 3])
         == LongDivision(POLY_BLE, Augmented(InitBle(crcInit), MessageBits(buf[from..from + len])))
  {
    hide *;
    Generators();
    Rev24Reverses(crcInit);
    Rev24Bytes(crcInit);
    InitBitsBle(crcInit);
    var crc := CrcUpdateBle(Rev24(crcInit), buf, from, len);
    RegisterIsLongDivision(POLY_BLE, InitBle(crcInit), MessageBits(buf[from..from + len]));
    ghost var message := buf[from..from + len];
    for i := 0 to 3
      invariant buf[..from + len] == old(buf[..from + len])
      invariant buf[from + len + 3..] == old(buf[from + len + 3..])
      invariant forall j: nat :: j < i ==> buf[from + len + j] == CrcByte(crc, j)
    {
      buf[from + len + i] := CrcByte(crc, i);
    }
    assert buf[from..from + len] == message;
    assert buf[from + len..from + len + 3] == CrcBytes(crc, 3);
    CrcBytesBits(crc);
  }

  /** CRCINIT as register contents, most significant coefficient first. */
  function InitBle(crcInit: bv32): (b: Bits)
    ensures |b| == 24
  {
    Reverse(WordBits(OPS, crcInit, 24))
  }

  lemma InitBitsBle(crcInit: bv32)
    ensures WordBits(OPS, Rev24(crcInit), 24) == InitBle(crcInit)
  {
    Rev24Reverses(crcInit);
  }

  /** One round of the 154 update loop. */
  function Round154(crc: bv32, d: bv8): bv32 {
    var tblIdx := ((crc ^ d as bv32) & 0xff) as bv8;
    (Lookup(TABLE_154, tblIdx) ^ (crc >> 8)) & 0xffff
  }

  lemma Round154Feeds(crc: bv32, d: bv8)
    requires crc <= 0xffff
    ensures Round154(crc, d) <= 0xffff
    ensures WordBits(OPS, Round154(crc, d), 16) == FeedAll(POLY_154, WordBits(OPS, crc, 16), ByteBits(d))
  {
    hide Lookup, TableOf, ReflectedRegister.WordBits, ReflectedRegister.Bit;
    TableRows16();
    GeneratorWords();
    LimitFits(crc);
    UpdateByte(TABLE_154, REFLECTED_154, POLY_154, crc, d, 8);
    var entry := Lookup(TABLE_154, ((crc ^ d as bv32) & 0xff) as bv8);
    FitsIsLimit(OPS.add(entry, crc >> 8));
    MaskKeeps(entry, crc >> 8, OPS.add(entry, crc >> 8));
  }

  /** The register after `len` bytes, as the shift register leaves it. */
  method CrcUpdate154(crc: bv32, data: array<bv8>, from: nat, len: nat) returns (r: bv32)
    requires crc <= 0xffff && from + len <= data.Length
    ensures r <= 0xffff
    ensures WordBits(OPS, r, 16) == FeedAll(POLY_154, WordBits(OPS, crc, 16), MessageBits(data[from..from + len]))
  {
    hide *;
    r := crc;
    Generators();
    EmptyMessage(POLY_154, WordBits(OPS, crc, 16));
    for i := 0 to len
      invariant r <= 0xffff
      invariant WordBits(OPS, r, 16) == FeedAll(POLY_154, WordBits(OPS, crc, 16), MessageBits(data[from..from + i]))
    {
      assert data[from..from + i + 1] == data[from..from + i] + [data[from + i]];
      FeedMessageByte(POLY_154, WordBits(OPS, crc, 16), data[from..from + i], data[from + i]);
      Round154Feeds(r, data[from + i]);
      r := Round154(r, data[from + i]);
    }
    r := r & 0xffff;
  }

  /** Appends the 154 CRC of `len` bytes right behind them: the appended bits are the remainder of dividing the
      message, shifted by 16 places and with CRCINIT added to its first 16 bits, by the generator. */
  method AppendCrc154(buf: array<bv8>, from: nat, len: nat, crcInit: bv32)
    requires from + len + 2 <= buf.Length
    modifies buf
    ensures buf[..from + len] == old(buf[..from + len]) && buf[from + len + 2..] == old(buf[from + len + 2..])
    ensures MessageBits(buf[from + len..from + len + 2])
         == LongDivision(POLY_154, Augmented(Init154(crcInit), MessageBits(buf[from..from + len])))
  {
    hide *;
    Generators();
    Rev16Reverses(crcInit);
    Rev16Bytes(crcInit);
    InitBits154(crcInit);
    var crc := CrcUpdate154(Rev16(crcInit), buf, from, len);
    RegisterIsLongDivision(POLY_154, Init154(crcInit), MessageBits(buf[from..from + len]));
    ghost var message := buf[from..from + len];
    for i := 0 to 2
      invariant buf[..from + len] == old(buf[..from + len])
      invariant buf[from + len + 2..] == old(buf[from + len + 2..])
      invariant forall j: nat :: j < i ==> buf[from + len + j] == CrcByte(crc, j)
    {
      buf[from + len + i] := CrcByte(crc, i);
    }
    assert buf[from..from + len] == message;
    assert buf[from + len..from + len + 2] == CrcBytes(crc, 2);
    CrcBytesBits(crc);
  }

  /** CRCINIT as register contents, most significant coefficient first. */
  function Init154(crcInit: bv32): (b: Bits)
    ensures |b| == 16
  {
    Reverse(WordBits(OPS, crcInit, 16))
  }

  lemma InitBits154(crcInit: bv32)
    ensures WordBits(OPS, Rev16(crcInit), 16) == Init154(crcInit)
  {
    Rev16Reverses(crcInit);
  }

  // ---------- A known frame ----------

  lemma KnownRounds()
    ensures Round154(Round154(Round154(0, 0x02), 0x00), 0x6a) == 0x79e4
  {
    assert Round154(0, 0x02) == 0x2312;
    assert Round154(0x2312, 0x00) == 0x33b0;
  }

  lemma NoInit()
    ensures WordBits(OPS, 0, 16) == Zeros(16) == Init154(0)
  {
    LowBits(0);
    WordOfBytes(0);
  }

  /** Three bytes, one round each. */
  lemma ThreeRounds(x: bv8, y: bv8, z: bv8)
    ensures var r := Round154(Round154(Round154(0, x), y), z);
      && r <= 0xffff
      && MessageBits(CrcBytes(r, 2)) == LongDivision(POLY_154, Augmented(Zeros(16), MessageBits([x, y, z])))
  {
    hide *;
    Generators();
    NoInit();
    var a := Round154(0, x);
    var b := Round154(a, y);
    Round154Feeds(0, x);
    Round154Feeds(a, y);
    Round154Feeds(b, z);
    EmptyMessage(POLY_154, Zeros(16));
    FeedMessageByte(POLY_154, Zeros(16), [], x);
    FeedMessageByte(POLY_154, Zeros(16), [x], y);
    FeedMessageByte(POLY_154, Zeros(16), [x, y], z);
    assert [] + [x] == [x] && [x] + [y] == [x, y] && [x, y] + [z] == [x, y, z];
    RegisterIsLongDivision(POLY_154, Zeros(16), MessageBits([x, y, z]));
    CrcBytesBits(Round154(b, z));
  }

  /** The acknowledgement of the standard, 02 00 6A, has the FCS E4 79 (IEEE 802.15.4-2006, section 7.2.1.9). */
  lemma KnownFcs()
    ensures MessageBits([0xe4, 0x79])
         == LongDivision(POLY_154, Augmented(Zeros(16), MessageBits([0x02, 0x00, 0x6a])))
  {
    hide *;
    KnownRounds();
    ThreeRounds(0x02, 0x00, 0x6a);
    KnownBytes();
  }

  lemma KnownBytes()
    ensures CrcBytes(0x79e4, 2) == [0xe4, 0x79]
  {
    CrcByteAt(0x79e4);
  }

  // ---------- Error detection ----------

  /** A message followed by its CRC leaves the register at zero. */
  lemma CheckedMessageLeavesZero(poly: Bits, reg: Bits, data: seq<bv8>, crc: seq<bv8>)
    requires |reg| == |poly| > 0
    requires MessageBits(crc) == LongDivision(poly, Augmented(reg, MessageBits(data)))
    ensures FeedAll(poly, reg, MessageBits(data + crc)) == Zeros(|poly|)
  {
    MessageBitsConcat(data, crc);
    RemainderAppended(poly, reg, MessageBits(data), MessageBits(crc));
  }

  lemma ByteBitsInjective(x: bv8, y: bv8)
    requires ByteBits(x) == ByteBits(y)
    ensures x == y
  {
    LowBits(x as bv32);
    LowBits(y as bv32);
    var a, b := ByteBits(x), ByteBits(y);
    assert a[0] == b[0] && a[1] == b[1] && a[2] == b[2] && a[3] == b[3];
    assert a[4] == b[4] && a[5] == b[5] && a[6] == b[6] && a[7] == b[7];
    assert SameLowByte(x as bv32, y as bv32);
    SameLowByteEqual(x, y);
  }

  lemma SameLowByteEqual(x: bv8, y: bv8)
    requires SameLowByte(x as bv32, y as bv32)
    ensures x == y
  {
  }

  lemma {:induction false} MessageBitsInjective(a: seq<bv8>, b: seq<bv8>)
    requires |a| == |b| && MessageBits(a) == MessageBits(b)
    ensures a == b
    decreases |a|
  {
    if a != [] {
      var n := |a| - 1;
      assert MessageBits(a)[..8 * n] == MessageBits(a[..n]) && MessageBits(b)[..8 * n] == MessageBits(b[..n]);
      assert MessageBits(a)[8 * n..] == ByteBits(a[n]) && MessageBits(b)[8 * n..] == ByteBits(b[n]);
      MessageBitsInjective(a[..n], b[..n]);
      ByteBitsInjective(a[n], b[n]);
    }
  }

  /** Whether two bit strings agree outside the window [lo, hi). */
  ghost predicate AgreeOutside(a: Bits, b: Bits, lo: nat, hi: nat)
    requires |a| == |b| && lo <= hi <= |a|
  {
    a[..lo] == b[..lo] && a[hi..] == b[hi..]
  }

  /** Two different messages of equal length whose transmitted bits agree outside a window of at most 24 bits end in
      different BLE registers. */
  lemma {:induction false} BleDetectsBursts(reg: Bits, a: seq<bv8>, b: seq<bv8>, lo: nat, hi: nat)
    requires |reg| == 24 && |a| == |b| && a != b && lo <= hi <= 8 * |a| && hi - lo <= 24
    requires AgreeOutside(MessageBits(a), MessageBits(b), lo, hi)
    ensures FeedAll(POLY_BLE, reg, MessageBits(a)) != FeedAll(POLY_BLE, reg, MessageBits(b))
  {
    WindowDetected(POLY_BLE, reg, a, b, lo, hi);
  }

  /** The same for 802.15.4 and a window of at most 16 bits. */
  lemma {:induction false} Fcs154DetectsBursts(reg: Bits, a: seq<bv8>, b: seq<bv8>, lo: nat, hi: nat)
    requires |reg| == 16 && |a| == |b| && a != b && lo <= hi <= 8 * |a| && hi - lo <= 16
    requires AgreeOutside(MessageBits(a), MessageBits(b), lo, hi)
    ensures FeedAll(POLY_154, reg, MessageBits(a)) != FeedAll(POLY_154, reg, MessageBits(b))
  {
    WindowDetected(POLY_154, reg, a, b, lo, hi);
  }

  lemma {:induction false} WindowDetected(poly: Bits, reg: Bits, a: seq<bv8>, b: seq<bv8>, lo: nat, hi: nat)
    requires |reg| == |poly| > 0 && poly[|poly| - 1]
    requires |a| == |b| && a != b && lo <= hi <= 8 * |a| && hi - lo <= |poly|
    requires AgreeOutside(MessageBits(a), MessageBits(b), lo, hi)
    ensures FeedAll(poly, reg, MessageBits(a)) != FeedAll(poly, reg, MessageBits(b))
  {
    var x, y := MessageBits(a), MessageBits(b);
    assert x == x[..lo] + x[lo..hi] + x[hi..] && y == x[..lo] + y[lo..hi] + x[hi..];
    if x[lo..hi] == y[lo..hi] {
      MessageBitsInjective(a, b);
    } else {
      BurstDetected(poly, reg, x[..lo], x[lo..hi], y[lo..hi], x[hi..]);
    }
  }
}
