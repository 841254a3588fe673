/** CRC-32 as the module computes it, a byte at a time from a table, against the bitwise definition of
    section 8 of RFC 1952. */
module Crc32 {
  import opened Options

  // ---------------------------------------------------------------- bit by bit

  const POLYNOMIAL: bv32 := 0xEDB8_8320

  /** One step of the reflected polynomial division. */
  function BitStep(c: bv32): bv32 {
    if c & 1 == 1 then POLYNOMIAL ^ (c >> 1) else c >> 1
  }

  function TwoSteps(c: bv32): bv32 {
    BitStep(BitStep(c))
  }

  function FourSteps(c: bv32): bv32 {
    TwoSteps(TwoSteps(c))
  }

  function EightSteps(c: bv32): bv32 {
    FourSteps(FourSteps(c))
  }

  function WithByte(crc: bv32, byte: bv8): bv32 {
    crc ^ (byte as bv32)
  }

  /** The register after a sequence of bytes, each added to its low end and divided out bit by bit. */
  function Bitwise(data: seq<bv8>, crc: bv32): bv32
    decreases |data|
  {
    if data == [] then crc else Bitwise(data[1..], EightSteps(WithByte(crc, data[0])))
  }

  // ---------------------------------------------------------------- the table

  /** The entry at the low three bits of the index. */
  function Pick(i: bv32, a: bv32, b: bv32, c: bv32, d: bv32, e: bv32, f: bv32, g: bv32, h: bv32): bv32 {
    if i & 4 == 0 then
      if i & 2 == 0 then if i & 1 == 0 then a else b else if i & 1 == 0 then c else d
    else
      if i & 2 == 0 then if i & 1 == 0 then e else f else if i & 1 == 0 then g else h
  }

  /** `kCRCTable`: its 256 entries in order, found by the high bits of the index. */
  function Table(i: bv32): bv32 {
    if i & 128 == 0 then
     if i & 64 == 0 then
      if i & 32 == 0 then
       if i & 16 == 0 then
        if i & 8 == 0 then
         Pick(i, 0x00000000, 0x77073096, 0xee0e612c, 0x990951ba, 0x076dc419, 0x706af48f, 0xe963a535, 0x9e6495a3)
        else
         Pick(i, 0x0edb8832, 0x79dcb8a4, 0xe0d5e91e, 0x97d2d988, 0x09b64c2b, 0x7eb17cbd, 0xe7b82d07, 0x90bf1d91)
       else
        if i & 8 == 0 then
         Pick(i, 0x1db71064, 0x6ab020f2, 0xf3b97148, 0x84be41de, 0x1adad47d, 0x6ddde4eb, 0xf4d4b551, 0x83d385c7)
        else
         Pick(i, 0x136c9856, 0x646ba8c0, 0xfd62f97a, 0x8a65c9ec, 0x14015c4f, 0x63066cd9, 0xfa0f3d63, 0x8d080df5)
      else
       if i & 16 == 0 then
        if i & 8 == 0 then
         Pick(i, 0x3b6e20c8, 0x4c69105e, 0xd56041e4, 0xa2677172, 0x3c03e4d1, 0x4b04d447, 0xd20d85fd, 0xa50ab56b)
        else
         Pick(i, 0x35b5a8fa, 0x42b2986c, 0xdbbbc9d6, 0xacbcf940, 0x32d86ce3, 0x45df5c75, 0xdcd60dcf, 0xabd13d59)
       else
        if i & 8 == 0 then
         Pick(i, 0x26d930ac, 0x51de003a, 0xc8d75180, 0xbfd06116, 0x21b4f4b5, 0x56b3c423, 0xcfba9599, 0xb8bda50f)
        else
         Pick(i, 0x2802b89e, 0x5f058808, 0xc60cd9b2, 0xb10be924, 0x2f6f7c87, 0x58684c11, 0xc1611dab, 0xb6662d3d)
     else
      if i & 32 == 0 then
       if i & 16 == 0 then
        if i & 8 == 0 then
         Pick(i, 0x76dc4190, 0x01db7106, 0x98d220bc, 0xefd5102a, 0x71b18589, 0x06b6b51f, 0x9fbfe4a5, 0xe8b8d433)
        else
         Pick(i, 0x7807c9a2, 0x0f00f934, 0x9609a88e, 0xe10e9818, 0x7f6a0dbb, 0x086d3d2d, 0x91646c97, 0xe6635c01)
       else
        if i & 8 == 0 then
         Pick(i, 0x6b6b51f4, 0x1c6c6162, 0x856530d8, 0xf262004e, 0x6c0695ed, 0x1b01a57b, 0x8208f4c1, 0xf50fc457)
        else
         Pick(i, 0x65b0d9c6, 0x12b7e950, 0x8bbeb8ea, 0xfcb9887c, 0x62dd1ddf, 0x15da2d49, 0x8cd37cf3, 0xfbd44c65)
      else
       if i & 16 == 0 then
        if i & 8 == 0 then
         Pick(i, 0x4db26158, 0x3ab551ce, 0xa3bc0074, 0xd4bb30e2, 0x4adfa541, 0x3dd895d7, 0xa4d1c46d, 0xd3d6f4fb)
        else
         Pick(i, 0x4369e96a, 0x346ed9fc, 0xad678846, 0xda60b8d0, 0x44042d73, 0x33031de5, 0xaa0a4c5f, 0xdd0d7cc9)
       else
        if i & 8 == 0 then
         Pick(i, 0x5005713c, 0x270241aa, 0xbe0b1010, 0xc90c2086, 0x5768b525, 0x206f85b3, 0xb966d409, 0xce61e49f)
        else
         Pick(i, 0x5edef90e, 0x29d9c998, 0xb0d09822, 0xc7d7a8b4, 0x59b33d17, 0x2eb40d81, 0xb7bd5c3b, 0xc0ba6cad)
    else
     if i & 64 == 0 then
      if i & 32 == 0 then
       if i & 16 == 0 then
        if i & 8 == 0 then
         Pick(i, 0xedb88320, 0x9abfb3b6, 0x03b6e20c, 0x74b1d29a, 0xead54739, 0x9dd277af, 0x04db2615, 0x73dc1683)
        else
         Pick(i, 0xe3630b12, 0x94643b84, 0x0d6d6a3e, 0x7a6a5aa8, 0xe40ecf0b, 0x9309ff9d, 0x0a00ae27, 0x7d079eb1)
       else
        if i & 8 == 0 then
         Pick(i, 0xf00f9344, 0x8708a3d2, 0x1e01f268, 0x6906c2fe, 0xf762575d, 0x806567cb, 0x196c3671, 0x6e6b06e7)
        else
         Pick(i, 0xfed41b76, 0x89d32be0, 0x10da7a5a, 0x67dd4acc, 0xf9b9df6f, 0x8ebeeff9, 0x17b7be43, 0x60b08ed5)
      else
       if i & 16 == 0 then
        if i & 8 == 0 then
         Pick(i, 0xd6d6a3e8, 0xa1d1937e, 0x38d8c2c4, 0x4fdff252, 0xd1bb67f1, 0xa6bc5767, 0x3fb506dd, 0x48b2364b)
        else
         Pick(i, 0xd80d2bda, 0xaf0a1b4c, 0x36034af6, 0x41047a60, 0xdf60efc3, 0xa867df55, 0x316e8eef, 0x4669be79)
       else
        if i & 8 == 0 then
         Pick(i, 0xcb61b38c, 0xbc66831a, 0x256fd2a0, 0x5268e236, 0xcc0c7795, 0xbb0b4703, 0x220216b9, 0x5505262f)
        else
         Pick(i, 0xc5ba3bbe, 0xb2bd0b28, 0x2bb45a92, 0x5cb36a04, 0xc2d7ffa7, 0xb5d0cf31, 0x2cd99e8b, 0x5bdeae1d)
     else
      if i & 32 == 0 then
       if i & 16 == 0 then
        if i & 8 == 0 then
         Pick(i, 0x9b64c2b0, 0xec63f226, 0x756aa39c, 0x026d930a, 0x9c0906a9, 0xeb0e363f, 0x72076785, 0x05005713)
        else
         Pick(i, 0x95bf4a82, 0xe2b87a14, 0x7bb12bae, 0x0cb61b38, 0x92d28e9b, 0xe5d5be0d, 0x7cdcefb7, 0x0bdbdf21)
       else
        if i & 8 == 0 then
         Pick(i, 0x86d3d2d4, 0xf1d4e242, 0x68ddb3f8, 0x1fda836e, 0x81be16cd, 0xf6b9265b, 0x6fb077e1, 0x18b74777)
        else
         Pick(i, 0x88085ae6, 0xff0f6a70, 0x66063bca, 0x11010b5c, 0x8f659eff, 0xf862ae69, 0x616bffd3, 0x166ccf45)
      else
       if i & 16 == 0 then
        if i & 8 == 0 then
         Pick(i, 0xa00ae278, 0xd70dd2ee, 0x4e048354, 0x3903b3c2, 0xa7672661, 0xd06016f7, 0x4969474d, 0x3e6e77db)
        else
         Pick(i, 0xaed16a4a, 0xd9d65adc, 0x40df0b66, 0x37d83bf0, 0xa9bcae53, 0xdebb9ec5, 0x47b2cf7f, 0x30b5ffe9)
       else
        if i & 8 == 0 then
         Pick(i, 0xbdbdf21c, 0xcabac28a, 0x53b39330, 0x24b4a3a6, 0xbad03605, 0xcdd70693, 0x54de5729, 0x23d967bf)
        else
         Pick(i, 0xb3667a2e, 0xc4614ab8, 0x5d681b02, 0x2a6f2b94, 0xb40bbe37, 0xc30c8ea1, 0x5a05df1b, 0x2d02ef8d)
  }

  /** The table holds, for every byte, what eight bitwise steps make of it. */
  lemma TableIsEightSteps(i: bv32)
    requires i <= 255
    ensures Table(i) == EightSteps(i)
  {
  }

  // ---------------------------------------------------------------- a byte at a time

  /** `crc = kCRCTable[(crc ^ byte) & 0xFF] ^ (crc >> 8)`. */
  function TableStep(crc: bv32, byte: bv8): bv32 {
    Table((crc ^ (byte as bv32)) & 0xFF) ^ (crc >> 8)
  }

  function Mix(a: bv32, b: bv32): bv32 {
    a ^ b
  }

  /** `hi` leaves two steps as `h`: it has nothing at its low end. */
  predicate Passes(hi: bv32, h: bv32) {
    hi & 3 == 0 && h == hi >> 2
  }

  lemma TwoStepsSplit(lo: bv32, hi: bv32)
    requires hi & 3 == 0
    ensures TwoSteps(lo ^ hi) == TwoSteps(lo) ^ (hi >> 2)
  {
  }

  lemma TwoStepsPass(lo: bv32, hi: bv32, h: bv32)
    requires Passes(hi, h)
    ensures TwoSteps(Mix(lo, hi)) == Mix(TwoSteps(lo), h)
  {
    hide TwoSteps;
    TwoStepsSplit(lo, hi);
  }

  lemma EightStepsPass(lo: bv32, hi: bv32, h2: bv32, h4: bv32, h6: bv32, h8: bv32)
    requires Passes(hi, h2) && Passes(h2, h4) && Passes(h4, h6) && Passes(h6, h8)
    ensures EightSteps(Mix(lo, hi)) == Mix(EightSteps(lo), h8)
  {
    hide TwoSteps, Mix, Passes;
    TwoStepsPass(lo, hi, h2);
    TwoStepsPass(TwoSteps(lo), h2, h4);
    TwoStepsPass(FourSteps(lo), h4, h6);
    TwoStepsPass(TwoSteps(FourSteps(lo)), h6, h8);
  }

  lemma HighBytesPass(hi: bv32)
    requires hi & 0xFF == 0
    ensures Passes(hi, hi >> 2) && Passes(hi >> 2, hi >> 4) && Passes(hi >> 4, hi >> 6) && Passes(hi >> 6, hi >> 8)
  {
  }

  /** Everything above the low byte goes through eight steps unchanged, a byte down. */
  lemma EightStepsSplit(lo: bv32, hi: bv32)
    requires hi & 0xFF == 0
    ensures EightSteps(Mix(lo, hi)) == Mix(EightSteps(lo), hi >> 8)
  {
    hide EightSteps, Mix, Passes;
    HighBytesPass(hi);
    EightStepsPass(lo, hi, hi >> 2, hi >> 4, hi >> 6, hi >> 8);
  }

  lemma LowAndHigh(crc: bv32, byte: bv8, low: bv32, high: bv32)
    requires low == (crc ^ (byte as bv32)) & 0xFF && high == (crc ^ (byte as bv32)) & 0xFFFF_FF00
    ensures low <= 255 && high & 0xFF == 0 && Mix(low, high) == WithByte(crc, byte) && high >> 8 == crc >> 8
  {
  }

  lemma TableStepMixes(crc: bv32, byte: bv8, low: bv32)
    requires low == (crc ^ (byte as bv32)) & 0xFF
    ensures TableStep(crc, byte) == Mix(Table(low), crc >> 8)
  {
    hide Table;
  }

  /** One table step is eight bitwise steps, for every register and byte. */
  lemma TableStepIsEightSteps(crc: bv32, byte: bv8)
    ensures TableStep(crc, byte) == EightSteps(WithByte(crc, byte))
  {
    hide Table, EightSteps, Mix, TableStep, WithByte;
    var low, high := (crc ^ (byte as bv32)) & 0xFF, (crc ^ (byte as bv32)) & 0xFFFF_FF00;
    LowAndHigh(crc, byte, low, high);
    EightStepsSplit(low, high);
    TableIsEightSteps(low);
    TableStepMixes(crc, byte, low);
  }

  // ---------------------------------------------------------------- whole inputs

  /** The checksum of RFC 1952: the register starts and ends complemented. */
  function Checksum(data: seq<bv8>): bv32 {
    0xFFFF_FFFF ^ Bitwise(data, 0xFFFF_FFFF)
  }

  lemma {:induction false} BitwiseOfBoth(a: seq<bv8>, b: seq<bv8>, crc: bv32)
    ensures Bitwise(a + b, crc) == Bitwise(b, Bitwise(a, crc))
    decreases |a|
  {
    hide EightSteps, WithByte;
    if a == [] {
      assert a + b == b;
    } else {
      assert (a + b)[1..] == a[1..] + b && (a + b)[0] == a[0];
      BitwiseOfBoth(a[1..], b, EightSteps(WithByte(crc, a[0])));
    }
  }

  lemma BitwiseOfOne(b: bv8, crc: bv32)
    ensures Bitwise([b], crc) == EightSteps(WithByte(crc, b))
  {
    hide EightSteps, WithByte;
    assert [b][1..] == [];
  }

  // ---------------------------------------------------------------- what the checksum is known by

  /** The four bytes of a register, the low one first. */
  function LittleEndian(c: bv32): (s: seq<bv8>)
    ensures |s| == 4
  {
    [LowByte(c), LowByte(c >> 8), LowByte(c >> 16), LowByte(c >> 24)]
  }

  function LowByte(c: bv32): bv8 {
    (c & 0xFF) as bv8
  }

  function OneByte(crc: bv32, b: bv8): bv32 {
    EightSteps(WithByte(crc, b))
  }

  function Index(crc: bv32, b: bv8): bv32 {
    (crc ^ (b as bv32)) & 0xFF
  }

  function Fold(t: bv32, crc: bv32): bv32 {
    t ^ (crc >> 8)
  }

  function Down(c: bv32): bv32 {
    c >> 8
  }

  function Inverse(c: bv32): bv8 {
    LowByte(!c)
  }

  /** The register is the constant `k` with `c` mixed in. */
  predicate MixedIn(crc: bv32, k: bv32, c: bv32) {
    crc == k ^ c
  }

  lemma ByteFolds(crc: bv32, b: bv8)
    ensures OneByte(crc, b) == Fold(Table(Index(crc, b)), crc)
  {
    hide Table, EightSteps, WithByte;
    TableStepIsEightSteps(crc, b);
  }

  lemma IndexCancels(crc: bv32, k: bv32, c: bv32)
    requires MixedIn(crc, k, c)
    ensures Index(crc, Inverse(c)) == Index(k, 0xFF)
  {
  }

  lemma FoldKeepsMixed(t: bv32, crc: bv32, k: bv32, c: bv32)
    requires MixedIn(crc, k, c)
    ensures MixedIn(Fold(t, crc), Fold(t, k), Down(c))
  {
  }

  /** Adding the complement of the low byte of `c` leaves a constant that `c` has no part in, and `c` a byte down. */
  lemma ResidueStep(crc: bv32, k: bv32, c: bv32) returns (next: bv32)
    requires MixedIn(crc, k, c)
    ensures next == OneByte(crc, Inverse(c)) && MixedIn(next, OneByte(k, 0xFF), Down(c))
  {
    hide Table, OneByte, Index, Fold, Inverse, MixedIn, Down;
    next := OneByte(crc, Inverse(c));
    ByteFolds(crc, Inverse(c));
    ByteFolds(k, 0xFF);
    IndexCancels(crc, k, c);
    FoldKeepsMixed(Table(Index(k, 0xFF)), crc, k, c);
  }

  lemma ComplementBytes(c: bv32)
    ensures LittleEndian(!c) == [Inverse(c), Inverse(Down(c)), Inverse(Down(Down(c))), Inverse(Down(Down(Down(c))))]
  {
  }

  lemma ResidueEnds(c: bv32, crc: bv32, k: bv32)
    ensures MixedIn(c, 0, c) && (MixedIn(crc, k, Down(Down(Down(Down(c))))) ==> crc == k)
  {
  }

  lemma FourOnes()
    ensures OneByte(0, 0xFF) == 0x2d02_ef8d && OneByte(0x2d02_ef8d, 0xFF) == 0xbe26_12ff
    ensures OneByte(0xbe26_12ff, 0xFF) == 0x00be_2612 && OneByte(0x00be_2612, 0xFF) == 0xdebb_20e3
  {
  }

  lemma Residue(c: bv32)
    ensures Bitwise(LittleEndian(!c), c) == 0xdebb_20e3
  {
    ComplementBytes(c);
    FourOnes();
    hide OneByte, Inverse, Down, MixedIn, LittleEndian, Bitwise;
    var d1 := Down(c);
    var d2 := Down(d1);
    var d3 := Down(d2);
    ResidueEnds(c, 0, 0);
    var c1 := ResidueStep(c, 0, c);
    var c2 := ResidueStep(c1, 0x2d02_ef8d, d1);
    var c3 := ResidueStep(c2, 0xbe26_12ff, d2);
    var c4 := ResidueStep(c3, 0x00be_2612, d3);
    ResidueEnds(c, c4, 0xdebb_20e3);
    FourBytes(LittleEndian(!c), c, c1, c2, c3, c4);
  }

  lemma FourBytes(s: seq<bv8>, c0: bv32, c1: bv32, c2: bv32, c3: bv32, c4: bv32)
    requires |s| == 4 && OneByte(c0, s[0]) == c1 && OneByte(c1, s[1]) == c2
    requires OneByte(c2, s[2]) == c3 && OneByte(c3, s[3]) == c4
    ensures Bitwise(s, c0) == c4
  {
    hide EightSteps, WithByte;
    assert s == [s[0]] + [s[1]] + [s[2]] + [s[3]];
    BitwiseOfOne(s[0], c0);
    BitwiseOfOne(s[1], c1);
    BitwiseOfOne(s[2], c2);
    BitwiseOfOne(s[3], c3);
    BitwiseOfBoth([s[0]], [s[1]], c0);
    BitwiseOfBoth([s[0]] + [s[1]], [s[2]], c0);
    BitwiseOfBoth([s[0]] + [s[1]] + [s[2]], [s[3]], c0);
  }

  /** Data followed by its own checksum has the same checksum whatever the data: the residue of CRC-32. */
  lemma ChecksumResidue(data: seq<bv8>)
    ensures Checksum(data + LittleEndian(Checksum(data))) == 0x2144_df1c
  {
    hide Bitwise;
    var c := Bitwise(data, 0xFFFF_FFFF);
    Complement(c);
    BitwiseOfBoth(data, LittleEndian(!c), 0xFFFF_FFFF);
    Residue(c);
  }

  const NINE_DIGITS: seq<bv8> := [0x31, 0x32, 0x33, 0x34, 0x35, 0x36, 0x37, 0x38, 0x39]

  lemma NineSteps()
    ensures TableStep(0xFFFF_FFFF, 0x31) == 0x7c23_1048 && TableStep(0x7c23_1048, 0x32) == 0xb0ac_bb32
    ensures TableStep(0xb0ac_bb32, 0x33) == 0x77b7_9c2d && TableStep(0x77b7_9c2d, 0x34) == 0x641c_1f5c
    ensures TableStep(0x641c_1f5c, 0x35) == 0x340a_c5e3 && TableStep(0x340a_c5e3, 0x36) == 0xf68d_2c9e
    ensures TableStep(0xf68d_2c9e, 0x37) == 0xaffc_9660 && TableStep(0xaffc_9660, 0x38) == 0x651f_2550
    ensures TableStep(0x651f_2550, 0x39) == 0x340b_c6d9
  {
  }

  lemma NextByte(data: seq<bv8>, b: bv8, crc: bv32, next: bv32)
    requires Bitwise(data, 0xFFFF_FFFF) == crc && TableStep(crc, b) == next
    ensures Bitwise(data + [b], 0xFFFF_FFFF) == next
  {
    hide TableStep, EightSteps, WithByte;
    BitwiseOfBoth(data, [b], 0xFFFF_FFFF);
    BitwiseOfOne(b, crc);
    TableStepIsEightSteps(crc, b);
  }

  lemma PrefixPlusOne(d: seq<bv8>, k: nat)
    requires k < |d|
    ensures d[..k] + [d[k]] == d[..k + 1]
  {
  }

  /** The register after the first `k` digits. */
  lemma NextDigit(k: nat, crc: bv32, next: bv32)
    requires k < 9 && Bitwise(NINE_DIGITS[..k], 0xFFFF_FFFF) == crc && TableStep(crc, NINE_DIGITS[k]) == next
    ensures Bitwise(NINE_DIGITS[..k + 1], 0xFFFF_FFFF) == next
  {
    hide TableStep, Bitwise;
    PrefixPlusOne(NINE_DIGITS, k);
    NextByte(NINE_DIGITS[..k], NINE_DIGITS[k], crc, next);
  }

  /** The check value of CRC-32: the checksum of "123456789". */
  lemma CheckValue()
    ensures Checksum(NINE_DIGITS) == 0xcbf4_3926 && Checksum([]) == 0
  {
    hide TableStep;
    NineSteps();
    assert Bitwise(NINE_DIGITS[..0], 0xFFFF_FFFF) == 0xFFFF_FFFF;
    hide Bitwise;
    NextDigit(0, 0xFFFF_FFFF, 0x7c23_1048);
    NextDigit(1, 0x7c23_1048, 0xb0ac_bb32);
    NextDigit(2, 0xb0ac_bb32, 0x77b7_9c2d);
    NextDigit(3, 0x77b7_9c2d, 0x641c_1f5c);
    NextDigit(4, 0x641c_1f5c, 0x340a_c5e3);
    NextDigit(5, 0x340a_c5e3, 0xf68d_2c9e);
    NextDigit(6, 0xf68d_2c9e, 0xaffc_9660);
    NextDigit(7, 0xaffc_9660, 0x651f_2550);
    NextDigit(8, 0x651f_2550, 0x340b_c6d9);
    assert NINE_DIGITS[..9] == NINE_DIGITS && NINE_DIGITS[..0] == [];
  }

  lemma BitStepTells(c: bv32, d: bv32)
    requires c != d
    ensures BitStep(c) != BitStep(d)
  {
  }

  lemma EightStepsTell(c: bv32, d: bv32)
    requires c != d
    ensures EightSteps(c) != EightSteps(d)
  {
    hide BitStep;
    TwoStepsTell(c, d);
    TwoStepsTell(TwoSteps(c), TwoSteps(d));
    TwoStepsTell(FourSteps(c), FourSteps(d));
    TwoStepsTell(TwoSteps(FourSteps(c)), TwoSteps(FourSteps(d)));
  }

  lemma TwoStepsTell(c: bv32, d: bv32)
    requires c != d
    ensures TwoSteps(c) != TwoSteps(d)
  {
    hide BitStep;
    BitStepTells(c, d);
    BitStepTells(BitStep(c), BitStep(d));
  }

  lemma {:induction false} RegistersTell(data: seq<bv8>, c: bv32, d: bv32)
    requires c != d
    ensures Bitwise(data, c) != Bitwise(data, d)
    decreases |data|
  {
    hide EightSteps;
    if data != [] {
      assert WithByte(c, data[0]) != WithByte(d, data[0]) by { WithByteTells(c, d, data[0]); }
      EightStepsTell(WithByte(c, data[0]), WithByte(d, data[0]));
      hide WithByte;
      RegistersTell(data[1..], EightSteps(WithByte(c, data[0])), EightSteps(WithByte(d, data[0])));
    }
  }

  lemma WithByteTells(c: bv32, d: bv32, b: bv8)
    requires c != d
    ensures WithByte(c, b) != WithByte(d, b)
  {
  }

  lemma BytesTell(c: bv32, x: bv8, y: bv8)
    requires x != y
    ensures WithByte(c, x) != WithByte(c, y)
  {
  }

  /** The checksum tells data apart that differs in one byte, wherever that is. */
  lemma OneByteChangesIt(front: seq<bv8>, x: bv8, y: bv8, back: seq<bv8>)
    requires x != y
    ensures Checksum(front + [x] + back) != Checksum(front + [y] + back)
  {
    hide EightSteps, WithByte;
    var c := Bitwise(front, 0xFFFF_FFFF);
    BitwiseOfBoth(front, [x], 0xFFFF_FFFF);
    BitwiseOfBoth(front + [x], back, 0xFFFF_FFFF);
    BitwiseOfBoth(front, [y], 0xFFFF_FFFF);
    BitwiseOfBoth(front + [y], back, 0xFFFF_FFFF);
    BitwiseOfOne(x, c);
    BitwiseOfOne(y, c);
    BytesTell(c, x, y);
    EightStepsTell(WithByte(c, x), WithByte(c, y));
    RegistersTell(back, EightSteps(WithByte(c, x)), EightSteps(WithByte(c, y)));
    hide Bitwise;
    ComplementTells(Bitwise(front + [x] + back, 0xFFFF_FFFF), Bitwise(front + [y] + back, 0xFFFF_FFFF));
  }

  lemma ComplementTells(c: bv32, d: bv32)
    requires c != d
    ensures 0xFFFF_FFFF ^ c != 0xFFFF_FFFF ^ d
  {
  }

  /** `UTIL_CRC32_Incremental`. */
  method Incremental(data: seq<bv8>, currentCrc: bv32) returns (crc: bv32)
    ensures crc == Bitwise(data, currentCrc)
  {
    hide TableStep, EightSteps, WithByte;
    crc := currentCrc;
    for i := 0 to |data|
      invariant crc == Bitwise(data[..i], currentCrc)
    {
      assert data[..i + 1] == data[..i] + [data[i]];
      BitwiseOfBoth(data[..i], [data[i]], currentCrc);
      BitwiseOfOne(data[i], crc);
      TableStepIsEightSteps(crc, data[i]);
      crc := TableStep(crc, data[i]);
    }
    assert data[..|data|] == data;
  }

  lemma Complement(c: bv32)
    ensures !c == 0xFFFF_FFFF ^ c
  {
  }

  /** `UTIL_CRC32`. */
  method Crc(data: seq<bv8>) returns (crc: bv32)
    ensures crc == Checksum(data)
  {
    crc := Incremental(data, 0xFFFF_FFFF);
    Complement(crc);
    crc := !crc;
  }

  /** `get_map_crc32`: the file is read in pieces of any size the library chooses up to the buffer's. */
  method MapCrc(file: Option<seq<bv8>>) returns (crc: bv32)
    ensures crc == if file.None? then 0 else Checksum(file.value)
  {
    if file.None? { return 0; }
    var bytes := file.value;
    crc := 0xFFFF_FFFF;
    var pos := 0;
    while pos < |bytes|
      invariant 0 <= pos <= |bytes|
      invariant crc == Bitwise(bytes[..pos], 0xFFFF_FFFF)
    {
      var bytesRead :| 1 <= bytesRead <= 8192 && bytesRead <= |bytes| - pos;
      var buffer := bytes[pos..pos + bytesRead];
      BitwiseOfBoth(bytes[..pos], buffer, 0xFFFF_FFFF);
      assert bytes[..pos + bytesRead] == bytes[..pos] + buffer;
      crc := Incremental(buffer, crc);
      pos := pos + bytesRead;
    }
    assert bytes[..pos] == bytes;
    Complement(crc);
    crc := !crc;
  }
}
