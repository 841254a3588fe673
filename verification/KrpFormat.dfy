/** The KRP wire format: the 256-byte header, the record stream of a raw capture (`.krpr`), and
    what a record means to somebody who replays it. */
module KrpFormat {
  import opened Bytes

  const HEADER_SIZE: nat := 256
  const FRAME_SIZE: nat := 112
  const MASK_SIZE: nat := 16

  const FRAMETYPE_EVENT: Byte := 0
  const FRAMETYPE_DELTA: Byte := 1
  const FRAMETYPE_KEYFRAME: Byte := 2

  const KRP_MAGIC: nat := 0x4B52_5021_4649_4C45
  const KRP_CURRENT_VERSION: nat := 1

  /** `krp::error`. */
  datatype Error = Ok | BadMagic | BadVersion | Truncated | CorruptSections | FirstFrameNotKeyframe | ZstdError

  // ---------------------------------------------------------------- header

  const SIZE_TYPES_AT: nat := 173
  const SIZE_FLAGS_AT: nat := 177
  const SIZE_DATA_AT: nat := 181
  const SIZE_EVENTS_AT: nat := 185
  const RESERVED_AT: nat := 189

  function ValidateHeader(buf: seq<Byte>): Error {
    if |buf| < HEADER_SIZE then Truncated
    else if Load(buf[0..8]) != KRP_MAGIC then BadMagic
    else if Load(buf[8..16]) != KRP_CURRENT_VERSION then BadVersion
    else Ok
  }

  const MAGIC_BYTES: seq<Byte> := [0x45, 0x4C, 0x49, 0x46, 0x21, 0x50, 0x52, 0x4B]
  const VERSION_BYTES: seq<Byte> := [1, 0, 0, 0, 0, 0, 0, 0]

  lemma EightBytes(s: seq<Byte>, n: nat, bytes: seq<Byte>)
    requires |s| == 8 && bytes == Store(n, 8) && n < Pow2(64)
    ensures Load(s) == n <==> s == bytes
  {
    LoadStore(n, 8);
    StoreLoad(s);
  }

  lemma MagicStored()
    ensures Store(KRP_MAGIC, 8) == MAGIC_BYTES && Store(KRP_CURRENT_VERSION, 8) == VERSION_BYTES
  {
    hide Store;
    Peel(KRP_MAGIC, 7, 0x4B52_5021_4649_4C, 0x45);
    Peel(0x4B52_5021_4649_4C, 6, 0x4B52_5021_4649, 0x4C);
    Peel(0x4B52_5021_4649, 5, 0x4B52_5021_46, 0x49);
    Peel(0x4B52_5021_46, 4, 0x4B52_5021, 0x46);
    Peel(0x4B52_5021, 3, 0x4B52_50, 0x21);
    Peel(0x4B52_50, 2, 0x4B52, 0x50);
    Peel(0x4B52, 1, 0x4B, 0x52);
    Peel(0x4B, 0, 0, 0x4B);
    NoBytes(0);
    Peel(1, 7, 0, 1);
    ZeroBytes(7);
  }

  lemma NoBytes(n: nat)
    ensures Store(n, 0) == []
  {
  }

  lemma Peel(n: nat, k: nat, high: nat, low: Byte)
    requires n == 0x100 * high + low
    ensures Store(n, k + 1) == [low] + Store(high, k)
  {
  }

  lemma {:induction false} ZeroBytes(k: nat)
    ensures Store(0, k) == Zeroes(k)
  {
    if k > 0 { ZeroBytes(k - 1); }
  }

  /** The answers to a header, byte by byte: 256 bytes of it, `ELIF!PRK` in front (the magic in little-endian
      order), and version 1 after that, each missed in this order. */
  lemma HeaderAnswers(buf: seq<Byte>)
    ensures ValidateHeader(buf) == Truncated <==> |buf| < 256
    ensures ValidateHeader(buf) == BadMagic <==> |buf| >= 256 && buf[..8] != MAGIC_BYTES
    ensures ValidateHeader(buf) == BadVersion <==>
      |buf| >= 256 && buf[..8] == MAGIC_BYTES && buf[8..16] != VERSION_BYTES
    ensures ValidateHeader(buf) == Ok <==> |buf| >= 256 && buf[..8] == MAGIC_BYTES && buf[8..16] == VERSION_BYTES
  {
    MagicStored();
    SmallEnough();
    if |buf| >= 256 {
      assert buf[0..8] == buf[..8];
      EightBytes(buf[0..8], KRP_MAGIC, MAGIC_BYTES);
      EightBytes(buf[8..16], KRP_CURRENT_VERSION, VERSION_BYTES);
    }
    hide Load;
  }

  lemma SmallEnough()
    ensures KRP_MAGIC < Pow2(64) && KRP_CURRENT_VERSION < Pow2(64)
  {
    Pow2Plus8(56); Pow2Plus8(48); Pow2Plus8(40); Pow2Plus8(32); Pow2Of32();
  }

  function Field32(buf: seq<Byte>, at: nat): (n: nat)
    requires at + 4 <= |buf|
    ensures n < U32
  {
    Get32(buf[at..at + 4])
  }

  /** The first 256 bytes of `h` with the four section sizes replaced, each cast to `uint32_t`. */
  function SetSizes(h: seq<Byte>, types: nat, flags: nat, data: nat, events: nat): (r: seq<Byte>)
    requires |h| >= HEADER_SIZE
    ensures |r| == HEADER_SIZE
  {
    h[..SIZE_TYPES_AT] + Put32(types) + Put32(flags) + Put32(data) + Put32(events) + h[RESERVED_AT..HEADER_SIZE]
  }

  /** A raw capture carries zero section sizes. */
  function ZeroSizes(h: seq<Byte>): (r: seq<Byte>)
    requires |h| >= HEADER_SIZE
    ensures |r| == HEADER_SIZE
  {
    SetSizes(h, 0, 0, 0, 0)
  }

  lemma SetSizesFields(h: seq<Byte>, types: nat, flags: nat, data: nat, events: nat, rest: seq<Byte>)
    requires |h| >= HEADER_SIZE
    ensures var b := SetSizes(h, types, flags, data, events) + rest;
      && Field32(b, SIZE_TYPES_AT) == types % U32 && Field32(b, SIZE_FLAGS_AT) == flags % U32
      && Field32(b, SIZE_DATA_AT) == data % U32 && Field32(b, SIZE_EVENTS_AT) == events % U32
  {
    var b := SetSizes(h, types, flags, data, events) + rest;
    assert b[SIZE_TYPES_AT..SIZE_TYPES_AT + 4] == Put32(types);
    assert b[SIZE_FLAGS_AT..SIZE_FLAGS_AT + 4] == Put32(flags);
    assert b[SIZE_DATA_AT..SIZE_DATA_AT + 4] == Put32(data);
    assert b[SIZE_EVENTS_AT..SIZE_EVENTS_AT + 4] == Put32(events);
    Get32Put32(types); Get32Put32(flags); Get32Put32(data); Get32Put32(events);
  }

  /** Rewriting the sizes never changes whether a header is accepted. */
  lemma SetSizesValid(h: seq<Byte>, types: nat, flags: nat, data: nat, events: nat, rest: seq<Byte>)
    requires |h| >= HEADER_SIZE
    ensures ValidateHeader(SetSizes(h, types, flags, data, events) + rest) == ValidateHeader(h)
  {
    var b := SetSizes(h, types, flags, data, events) + rest;
    assert b[0..8] == h[0..8];
    assert b[8..16] == h[8..16];
  }

  lemma SetSizesTwice(h: seq<Byte>, rest: seq<Byte>, a: nat, b: nat, c: nat, d: nat, t: nat, f: nat, s: nat, e: nat)
    requires |h| >= HEADER_SIZE
    ensures SetSizes(SetSizes(h, a, b, c, d) + rest, t, f, s, e) == SetSizes(h, t, f, s, e)
  {
    var m := SetSizes(h, a, b, c, d) + rest;
    assert m[..SIZE_TYPES_AT] == h[..SIZE_TYPES_AT];
    assert m[RESERVED_AT..HEADER_SIZE] == h[RESERVED_AT..HEADER_SIZE];
  }

  lemma PutField(b: seq<Byte>, at: nat)
    requires at + 4 <= |b|
    ensures Put32(Field32(b, at)) == b[at..at + 4]
  {
    StoreLoad(b[at..at + 4]);
  }

  /** Writing back the sizes a header already has leaves its 256 bytes as they are. */
  lemma SetSizesSame(b: seq<Byte>)
    requires |b| >= HEADER_SIZE
    ensures SetSizes(b, Field32(b, SIZE_TYPES_AT), Field32(b, SIZE_FLAGS_AT),
                     Field32(b, SIZE_DATA_AT), Field32(b, SIZE_EVENTS_AT)) == b[..HEADER_SIZE]
  {
    PutField(b, SIZE_TYPES_AT); PutField(b, SIZE_FLAGS_AT); PutField(b, SIZE_DATA_AT); PutField(b, SIZE_EVENTS_AT);
    JoinAt(b, SIZE_TYPES_AT, SIZE_FLAGS_AT); JoinAt(b, SIZE_FLAGS_AT, SIZE_DATA_AT);
    JoinAt(b, SIZE_DATA_AT, SIZE_EVENTS_AT);
    JoinAt(b, SIZE_EVENTS_AT, RESERVED_AT);
    JoinAt(b, RESERVED_AT, HEADER_SIZE);
  }

  lemma JoinAt(b: seq<Byte>, i: nat, j: nat)
    requires i <= j <= |b|
    ensures b[..i] + b[i..j] == b[..j]
  {
  }

  // ---------------------------------------------------------------- records

  /** One record of the stream. `vals[i]` is the byte carried for frame byte `i`; it is on the wire
      only where mask bit `i` is set, and is 0 here elsewhere. Mask bits 112..127 carry nothing. */
  datatype Record =
    | Event(id: Byte)
    | Frame(key: bool, mask: seq<Byte>, vals: seq<Byte>)

  /** Mask bit `i`, as the row-major code tests it. */
  predicate Bit(mask: seq<Byte>, i: nat)
    requires |mask| == MASK_SIZE && i < 8 * MASK_SIZE
  {
    TestBit(mask[i / 8], i % 8)
  }

  predicate WellFormed(r: Record) {
    r.Frame? ==>
      && |r.mask| == MASK_SIZE && |r.vals| == FRAME_SIZE
      && forall i: nat | i < FRAME_SIZE && !Bit(r.mask, i) :: r.vals[i] == 0
  }

  predicate AllWellFormed(rs: seq<Record>) {
    forall k | 0 <= k < |rs| :: WellFormed(rs[k])
  }

  function TypeOf(r: Record): Byte {
    if r.Event? then FRAMETYPE_EVENT else if r.key then FRAMETYPE_KEYFRAME else FRAMETYPE_DELTA
  }

  /** The carried bytes of frame bytes `0..n`, in order. */
  function Cells(mask: seq<Byte>, vals: seq<Byte>, n: nat): seq<Byte>
    requires |mask| == MASK_SIZE && |vals| == FRAME_SIZE && n <= FRAME_SIZE
  {
    if n == 0 then [] else
      Cells(mask, vals, n - 1) + if Bit(mask, n - 1) then [vals[n - 1]] else []
  }

  function Encode(r: Record): (s: seq<Byte>)
    requires WellFormed(r)
    ensures |s| > 0 && s[0] == TypeOf(r)
  {
    match r
    case Event(id) => [FRAMETYPE_EVENT, id]
    case Frame(_, mask, vals) => [TypeOf(r)] + mask + Cells(mask, vals, FRAME_SIZE)
  }

  function Serialise(rs: seq<Record>): seq<Byte>
    requires AllWellFormed(rs)
  {
    if rs == [] then [] else Serialise(rs[..|rs| - 1]) + Encode(rs[|rs| - 1])
  }

  // ---------------------------------------------------------------- meaning

  /** What a reader of a replay is told: `on_frame(idx, type, frame)` and `on_event(idx, id)`. */
  datatype Callback =
    | OnFrame(idx: nat, kind: Byte, frame: seq<Byte>)
    | OnEvent(idx: nat, id: Byte)

  function ZeroFrame(): (f: seq<Byte>)
    ensures |f| == FRAME_SIZE
  {
    seq(FRAME_SIZE, _ => 0)
  }

  /** Row-by-row decoding of one frame record: copy on a keyframe, XOR on a delta. */
  function Apply(prev: seq<Byte>, r: Record): (f: seq<Byte>)
    requires |prev| == FRAME_SIZE && r.Frame? && WellFormed(r)
    ensures |f| == FRAME_SIZE
  {
    seq(FRAME_SIZE, i requires 0 <= i < FRAME_SIZE => ApplyByte(prev[i], r, i))
  }

  function ApplyByte(p: Byte, r: Record, i: nat): Byte
    requires r.Frame? && WellFormed(r) && i < FRAME_SIZE
  {
    if !Bit(r.mask, i) then p else if r.key then r.vals[i] else Xor(p, r.vals[i])
  }

  /** The frame a row-by-row decoder holds after the records `rs`. */
  function FrameAfter(rs: seq<Record>): (f: seq<Byte>)
    requires AllWellFormed(rs)
    ensures |f| == FRAME_SIZE
  {
    if rs == [] then ZeroFrame() else
      var prev := FrameAfter(rs[..|rs| - 1]);
      var r := rs[|rs| - 1];
      if r.Event? then prev else Apply(prev, r)
  }

  /** Record by record: what is reported of record `k` has its index and its kind, and a frame is the one held then. */
  lemma {:induction false} ReplayTells(rs: seq<Record>, k: nat)
    requires AllWellFormed(rs) && k < |rs|
    ensures Replay(rs)[k] ==
      if rs[k].Event? then OnEvent(k, rs[k].id) else OnFrame(k, TypeOf(rs[k]), FrameAfter(rs[..k + 1]))
  {
    hide FrameAfter, TypeOf, WellFormed;
    var n := |rs| - 1;
    if k < n {
      ReplayTells(rs[..n], k);
      assert rs[..n][..k + 1] == rs[..k + 1] && rs[..n][k] == rs[k];
    } else {
      assert rs[..k + 1] == rs;
    }
  }

  /** Everything a row-by-row decoder reports for the records `rs`. */
  function Replay(rs: seq<Record>): (log: seq<Callback>)
    requires AllWellFormed(rs)
    ensures |log| == |rs|
  {
    if rs == [] then [] else
      var n := |rs| - 1;
      var r := rs[n];
      Replay(rs[..n]) + [if r.Event? then OnEvent(n, r.id) else OnFrame(n, TypeOf(r), FrameAfter(rs))]
  }
}
