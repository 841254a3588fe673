/** `build_krpz_body`: parsing a raw capture record by record while transposing it into columns. */
module KrpBuild {
  import opened Bytes
  import opened KrpFormat
  import opened KrpGrammar
  import opened KrpColumns
  import opened KrpLayout

  // ---------------------------------------------------------------- one frame's cells

  /** The frame data vectors after the cells below `n` have been appended. */
  predicate CellsPushed(before: seq<seq<Byte>>, after: seq<seq<Byte>>, mask: seq<Byte>, vals: seq<Byte>, n: nat) {
    && ReadSoFar(mask, vals, n)
    && |before| == |after| == FRAME_SIZE
    && forall i: nat | i < FRAME_SIZE ::
      after[i] == if i < n && Bit(mask, i) then before[i] + [vals[i]] else before[i]
  }

  lemma SkipCell(before: seq<seq<Byte>>, after: seq<seq<Byte>>, mask: seq<Byte>, vals: seq<Byte>, n: nat)
    requires CellsPushed(before, after, mask, vals, n) && n < FRAME_SIZE && !Bit(mask, n)
    ensures CellsPushed(before, after, mask, vals, n + 1)
    ensures Cells(mask, vals, n + 1) == Cells(mask, vals, n)
  {
  }

  /** One more cell read: the value is recorded and appended to its vector. */
  lemma PushOneCell(before: seq<seq<Byte>>, after: seq<seq<Byte>>, mask: seq<Byte>, vals: seq<Byte>, n: nat, b: Byte)
    requires CellsPushed(before, after, mask, vals, n) && n < FRAME_SIZE && Bit(mask, n)
    ensures CellsPushed(before, after[n := after[n] + [b]], mask, vals[n := b], n + 1)
    ensures Cells(mask, vals[n := b], n + 1) == Cells(mask, vals, n) + [b]
  {
    CellsOfPrefix(mask, vals, vals[n := b], n);
  }

  /** The bytes from `ptr0` to `ptr` are the cells below `n`, and they have been appended. */
  predicate CellsRead(krpr: seq<Byte>, ptr0: nat, ptr: nat, before: seq<seq<Byte>>, after: seq<seq<Byte>>,
                      mask: seq<Byte>, vals: seq<Byte>, n: nat) {
    && ptr0 <= ptr <= |krpr|
    && CellsPushed(before, after, mask, vals, n)
    && krpr[ptr0..ptr] == Cells(mask, vals, n)
  }

  lemma StartCells(krpr: seq<Byte>, ptr0: nat, before: seq<seq<Byte>>, mask: seq<Byte>)
    requires |before| == FRAME_SIZE && |mask| == MASK_SIZE && ptr0 <= |krpr|
    ensures CellsRead(krpr, ptr0, ptr0, before, before, mask, Zeroes(FRAME_SIZE), 0)
  {
  }

  /** The body of the two nested loops for frame byte `byteIdx`; false when the input has run out. */
  method ReadCell(krpr: seq<Byte>, ghost ptr0: nat, ptr: nat, m: Byte, bit: nat, byteIdx: nat,
      frameData: array<seq<Byte>>,
                  ghost mask: seq<Byte>, ghost before: seq<seq<Byte>>, ghost vals: seq<Byte>)
    returns (ok: bool, ptr': nat, ghost vals': seq<Byte>)
    requires frameData.Length == FRAME_SIZE && byteIdx < FRAME_SIZE
    requires CellsRead(krpr, ptr0, ptr, before, frameData[..], mask, vals, byteIdx)
    requires bit < 8 && byteIdx / 8 < |mask| && m == mask[byteIdx / 8] && bit == byteIdx % 8
    modifies frameData
    ensures CellsRead(krpr, ptr0, ptr', before, frameData[..], mask, vals', if ok then byteIdx + 1 else byteIdx)
    ensures !ok ==> ptr' == |krpr| && |mask| == MASK_SIZE && Bit(mask, byteIdx)
  {
    hide TestBit, Cells;
    if TestBit(m, bit) {
      if ptr >= |krpr| { return false, ptr, vals; }
      PushOneCell(before, frameData[..], mask, vals, byteIdx, krpr[ptr]);
      frameData[byteIdx] := frameData[byteIdx] + [krpr[ptr]];
      return true, ptr + 1, vals[byteIdx := krpr[ptr]];
    } else {
      SkipCell(before, frameData[..], mask, vals, byteIdx);
      return true, ptr, vals;
    }
  }

  /** The two nested loops over mask bytes and bits. `vals` are the values read, 0 where none is, and
      `n` is the number of frame bytes dealt with. */
  method ReadCells(krpr: seq<Byte>, ptr0: nat, mask: seq<Byte>, frameData: array<seq<Byte>>)
    returns (ok: bool, ptr: nat, ghost vals: seq<Byte>, ghost n: nat)
    requires ptr0 <= |krpr| && |mask| == MASK_SIZE && frameData.Length == FRAME_SIZE
    modifies frameData
    ensures CellsRead(krpr, ptr0, ptr, old(frameData[..]), frameData[..], mask, vals, n)
    ensures ok ==> n == FRAME_SIZE
    ensures !ok ==> ptr == |krpr| && n < FRAME_SIZE && Bit(mask, n)
  {
    hide CellsRead, TestBit;
    ghost var before := frameData[..];
    ptr, vals, n := ptr0, Zeroes(FRAME_SIZE), 0;
    StartCells(krpr, ptr0, before, mask);
    var byteIdx, i := 0, 0;
    while i < MASK_SIZE && byteIdx < FRAME_SIZE
      invariant i <= MASK_SIZE && byteIdx == 8 * i == n <= FRAME_SIZE
      invariant CellsRead(krpr, ptr0, ptr, before, frameData[..], mask, vals, n)
    {
      for bit := 0 to 8
        invariant i < MASK_SIZE && byteIdx == 8 * i + bit == n && n < FRAME_SIZE + bit
        invariant n <= FRAME_SIZE && 8 * i < FRAME_SIZE
        invariant CellsRead(krpr, ptr0, ptr, before, frameData[..], mask, vals, n)
      {
        ok, ptr, vals := ReadCell(krpr, ptr0, ptr, mask[i], bit, byteIdx, frameData, mask, before, vals);
        if !ok { return; }
        byteIdx, n := byteIdx + 1, n + 1;
        if byteIdx >= FRAME_SIZE { break; }
      }
      i := i + 1;
    }
    ok := true;
  }

  // ---------------------------------------------------------------- the record loop

  /** The vectors hold the columns of the records `rs`. */
  predicate Holding(types: seq<Byte>, f0: seq<Byte>, f1: seq<Byte>, data: seq<seq<Byte>>, events: seq<Byte>,
      rs: seq<Record>) {
    && AllWellFormed(rs)
    && var c := Transpose(rs);
      && MaskRows(c.masks)
      && types == c.types && data == c.cols && events == c.events
      && f0 == BlockStream(c.masks, 0) && f1 == BlockStream(c.masks, 1)
  }

  lemma AppendTranspose(rs: seq<Record>, r: Record)
    requires AllWellFormed(rs) && WellFormed(r)
    ensures AllWellFormed(rs + [r])
    ensures Transpose(rs + [r]) == Push(Transpose(rs), r)
    ensures Serialise(rs + [r]) == Serialise(rs) + Encode(r)
  {
    assert (rs + [r])[..|rs|] == rs;
  }

  lemma HoldingEvent(types: seq<Byte>, f0: seq<Byte>, f1: seq<Byte>, data: seq<seq<Byte>>, events: seq<Byte>,
                     rs: seq<Record>, id: Byte)
    requires Holding(types, f0, f1, data, events, rs)
    ensures Holding(types + [FRAMETYPE_EVENT], f0, f1, data, events + [id], rs + [Event(id)])
  {
    AppendTranspose(rs, Event(id));
  }

  lemma AppendRow(masks: seq<seq<Byte>>, mask: seq<Byte>, block: nat)
    requires MaskRows(masks) && |mask| == MASK_SIZE && block < MASK_BLOCKS
    ensures MaskRows(masks + [mask])
    ensures BlockStream(masks + [mask], block) == BlockStream(masks, block) + mask[8 * block..8 * block + 8]
  {
    assert (masks + [mask])[..|masks|] == masks;
  }

  lemma HoldingFrame(types: seq<Byte>, f0: seq<Byte>, f1: seq<Byte>, before: seq<seq<Byte>>, after: seq<seq<Byte>>,
                     events: seq<Byte>, rs: seq<Record>, key: bool, mask: seq<Byte>, vals: seq<Byte>)
    requires Holding(types, f0, f1, before, events, rs)
    requires CellsPushed(before, after, mask, vals, FRAME_SIZE)
    ensures WellFormed(Frame(key, mask, vals))
    ensures Holding(types + [TypeOf(Frame(key, mask, vals))], f0 + mask[0..8], f1 + mask[8..16], after, events,
                    rs + [Frame(key, mask, vals)])
  {
    var r := Frame(key, mask, vals);
    AppendTranspose(rs, r);
    var c := Transpose(rs);
    AppendRow(c.masks, mask, 0);
    AppendRow(c.masks, mask, 1);
    assert after == PushCells(c.cols, r) by {
      forall i: nat | i < FRAME_SIZE ensures after[i] == PushCell(c.cols[i], r, i) {}
    }
  }

  // The three ways the loop stops early.

  lemma StopsInside(b: seq<Byte>, rs: seq<Record>, at: nat)
    requires AllWellFormed(rs) && at <= |b| && b[..at] == Serialise(rs) && Cut(b[at..])
    ensures EndsInside(b)
  {
    assert b == b[..at] + b[at..];
    assert Splits(b, rs, b[at..]);
  }

  lemma StopsUnknown(b: seq<Byte>, rs: seq<Record>, at: nat)
    requires AllWellFormed(rs) && at < |b| && b[..at] == Serialise(rs) && b[at] > FRAMETYPE_KEYFRAME
    ensures ReachesUnknown(b)
  {
    assert b == b[..at] + b[at..];
    assert Splits(b, rs, b[at..]) && Unknown(b[at..]);
  }

  lemma ThreeParts(b: seq<Byte>, at: nat, mid: nat, end: nat)
    requires at < mid <= end <= |b|
    ensures b[at..end] == [b[at]] + b[at + 1..mid] + b[mid..end]
  {
  }

  lemma StopsInCells(b: seq<Byte>, at: nat, key: bool, mask: seq<Byte>, vals: seq<Byte>, n: nat)
    requires at + 1 + MASK_SIZE <= |b| && mask == b[at + 1..at + 1 + MASK_SIZE]
    requires b[at] == TypeOf(Frame(key, mask, vals))
    requires ReadSoFar(mask, vals, n) && n < FRAME_SIZE && Bit(mask, n)
    requires b[at + 1 + MASK_SIZE..] == Cells(mask, vals, n)
    ensures Cut(b[at..])
  {
    CutInCells(key, mask, vals, n);
    hide Cells, Cut, ReadSoFar, Bit;
    ThreeParts(b, at, at + 1 + MASK_SIZE, |b|);
    assert b[at..|b|] == b[at..] && b[at + 1 + MASK_SIZE..|b|] == b[at + 1 + MASK_SIZE..];
  }

  lemma NextAfter(b: seq<Byte>, rs: seq<Record>, at: nat, r: Record, next: nat)
    requires AllWellFormed(rs) && WellFormed(r) && at <= next <= |b|
    requires b[..at] == Serialise(rs) && b[at..next] == Encode(r)
    ensures AllWellFormed(rs + [r]) && b[..next] == Serialise(rs + [r])
  {
    AppendTranspose(rs, r);
    Abut(b, at, next);
  }

  /** The growing vectors other than the frame data. */
  datatype Streams = Streams(types: seq<Byte>, flags0: seq<Byte>, flags1: seq<Byte>, events: seq<Byte>)

  ghost predicate Collected(v: Streams, data: seq<seq<Byte>>, rs: seq<Record>) {
    Holding(v.types, v.flags0, v.flags1, data, v.events, rs)
  }

  /** A frame record, from its type byte on. */
  method ReadFrame(b: seq<Byte>, at: nat, v: Streams, frameData: array<seq<Byte>>, ghost rs: seq<Record>)
    returns (err: Error, next: nat, v': Streams, ghost r: Record)
    requires at < |b| && (b[at] == FRAMETYPE_DELTA || b[at] == FRAMETYPE_KEYFRAME)
    requires frameData.Length == FRAME_SIZE && Collected(v, frameData[..], rs)
    modifies frameData
    ensures err == Ok || err == Truncated
    ensures err == Ok ==> at < next <= |b| && WellFormed(r) && b[at..next] == Encode(r)
    ensures err == Ok ==> Collected(v', frameData[..], rs + [r])
    ensures err == Truncated ==> Cut(b[at..])
  {
    hide Holding, Cut, Bit, ReadSoFar;
    var key := b[at] == FRAMETYPE_KEYFRAME;
    var ptr := at + 1;
    r := Event(0);
    if ptr + MASK_SIZE > |b| {
      CutInMask(key, b[at..]);
      return Truncated, at, v, r;
    }
    var mask := b[ptr..ptr + MASK_SIZE];
    ghost var before := frameData[..];
    var ok;
    ghost var vals, n;
    ok, next, vals, n := ReadCells(b, ptr + MASK_SIZE, mask, frameData);
    if !ok {
      assert b[ptr + MASK_SIZE..] == b[ptr + MASK_SIZE..next];
      StopsInCells(b, at, key, mask, vals, n);
      return Truncated, at, v, r;
    }
    r := Frame(key, mask, vals);
    HoldingFrame(v.types, v.flags0, v.flags1, before, frameData[..], v.events, rs, key, mask, vals);
    WholeFrame(b, at, next, key, mask, vals);
    return Ok, next, Streams(v.types + [b[at]], v.flags0 + mask[0..8], v.flags1 + mask[8..16], v.events), r;
  }

  lemma WholeFrame(b: seq<Byte>, at: nat, next: nat, key: bool, mask: seq<Byte>, vals: seq<Byte>)
    requires WellFormed(Frame(key, mask, vals))
    requires at + 1 + MASK_SIZE <= next <= |b| && b[at] == TypeOf(Frame(key, mask, vals))
    requires mask == b[at + 1..at + 1 + MASK_SIZE] && b[at + 1 + MASK_SIZE..next] == Cells(mask, vals, FRAME_SIZE)
    ensures b[at..next] == Encode(Frame(key, mask, vals))
  {
    hide Cells, WellFormed;
    ThreeParts(b, at, at + 1 + MASK_SIZE, next);
  }

  /** One turn of the parsing loop. */
  method ReadRecord(b: seq<Byte>, at: nat, v: Streams, frameData: array<seq<Byte>>, ghost rs: seq<Record>)
    returns (err: Error, next: nat, v': Streams, ghost r: Record)
    requires at < |b| && frameData.Length == FRAME_SIZE && Collected(v, frameData[..], rs)
    modifies frameData
    ensures err == Ok || err == Truncated || err == CorruptSections
    ensures err == Ok ==> at < next <= |b| && WellFormed(r) && b[at..next] == Encode(r)
    ensures err == Ok ==> Collected(v', frameData[..], rs + [r])
    ensures err == Truncated ==> Cut(b[at..])
    ensures err == CorruptSections ==> b[at] > FRAMETYPE_KEYFRAME
  {
    hide Cut;
    var kind := b[at];
    if kind == FRAMETYPE_DELTA || kind == FRAMETYPE_KEYFRAME {
      err, next, v', r := ReadFrame(b, at, v, frameData, rs);
    } else if kind == FRAMETYPE_EVENT {
      r := Event(0);
      if at + 1 >= |b| {
        CutInEvent();
        assert b[at..] == [FRAMETYPE_EVENT];
        return Truncated, at, v, r;
      }
      r := Event(b[at + 1]);
      HoldingEvent(v.types, v.flags0, v.flags1, frameData[..], v.events, rs, b[at + 1]);
      return Ok, at + 2, v.(types := v.types + [kind], events := v.events + [b[at + 1]]), r;
    } else {
      return CorruptSections, at, v, Event(0);
    }
  }

  /** Parses everything after the header into the vectors. */
  method ParseRecords(b: seq<Byte>, frameData: array<seq<Byte>>) returns (err: Error, v: Streams, ghost rs: seq<Record>)
    requires frameData.Length == FRAME_SIZE && frameData[..] == EmptyCols()
    modifies frameData
    ensures err == Ok || err == Truncated || err == CorruptSections
    ensures err == Ok ==> Splits(b, rs, []) && Collected(v, frameData[..], rs)
    ensures err == Truncated ==> EndsInside(b)
    ensures err == CorruptSections ==> ReachesUnknown(b)
  {
    v, rs := Streams([], [], [], []), [];
    var at := 0;
    assert Collected(v, frameData[..], rs);
    hide Cut, Collected, EndsInside, ReachesUnknown;
    while at < |b|
      invariant at <= |b| && AllWellFormed(rs) && b[..at] == Serialise(rs)
      invariant Collected(v, frameData[..], rs)
    {
      var next;
      ghost var r;
      err, next, v, r := ReadRecord(b, at, v, frameData, rs);
      if err == Truncated {
        StopsInside(b, rs, at);
        return;
      }
      if err == CorruptSections {
        StopsUnknown(b, rs, at);
        return;
      }
      NextAfter(b, rs, at, r, next);
      rs, at := rs + [r], next;
    }
    err := Ok;
    assert b == Serialise(rs) + [];
  }

  // ---------------------------------------------------------------- the body

  lemma AddWraps(a: nat, b: nat)
    ensures (a % U32 + b % U32) % U32 == (a + b) % U32
  {
  }

  /** `header.size_data`: a `uint32_t` sum over the columns, wrapping like one. */
  method SumData(frameData: array<seq<Byte>>) returns (size: nat)
    requires frameData.Length == FRAME_SIZE
    ensures size == |JoinCols(frameData[..], FRAME_SIZE)| % U32
  {
    size := 0;
    for i := 0 to FRAME_SIZE
      invariant size == |JoinCols(frameData[..], i)| % U32
    {
      AddWraps(|JoinCols(frameData[..], i)|, |frameData[i]|);
      size := (size + |frameData[i]| % U32) % U32;
    }
  }

  method JoinData(frameData: array<seq<Byte>>) returns (data: seq<Byte>)
    requires frameData.Length == FRAME_SIZE
    ensures data == JoinCols(frameData[..], FRAME_SIZE)
  {
    data := [];
    for i := 0 to FRAME_SIZE
      invariant data == JoinCols(frameData[..], i)
    {
      if frameData[i] != [] {
        data := data + frameData[i];
      }
    }
  }

  /** Only the remainder modulo 2^32 of a size reaches the header. */
  lemma SizesWrap(h: seq<Byte>, a: nat, b: nat, c: nat, d: nat)
    requires |h| >= HEADER_SIZE
    ensures SetSizes(h, a % U32, b % U32, c % U32, d % U32) == SetSizes(h, a, b, c, d)
  {
  }

  lemma CollectedBody(h: seq<Byte>, v: Streams, data: seq<seq<Byte>>, rs: seq<Record>)
    requires |h| >= HEADER_SIZE && Collected(v, data, rs)
    ensures |data| == FRAME_SIZE && |v.flags0| == |v.flags1|
    ensures Body(h, rs) == SetSizes(h, |v.types|, |v.flags0| + |v.flags1|, |JoinCols(data, FRAME_SIZE)|, |v.events|)
         + (v.types + v.flags0 + v.flags1 + JoinCols(data, FRAME_SIZE) + v.events)
  {
    TransposeConsistent(rs);
    assert |v.flags0| + |v.flags1| == MASK_SIZE * |Transpose(rs).masks|;
  }

  /** Transposes a raw capture. It succeeds exactly when the bytes after the header are whole records,
      and then yields their columnar body; otherwise the error says how the parse ended. */
  method BuildKrpzBody(krpr: seq<Byte>) returns (err: Error, out: seq<Byte>)
    requires |krpr| >= HEADER_SIZE
    ensures err == Ok <==> WholeRecords(krpr[HEADER_SIZE..])
    ensures err == Truncated <==> EndsInside(krpr[HEADER_SIZE..])
    ensures err == CorruptSections <==> ReachesUnknown(krpr[HEADER_SIZE..])
    ensures err == Ok || err == Truncated || err == CorruptSections
    ensures forall rs | Splits(krpr[HEADER_SIZE..], rs, []) :: out == Body(krpr, rs)
  {
    ghost var b := krpr[HEADER_SIZE..];
    OutcomesExclude(b);
    var frameData := new seq<Byte>[FRAME_SIZE](_ => []);
    assert frameData[..] == EmptyCols();
    var v;
    ghost var rs;
    err, v, rs := ParseRecords(krpr[HEADER_SIZE..], frameData);
    out := [];
    if err != Ok { return; }
    forall qs | Splits(b, qs, []) ensures qs == rs { RecordsAreUnique(b, rs, qs); }
    out := AssembleBody(krpr, v, frameData, rs);
  }

  method AssembleBody(krpr: seq<Byte>, v: Streams, frameData: array<seq<Byte>>,
      ghost rs: seq<Record>) returns (out: seq<Byte>)
    requires |krpr| >= HEADER_SIZE && frameData.Length == FRAME_SIZE && Collected(v, frameData[..], rs)
    ensures out == Body(krpr, rs)
  {
    CollectedBody(krpr, v, frameData[..], rs);
    hide Collected, Body;
    var sizeFlags := (|v.flags0| % U32 + |v.flags1| % U32) % U32;
    var sizeData := SumData(frameData);
    var data := JoinData(frameData);
    AddWraps(|v.flags0|, |v.flags1|);
    SizesWrap(krpr, |v.types|, |v.flags0| + |v.flags1|, |data|, |v.events|);
    out := SetSizes(krpr, |v.types| % U32, sizeFlags, sizeData, |v.events| % U32)
         + (v.types + v.flags0 + v.flags1 + data + v.events);
  }
}
