/** `map_sections`: validating a decompressed columnar body. */
module KrpMap {
  import opened Bytes
  import opened KrpFormat
  import opened KrpColumns
  import opened KrpLayout
  import opened KrpSections

  /** `krp::sections`: offsets into the body, the number of mask rows and the column lengths. */
  datatype Sections = Sections(types: nat, flags: nat, data: nat, events: nat, numFrames: nat, colSizes: seq<nat>)

  const NO_SECTIONS: Sections := Sections(0, 0, 0, 0, 0, [])

  predicate Describes(s: Sections, body: seq<Byte>) {
    && PassesChecks(body)
    && s.types == HEADER_SIZE && s.flags == FlagsAt(body) && s.data == DataAt(body) && s.events == EventsAt(body)
    && s.numFrames == |MasksOf(body)|
    && |s.colSizes| == FRAME_SIZE
    && forall i: nat | i < FRAME_SIZE :: s.colSizes[i] == ColSize(MasksOf(body), i)
  }

  // ---------------------------------------------------------------- reading a mask row

  /** Bit `bit` of the loaded block is the mask bit it stands for. */
  lemma BlockBit(mask: seq<Byte>, block: nat, bit: nat)
    requires |mask| == MASK_SIZE && block < MASK_BLOCKS && bit < 64
    ensures TestBit(Load(mask[8 * block..8 * block + 8]), bit) <==> Bit(mask, 64 * block + bit)
  {
    var s := mask[8 * block..8 * block + 8];
    LoadedBit(s, bit);
    var i := 64 * block + bit;
    assert i / 8 == 8 * block + bit / 8 && i % 8 == bit % 8;
    assert s[bit / 8] == mask[i / 8];
  }

  /** The eight bytes that the readers load for row `row` of block stream `block`. */
  lemma RowBytes(body: seq<Byte>, block: nat, row: nat)
    requires Cuttable(body) && block < MASK_BLOCKS && row < |MasksOf(body)|
    ensures var at := FlagsAt(body) + block * BlockSize(body) + row * 8;
      at + 8 <= |body| && body[at..at + 8] == MasksOf(body)[row][8 * block..8 * block + 8]
  {
    var n := BlockSize(body);
    var at := FlagsAt(body) + block * n;
    var f := StreamOf(body, block);
    assert f == body[at..at + n] by { assert (block + 1) * n == block * n + n; }
    SubSlice(body, at, n, 8 * row, 8);
    BlocksOfRows(StreamOf(body, 0), StreamOf(body, 1));
    BlockAt(MasksOf(body), block, row);
  }

  lemma SubSlice<T>(s: seq<T>, at: nat, n: nat, i: nat, k: nat)
    requires at + n <= |s| && i + k <= n
    ensures s[at..at + n][i..i + k] == s[at + i..at + i + k]
  {
    var a, b := s[at..at + n][i..i + k], s[at + i..at + i + k];
    assert forall j | 0 <= j < k :: a[j] == s[at..at + n][i + j] == s[at + i + j] == b[j];
  }

  /** The first `n` bits of a mask row have been counted. */
  predicate RowCounted(before: seq<nat>, now: seq<nat>, mask: seq<Byte>, n: nat)
    requires |mask| == MASK_SIZE
  {
    && |before| == |now| == FRAME_SIZE
    && forall i: nat | i < FRAME_SIZE :: now[i] == before[i] + if i < n && Bit(mask, i) then 1 else 0
  }

  lemma CountBit(before: seq<nat>, now: seq<nat>, mask: seq<Byte>, n: nat)
    requires |mask| == MASK_SIZE && RowCounted(before, now, mask, n)
    ensures if n < FRAME_SIZE && Bit(mask, n) then RowCounted(before, now[n := now[n] + 1], mask, n + 1)
            else RowCounted(before, now, mask, n + 1)
  {
    hide Bit;
  }

  method CountBlock(colSizes: array<nat>, blockVal: nat, block: nat, ghost mask: seq<Byte>, ghost before: seq<nat>)
    requires colSizes.Length == FRAME_SIZE && |mask| == MASK_SIZE && block < MASK_BLOCKS
    requires blockVal == Load(mask[8 * block..8 * block + 8]) && RowCounted(before, colSizes[..], mask, 64 * block)
    modifies colSizes
    ensures RowCounted(before, colSizes[..], mask, 64 * block + 64)
  {
    hide RowCounted, Bit, Load;
    for bit := 0 to 64
      invariant RowCounted(before, colSizes[..], mask, 64 * block + bit)
    {
      var idx := block * 64 + bit;
      BlockBit(mask, block, bit);
      CountBit(before, colSizes[..], mask, idx);
      ghost var now := colSizes[..];
      if idx < FRAME_SIZE && TestBit(blockVal, bit) {
        colSizes[idx] := colSizes[idx] + 1;
        assert colSizes[..] == now[idx := now[idx] + 1];
      }
    }
  }

  /** Counts one mask row into the column sizes. */
  method CountRow(body: seq<Byte>, flags: nat, blockStreamSize: nat, row: nat, colSizes: array<nat>)
    requires Cuttable(body) && flags == FlagsAt(body) && blockStreamSize == BlockSize(body)
    requires row < |MasksOf(body)| && colSizes.Length == FRAME_SIZE
    modifies colSizes
    ensures forall i: nat | i < FRAME_SIZE ::
      colSizes[i] == old(colSizes[i]) + if Bit(MasksOf(body)[row], i) then 1 else 0
  {
    ghost var mask, before := MasksOf(body)[row], colSizes[..];
    assert RowCounted(before, colSizes[..], mask, 0);
    CountBlocks(body, flags, blockStreamSize, row, colSizes, mask, before);
    assert forall i: nat | i < FRAME_SIZE :: colSizes[i] == colSizes[..][i];
  }

  method CountBlocks(body: seq<Byte>, flags: nat, blockStreamSize: nat, row: nat, colSizes: array<nat>,
                     ghost mask: seq<Byte>, ghost before: seq<nat>)
    requires Cuttable(body) && flags == FlagsAt(body) && blockStreamSize == BlockSize(body)
    requires row < |MasksOf(body)| && colSizes.Length == FRAME_SIZE && mask == MasksOf(body)[row]
    requires RowCounted(before, colSizes[..], mask, 0)
    modifies colSizes
    ensures RowCounted(before, colSizes[..], mask, 128)
  {
    hide Cuttable, MasksOf, FlagsAt, BlockSize, Bit, Load, RowCounted;
    for block := 0 to MASK_BLOCKS
      invariant RowCounted(before, colSizes[..], mask, 64 * block)
    {
      RowBytes(body, block, row);
      var at := flags + block * blockStreamSize + row * 8;
      CountBlock(colSizes, Load(body[at..at + 8]), block, mask, before);
    }
  }

  // ---------------------------------------------------------------- the scan

  lemma CountStep(types: seq<Byte>, t: nat)
    requires t < |types|
    ensures NumFrames(types[..t + 1]) == NumFrames(types[..t]) + if types[t] == FRAMETYPE_EVENT then 0 else 1
    ensures NumEvents(types[..t + 1]) == NumEvents(types[..t]) + if types[t] == FRAMETYPE_EVENT then 1 else 0
  {
    assert types[..t + 1][..t] == types[..t];
  }

  lemma {:induction false} CountMono(types: seq<Byte>, t: nat)
    requires t <= |types|
    ensures NumFrames(types[..t]) <= NumFrames(types)
    decreases |types| - t
  {
    if t < |types| {
      CountStep(types, t);
      CountMono(types, t + 1);
    } else {
      assert types[..t] == types;
    }
  }

  lemma SizeStep(masks: seq<seq<Byte>>, row: nat, i: nat)
    requires MaskRows(masks) && row < |masks| && i < FRAME_SIZE
    ensures ColSize(masks[..row + 1], i) == ColSize(masks[..row], i) + if Bit(masks[row], i) then 1 else 0
  {
    assert masks[..row + 1][..row] == masks[..row];
  }

  /** What the scan has established after `t` type bytes. */
  ghost predicate Scanned(body: seq<Byte>, t: nat, rows: nat, events: nat, colSizes: seq<nat>)
    requires Cuttable(body)
  {
    var types, masks := TypesOf(body), MasksOf(body);
    && t <= |types| && KnownTypes(types[..t])
    && rows == NumFrames(types[..t]) && rows <= |masks|
    && events == NumEvents(types[..t])
    && |colSizes| == FRAME_SIZE
    && forall i: nat | i < FRAME_SIZE :: colSizes[i] == ColSize(masks[..rows], i)
  }

  lemma ScannedFrame(body: seq<Byte>, t: nat, rows: nat, events: nat, before: seq<nat>, after: seq<nat>)
    requires Cuttable(body) && Scanned(body, t, rows, events, before)
    requires t < |TypesOf(body)| && TypesOf(body)[t] in {FRAMETYPE_DELTA, FRAMETYPE_KEYFRAME}
    requires rows < |MasksOf(body)| && |after| == FRAME_SIZE
    requires forall i: nat | i < FRAME_SIZE :: after[i] == before[i] + if Bit(MasksOf(body)[rows], i) then 1 else 0
    ensures Scanned(body, t + 1, rows + 1, events, after)
  {
    CountStep(TypesOf(body), t);
    forall i: nat | i < FRAME_SIZE ensures after[i] == ColSize(MasksOf(body)[..rows + 1], i) {
      SizeStep(MasksOf(body), rows, i);
    }
  }

  lemma ScannedEvent(body: seq<Byte>, t: nat, rows: nat, events: nat, colSizes: seq<nat>)
    requires Cuttable(body) && Scanned(body, t, rows, events, colSizes)
    requires t < |TypesOf(body)| && TypesOf(body)[t] == FRAMETYPE_EVENT
    ensures Scanned(body, t + 1, rows, events + 1, colSizes)
  {
    CountStep(TypesOf(body), t);
  }

  /** A frame beyond the last mask row means the counts cannot match. */
  lemma TooManyFrames(types: seq<Byte>, t: nat, rows: nat)
    requires t < |types| && types[t] != FRAMETYPE_EVENT && NumFrames(types[..t]) >= rows
    ensures NumFrames(types) != rows
  {
    CountStep(types, t);
    CountMono(types, t + 1);
  }

  /** Counts rows and events over the type stream and sums up the columns' sizes. */
  method Scan(body: seq<Byte>, s: Sections) returns (err: Error, rows: nat, events: nat, colSizes: seq<nat>)
    requires Cuttable(body) && s.types == HEADER_SIZE && s.flags == FlagsAt(body) && s.numFrames == |MasksOf(body)|
    ensures err == Ok || err == CorruptSections
    ensures err == Ok ==> Scanned(body, Field32(body, SIZE_TYPES_AT), rows, events, colSizes)
    ensures err != Ok ==> !PassesChecks(body)
  {
    var sizes := new nat[FRAME_SIZE](_ => 0);
    rows, events, colSizes := 0, 0, [];
    var n := Field32(body, SIZE_TYPES_AT);
    var blockStreamSize := Field32(body, SIZE_FLAGS_AT) / MASK_BLOCKS;
    for t := 0 to n
      invariant Scanned(body, t, rows, events, sizes[..])
    {
      var kind := body[s.types + t];
      assert kind == TypesOf(body)[t];
      if kind == FRAMETYPE_EVENT {
        ScannedEvent(body, t, rows, events, sizes[..]);
        events := events + 1;
        continue;
      }
      if kind != FRAMETYPE_DELTA && kind != FRAMETYPE_KEYFRAME {
        return CorruptSections, rows, events, [];
      }
      if rows >= s.numFrames {
        TooManyFrames(TypesOf(body), t, rows);
        return CorruptSections, rows, events, [];
      }
      ghost var before := sizes[..];
      CountRow(body, s.flags, blockStreamSize, rows, sizes);
      ScannedFrame(body, t, rows, events, before, sizes[..]);
      rows := rows + 1;
    }
    return Ok, rows, events, sizes[..];
  }

  /** The sum of the column sizes, `total_data`. */
  method SumColumns(colSizes: seq<nat>, ghost masks: seq<seq<Byte>>) returns (total: nat)
    requires MaskRows(masks) && |colSizes| == FRAME_SIZE
    requires forall i: nat | i < FRAME_SIZE :: colSizes[i] == ColSize(masks, i)
    ensures total == ColStart(masks, FRAME_SIZE)
  {
    total := 0;
    for i := 0 to FRAME_SIZE
      invariant total == ColStart(masks, i)
    {
      total := total + colSizes[i];
    }
  }

  lemma ScannedAll(body: seq<Byte>, rows: nat, events: nat, colSizes: seq<nat>)
    requires Cuttable(body) && Scanned(body, Field32(body, SIZE_TYPES_AT), rows, events, colSizes)
    ensures KnownTypes(TypesOf(body)) && rows == NumFrames(TypesOf(body)) && events == NumEvents(TypesOf(body))
    ensures rows == |MasksOf(body)| ==> forall i: nat | i < FRAME_SIZE :: colSizes[i] == ColSize(MasksOf(body), i)
  {
    var types, masks := TypesOf(body), MasksOf(body);
    assert types[..|types|] == types && masks[..|masks|] == masks;
  }

  /** The answer to a body: that of the first check it fails, in the order of the checks. */
  ghost function MapAnswer(body: seq<Byte>): Error {
    if ValidateHeader(body) != Ok then ValidateHeader(body)
    else if Total(body) > |body| then Truncated
    else if !Cuttable(body) then CorruptSections
    else if TypesOf(body) == [] || TypesOf(body)[0] != FRAMETYPE_KEYFRAME then FirstFrameNotKeyframe
    else if exists rs :: Represents(body, rs) then Ok
    else CorruptSections
  }

  /** Validates a body. It is accepted exactly when it is, up to trailing bytes, the transpose of some
      record stream that starts with a keyframe; every other answer has its own exact condition. */
  method MapSections(body: seq<Byte>) returns (err: Error, s: Sections)
    ensures err == Ok <==> exists rs :: Represents(body, rs)
    ensures err == Ok ==> Describes(s, body)
    ensures ValidateHeader(body) != Ok ==> err == ValidateHeader(body)
    ensures ValidateHeader(body) == Ok ==> (err == Truncated <==> Total(body) > |body|)
    ensures err == FirstFrameNotKeyframe <==>
      Cuttable(body) && (TypesOf(body) == [] || TypesOf(body)[0] != FRAMETYPE_KEYFRAME)
    ensures err in {Ok, BadMagic, BadVersion, Truncated, CorruptSections, FirstFrameNotKeyframe}
    ensures ValidateHeader(body) == Ok ==> err !in {BadMagic, BadVersion}
    ensures err == MapAnswer(body)
  {
    ChecksAcceptExactlyTheImages(body);
    s := NO_SECTIONS;
    err := ValidateHeader(body);
    if err != Ok { return; }
    var sizeTypes, sizeFlags := Field32(body, SIZE_TYPES_AT), Field32(body, SIZE_FLAGS_AT);
    var sizeData, sizeEvents := Field32(body, SIZE_DATA_AT), Field32(body, SIZE_EVENTS_AT);
    if HEADER_SIZE + sizeTypes + sizeFlags + sizeData + sizeEvents > |body| { return Truncated, s; }
    if sizeFlags % (MASK_BLOCKS * 8) != 0 { return CorruptSections, s; }
    var flags := HEADER_SIZE + sizeTypes;
    var data := flags + sizeFlags;
    s := Sections(HEADER_SIZE, flags, data, data + sizeData, sizeFlags / MASK_BLOCKS / 8, []);
    if sizeTypes == 0 || body[s.types] != FRAMETYPE_KEYFRAME { return FirstFrameNotKeyframe, s; }

    var rows, events, colSizes;
    err, rows, events, colSizes := Scan(body, s);
    if err != Ok { return; }
    ScannedAll(body, rows, events, colSizes);
    if rows != s.numFrames { return CorruptSections, s; }
    if events != sizeEvents { return CorruptSections, s; }
    var totalData := SumColumns(colSizes, MasksOf(body));
    if totalData != sizeData { return CorruptSections, s; }
    s := s.(colSizes := colSizes);
  }
}
