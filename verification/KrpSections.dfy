/** Cutting a body at the sizes its header claims, and why the checks of `map_sections` accept
    exactly the bodies that transposing some record stream yields. */
module KrpSections {
  import opened Bytes
  import opened KrpFormat
  import opened KrpColumns
  import opened KrpLayout

  // ---------------------------------------------------------------- the claimed sections

  /** The sections lie inside the body and the mask section is a whole number of rows. */
  predicate Cuttable(body: seq<Byte>) {
    && ValidateHeader(body) == Ok
    && Total(body) <= |body|
    && Field32(body, SIZE_FLAGS_AT) % MASK_SIZE == 0
  }

  function FlagsAt(body: seq<Byte>): (p: nat)
    requires Cuttable(body)
    ensures HEADER_SIZE <= p <= |body|
  {
    HEADER_SIZE + Field32(body, SIZE_TYPES_AT)
  }

  /** `block_stream_size`. */
  function BlockSize(body: seq<Byte>): (n: nat)
    requires Cuttable(body)
    ensures n % 8 == 0 && 2 * n == Field32(body, SIZE_FLAGS_AT)
  {
    var f := Field32(body, SIZE_FLAGS_AT);
    assert f == MASK_SIZE * (f / MASK_SIZE);
    assert f / MASK_BLOCKS == 8 * (f / MASK_SIZE);
    f / MASK_BLOCKS
  }

  function DataAt(body: seq<Byte>): (p: nat)
    requires Cuttable(body)
    ensures HEADER_SIZE <= p <= |body| && p == FlagsAt(body) + 2 * BlockSize(body)
  {
    FlagsAt(body) + Field32(body, SIZE_FLAGS_AT)
  }

  function EventsAt(body: seq<Byte>): (p: nat)
    requires Cuttable(body)
    ensures HEADER_SIZE <= p <= |body| && p + Field32(body, SIZE_EVENTS_AT) == Total(body)
  {
    DataAt(body) + Field32(body, SIZE_DATA_AT)
  }

  function TypesOf(body: seq<Byte>): (s: seq<Byte>)
    requires Cuttable(body)
    ensures |s| == Field32(body, SIZE_TYPES_AT)
  {
    body[HEADER_SIZE..FlagsAt(body)]
  }

  /** Block stream `block` of the mask section. */
  function StreamOf(body: seq<Byte>, block: nat): (s: seq<Byte>)
    requires Cuttable(body) && block < MASK_BLOCKS
    ensures |s| == BlockSize(body)
  {
    body[FlagsAt(body) + block * BlockSize(body)..FlagsAt(body) + (block + 1) * BlockSize(body)]
  }

  function MasksOf(body: seq<Byte>): (masks: seq<seq<Byte>>)
    requires Cuttable(body)
    ensures MaskRows(masks) && |masks| == BlockSize(body) / 8
  {
    Rows(StreamOf(body, 0), StreamOf(body, 1))
  }

  function DataOf(body: seq<Byte>): (s: seq<Byte>)
    requires Cuttable(body)
    ensures |s| == Field32(body, SIZE_DATA_AT)
  {
    body[DataAt(body)..EventsAt(body)]
  }

  function EventsOf(body: seq<Byte>): (s: seq<Byte>)
    requires Cuttable(body)
    ensures |s| == Field32(body, SIZE_EVENTS_AT)
  {
    body[EventsAt(body)..Total(body)]
  }

  lemma SectionsJoin(body: seq<Byte>)
    requires Cuttable(body)
    ensures TypesOf(body) + StreamOf(body, 0) + StreamOf(body, 1) + DataOf(body) + EventsOf(body)
         == body[HEADER_SIZE..Total(body)]
  {
    FiveSlices(body, HEADER_SIZE, FlagsAt(body), FlagsAt(body) + BlockSize(body), DataAt(body), EventsAt(body),
        Total(body));
  }

  lemma FiveSlices(s: seq<Byte>, a: nat, b: nat, c: nat, d: nat, e: nat, f: nat)
    requires a <= b <= c <= d <= e <= f <= |s|
    ensures s[a..b] + s[b..c] + s[c..d] + s[d..e] + s[e..f] == s[a..f]
  {
    Slices(s, a, b, c);
    Slices(s, a, c, d);
    Slices(s, a, d, e);
    Slices(s, a, e, f);
  }

  lemma Slices(s: seq<Byte>, i: nat, j: nat, k: nat)
    requires i <= j <= k <= |s|
    ensures s[i..j] + s[j..k] == s[i..k]
  {
  }

  // ---------------------------------------------------------------- the checks

  /** What `map_sections` checks, in one condition. */
  predicate PassesChecks(body: seq<Byte>) {
    && Cuttable(body)
    && TypesOf(body) != [] && TypesOf(body)[0] == FRAMETYPE_KEYFRAME
    && KnownTypes(TypesOf(body))
    && NumFrames(TypesOf(body)) == |MasksOf(body)|
    && NumEvents(TypesOf(body)) == Field32(body, SIZE_EVENTS_AT)
    && ColStart(MasksOf(body), FRAME_SIZE) == Field32(body, SIZE_DATA_AT)
  }

  function ColumnsOf(body: seq<Byte>): (c: Columns)
    requires PassesChecks(body)
    ensures Consistent(c)
  {
    Columns(TypesOf(body), MasksOf(body), CutCols(DataOf(body), MasksOf(body)), EventsOf(body))
  }

  lemma FlattenColumnsOf(body: seq<Byte>)
    requires PassesChecks(body)
    ensures Flatten(ColumnsOf(body)) == body[HEADER_SIZE..Total(body)]
    ensures |DataSection(ColumnsOf(body))| == Field32(body, SIZE_DATA_AT)
  {
    BlocksOfRows(StreamOf(body, 0), StreamOf(body, 1));
    var data := DataOf(body);
    JoinCut(data, MasksOf(body), FRAME_SIZE);
    assert data[..|data|] == data;
    SectionsJoin(body);
  }

  lemma {:induction false} FirstType(rs: seq<Record>)
    requires AllWellFormed(rs) && rs != []
    ensures |Transpose(rs).types| == |rs|
    ensures Transpose(rs).types[0] == TypeOf(rs[0])
  {
    TransposeConsistent(rs);
    var n := |rs| - 1;
    if n > 0 {
      FirstType(rs[..n]);
    }
  }

  lemma ColumnCounts(body: seq<Byte>)
    requires PassesChecks(body)
    ensures var c := ColumnsOf(body);
      && |c.types| == Field32(body, SIZE_TYPES_AT) && MASK_SIZE * |c.masks| == Field32(body, SIZE_FLAGS_AT)
      && |DataSection(c)| == Field32(body, SIZE_DATA_AT) && |c.events| == Field32(body, SIZE_EVENTS_AT)
  {
    FlattenColumnsOf(body);
  }

  lemma BodyOfColumns(h: seq<Byte>, rs: seq<Record>, c: Columns)
    requires |h| >= HEADER_SIZE && AllWellFormed(rs) && Consistent(c) && Transpose(rs) == c
    ensures Body(h, rs) == SetSizes(h, |c.types|, MASK_SIZE * |c.masks|, |DataSection(c)|, |c.events|) + Flatten(c)
  {
  }

  lemma CheckedBodyIsBody(body: seq<Byte>, rs: seq<Record>)
    requires PassesChecks(body) && AllWellFormed(rs) && Transpose(rs) == ColumnsOf(body)
    ensures Body(body, rs) == body[..Total(body)]
  {
    BodyOfColumns(body, rs, ColumnsOf(body));
    ColumnCounts(body);
    SetSizesSame(body);
    FlattenColumnsOf(body);
    Slices(body, 0, HEADER_SIZE, Total(body));
    assert body[0..HEADER_SIZE] == body[..HEADER_SIZE];
    assert body[0..Total(body)] == body[..Total(body)];
  }

  /** A body that passes the checks represents the records read back from its columns. */
  lemma CheckedBodyRepresents(body: seq<Byte>)
    requires PassesChecks(body)
    ensures Represents(body, Untranspose(ColumnsOf(body)))
  {
    var rs := Untranspose(ColumnsOf(body));
    TransposeUntranspose(ColumnsOf(body));
    TransposeConsistent(rs);
    FirstType(rs);
    CheckedBodyIsBody(body, rs);
  }

  // ---------------------------------------------------------------- the converse

  lemma SamePieces(a: seq<Byte>, b: seq<Byte>, c: seq<Byte>, d: seq<Byte>, e: seq<Byte>,
                   a': seq<Byte>, b': seq<Byte>, c': seq<Byte>, d': seq<Byte>, e': seq<Byte>)
    requires |a| == |a'| && |b| == |b'| && |c| == |c'| && |d| == |d'| && |e| == |e'|
    requires a + b + c + d + e == a' + b' + c' + d' + e'
    ensures a == a' && b == b' && c == c' && d == d' && e == e'
  {
    SameHead(a + b + c + d, e, a' + b' + c' + d', e');
    SameHead(a + b + c, d, a' + b' + c', d');
    SameHead(a + b, c, a' + b', c');
    SameHead(a, b, a', b');
  }

  lemma SumOfRemainders(a: nat, b: nat, c: nat, d: nat)
    requires a + b + c + d == a % U32 + b % U32 + c % U32 + d % U32
    ensures a == a % U32 && b == b % U32 && c == c % U32 && d == d % U32
  {
    assert a % U32 <= a && b % U32 <= b && c % U32 <= c && d % U32 <= d;
  }

  lemma FlattenLength(c: Columns)
    requires Consistent(c)
    ensures |Flatten(c)| == |c.types| + MASK_SIZE * |c.masks| + |DataSection(c)| + |c.events|
  {
  }

  /** A represented body has the sizes of the columns in its header, none of them truncated. */
  lemma RepresentedSizes(body: seq<Byte>, rs: seq<Record>)
    requires Represents(body, rs)
    ensures Consistent(Transpose(rs))
    ensures var c := Transpose(rs);
      && |c.types| == Field32(body, SIZE_TYPES_AT) && MASK_SIZE * |c.masks| == Field32(body, SIZE_FLAGS_AT)
      && |DataSection(c)| == Field32(body, SIZE_DATA_AT) && |c.events| == Field32(body, SIZE_EVENTS_AT)
      && body[HEADER_SIZE..Total(body)] == Flatten(c)
  {
    TransposeConsistent(rs);
    var c := Transpose(rs);
    var t, f, d, e := |c.types|, MASK_SIZE * |c.masks|, |DataSection(c)|, |c.events|;
    var h := SetSizes(body, t, f, d, e);
    SetSizesFields(body, t, f, d, e, Flatten(c));
    FieldsOfPrefix(body, Total(body));
    FlattenLength(c);
    SumOfRemainders(t, f, d, e);
    assert (h + Flatten(c))[HEADER_SIZE..] == Flatten(c);
    assert body[..Total(body)][HEADER_SIZE..] == body[HEADER_SIZE..Total(body)];
  }

  lemma FieldsOfPrefix(b: seq<Byte>, n: nat)
    requires HEADER_SIZE <= n <= |b|
    ensures Field32(b[..n], SIZE_TYPES_AT) == Field32(b, SIZE_TYPES_AT)
    ensures Field32(b[..n], SIZE_FLAGS_AT) == Field32(b, SIZE_FLAGS_AT)
    ensures Field32(b[..n], SIZE_DATA_AT) == Field32(b, SIZE_DATA_AT)
    ensures Field32(b[..n], SIZE_EVENTS_AT) == Field32(b, SIZE_EVENTS_AT)
  {
    FieldOfPrefix(b, n, SIZE_TYPES_AT); FieldOfPrefix(b, n, SIZE_FLAGS_AT);
    FieldOfPrefix(b, n, SIZE_DATA_AT); FieldOfPrefix(b, n, SIZE_EVENTS_AT);
  }

  lemma FieldOfPrefix(b: seq<Byte>, n: nat, at: nat)
    requires at + 4 <= n <= |b|
    ensures Field32(b[..n], at) == Field32(b, at)
  {
    assert b[..n][at..at + 4] == b[at..at + 4];
  }

  lemma WholeRows(f: nat, n: nat)
    requires f == MASK_SIZE * n
    ensures f % MASK_SIZE == 0
  {
  }

  lemma SectionsOfColumns(body: seq<Byte>, c: Columns)
    requires Cuttable(body) && Consistent(c)
    requires |c.types| == Field32(body, SIZE_TYPES_AT) && MASK_SIZE * |c.masks| == Field32(body, SIZE_FLAGS_AT)
    requires |DataSection(c)| == Field32(body, SIZE_DATA_AT) && |c.events| == Field32(body, SIZE_EVENTS_AT)
    requires body[HEADER_SIZE..Total(body)] == Flatten(c)
    ensures TypesOf(body) == c.types && StreamOf(body, 0) == BlockStream(c.masks, 0)
    ensures StreamOf(body, 1) == BlockStream(c.masks, 1) && DataOf(body) == DataSection(c) && EventsOf(body) == c.events
  {
    SectionsJoin(body);
    SamePieces(TypesOf(body), StreamOf(body, 0), StreamOf(body, 1), DataOf(body), EventsOf(body),
               c.types, BlockStream(c.masks, 0), BlockStream(c.masks, 1), DataSection(c), c.events);
  }

  /** Cutting a represented body at its sizes gives back exactly the columns of its records. */
  lemma RepresentedSections(body: seq<Byte>, rs: seq<Record>)
    requires Represents(body, rs)
    ensures Cuttable(body) && Consistent(Transpose(rs))
    ensures var c := Transpose(rs);
      && TypesOf(body) == c.types && StreamOf(body, 0) == BlockStream(c.masks, 0)
      && StreamOf(body, 1) == BlockStream(c.masks, 1) && DataOf(body) == DataSection(c) && EventsOf(body) == c.events
  {
    RepresentedSizes(body, rs);
    var c := Transpose(rs);
    WholeRows(Field32(body, SIZE_FLAGS_AT), |c.masks|);
    SectionsOfColumns(body, c);
  }

  lemma RepresentedBodyPasses(body: seq<Byte>, rs: seq<Record>)
    requires Represents(body, rs)
    ensures PassesChecks(body) && ColumnsOf(body) == Transpose(rs)
  {
    RepresentedSections(body, rs);
    var c := Transpose(rs);
    RowsOfBlocks(c.masks);
    CutJoin(c.cols, c.masks);
    TransposeConsistent(rs);
    FirstType(rs);
  }

  /** The checks accept exactly the bodies that transposing a record stream with a leading keyframe
      yields, up to trailing bytes, and then the records are determined by the body. */
  lemma ChecksAcceptExactlyTheImages(body: seq<Byte>)
    ensures PassesChecks(body) <==> exists rs :: Represents(body, rs)
    ensures forall rs, qs | Represents(body, rs) && Represents(body, qs) :: rs == qs
  {
    if PassesChecks(body) { CheckedBodyRepresents(body); }
    forall rs | Represents(body, rs) ensures PassesChecks(body) && rs == Untranspose(ColumnsOf(body)) {
      RepresentedBodyPasses(body, rs);
      UntransposeTranspose(rs);
    }
  }
}
