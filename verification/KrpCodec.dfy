/** `krp::compress` and `krp::decompress` around an abstract zstd, and what the two conversions do to
    each other's results. */
module KrpCodec {
  import opened Options
  import opened Bytes
  import opened KrpFormat
  import opened KrpGrammar
  import opened KrpColumns
  import opened KrpLayout
  import opened KrpSections
  import opened KrpMap
  import opened KrpReaders
  import opened KrpReplay
  import opened KrpBuild

  const KRP_MAX_DECOMPRESSED_BYTES: nat := 104857600

  // ---------------------------------------------------------------- sizes

  lemma {:induction false} JoinPushed(cols: seq<seq<Byte>>, r: Record, n: nat)
    requires |cols| == FRAME_SIZE && r.Frame? && WellFormed(r) && n <= FRAME_SIZE
    ensures |JoinCols(PushCells(cols, r), n)| == |JoinCols(cols, n)| + |Cells(r.mask, r.vals, n)|
  {
    if n > 0 {
      JoinPushed(cols, r, n - 1);
      assert PushCells(cols, r)[n - 1] == PushCell(cols[n - 1], r, n - 1);
    }
  }

  lemma FlattenPushed(c: Columns, r: Record)
    requires Consistent(c) && WellFormed(r)
    ensures Consistent(Push(c, r)) && |Flatten(Push(c, r))| == |Flatten(c)| + |Encode(r)|
  {
    PushConsistent(c, r);
    FlattenLength(c);
    FlattenLength(Push(c, r));
    if r.Frame? { JoinPushed(c.cols, r, FRAME_SIZE); }
  }

  /** Transposing neither adds nor drops a byte. */
  lemma {:induction false} TransposeKeepsLength(rs: seq<Record>)
    requires AllWellFormed(rs)
    ensures Consistent(Transpose(rs)) && |Flatten(Transpose(rs))| == |Serialise(rs)|
  {
    TransposeConsistent(rs);
    if rs == [] {
      FlattenLength(NO_COLUMNS);
      EmptyJoin(FRAME_SIZE);
    } else {
      TransposeKeepsLength(rs[..|rs| - 1]);
      FlattenPushed(Transpose(rs[..|rs| - 1]), rs[|rs| - 1]);
    }
  }

  lemma {:induction false} EmptyJoin(n: nat)
    requires n <= FRAME_SIZE
    ensures JoinCols(EmptyCols(), n) == []
  {
    if n > 0 { EmptyJoin(n - 1); }
  }

  // ---------------------------------------------------------------- what map_sections says of a built body

  /** No section size is cut off by its cast to `uint32_t`. */
  predicate SizesFit(rs: seq<Record>)
    requires AllWellFormed(rs)
  {
    |Serialise(rs)| < U32
  }

  lemma FittingSizes(rs: seq<Record>)
    requires AllWellFormed(rs) && SizesFit(rs)
    ensures Consistent(Transpose(rs))
    ensures var c := Transpose(rs);
      && |c.types| % U32 == |c.types| && (MASK_SIZE * |c.masks|) % U32 == MASK_SIZE * |c.masks|
      && |DataSection(c)| % U32 == |DataSection(c)| && |c.events| % U32 == |c.events|
  {
    TransposeKeepsLength(rs);
    var c := Transpose(rs);
    FlattenLength(c);
    NoWrap(|c.types|); NoWrap(MASK_SIZE * |c.masks|); NoWrap(|DataSection(c)|); NoWrap(|c.events|);
  }

  lemma NoWrap(n: nat)
    requires n < U32
    ensures n % U32 == n
  {
  }

  lemma BuiltFields(h: seq<Byte>, rs: seq<Record>)
    requires ValidateHeader(h) == Ok && AllWellFormed(rs) && SizesFit(rs)
    ensures |Body(h, rs)| == HEADER_SIZE + |Serialise(rs)|
    ensures ValidateHeader(Body(h, rs)) == Ok && Total(Body(h, rs)) == |Body(h, rs)|
    ensures Body(Body(h, rs), rs) == Body(h, rs)
  {
    FittingSizes(rs);
    TransposeKeepsLength(rs);
    var c := Transpose(rs);
    var t, f, d, e := |c.types|, MASK_SIZE * |c.masks|, |DataSection(c)|, |c.events|;
    SetSizesFields(h, t, f, d, e, Flatten(c));
    SetSizesValid(h, t, f, d, e, Flatten(c));
    SetSizesTwice(h, Flatten(c), t, f, d, e, t, f, d, e);
    FlattenLength(c);
  }

  /** A built body represents its records as soon as they start with a keyframe. */
  lemma BuiltBodyRepresents(h: seq<Byte>, rs: seq<Record>)
    requires ValidateHeader(h) == Ok && AllWellFormed(rs) && SizesFit(rs) && LeadingKeyframe(rs)
    ensures Represents(Body(h, rs), rs)
  {
    BuiltFields(h, rs);
    var b := Body(h, rs);
    assert b[..|b|] == b;
  }

  lemma BuiltCounts(h: seq<Byte>, rs: seq<Record>)
    requires ValidateHeader(h) == Ok && AllWellFormed(rs) && SizesFit(rs)
    ensures Consistent(Transpose(rs)) && |Body(h, rs)| >= HEADER_SIZE
    ensures var b, c := Body(h, rs), Transpose(rs);
      && |c.types| == Field32(b, SIZE_TYPES_AT) && MASK_SIZE * |c.masks| == Field32(b, SIZE_FLAGS_AT)
      && |DataSection(c)| == Field32(b, SIZE_DATA_AT) && |c.events| == Field32(b, SIZE_EVENTS_AT)
      && b[HEADER_SIZE..] == Flatten(c)
  {
    FittingSizes(rs);
    var c := Transpose(rs);
    SetSizesFields(h, |c.types|, MASK_SIZE * |c.masks|, |DataSection(c)|, |c.events|, Flatten(c));
  }

  lemma BuiltBodyCuttable(h: seq<Byte>, rs: seq<Record>)
    requires ValidateHeader(h) == Ok && AllWellFormed(rs) && SizesFit(rs)
    ensures Cuttable(Body(h, rs))
  {
    assert |h| >= HEADER_SIZE;
    hide Body, ValidateHeader, Consistent, SizesFit, AllWellFormed, Flatten, DataSection, Total, Transpose;
    BuiltCounts(h, rs);
    BuiltFields(h, rs);
    WholeRows(Field32(Body(h, rs), SIZE_FLAGS_AT), |Transpose(rs).masks|);
  }

  lemma ToTheEnd(s: seq<Byte>, i: nat, j: nat)
    requires i <= j == |s|
    ensures s[i..j] == s[i..]
  {
  }

  lemma BuiltBodyCut(h: seq<Byte>, rs: seq<Record>)
    requires ValidateHeader(h) == Ok && AllWellFormed(rs) && SizesFit(rs)
    ensures Cuttable(Body(h, rs)) && TypesOf(Body(h, rs)) == Transpose(rs).types
  {
    assert |h| >= HEADER_SIZE;
    hide Body, ValidateHeader, Consistent, SizesFit, AllWellFormed, Flatten, DataSection, TypesOf, Cuttable, Total,
        Transpose,
         Field32, StreamOf, DataOf, EventsOf, BlockStream, Serialise;
    BuiltBodyCuttable(h, rs);
    BuiltCounts(h, rs);
    BuiltFields(h, rs);
    ToTheEnd(Body(h, rs), HEADER_SIZE, Total(Body(h, rs)));
    SectionsOfColumns(Body(h, rs), Transpose(rs));
  }

  lemma FirstIsKeyframe(rs: seq<Record>)
    requires AllWellFormed(rs)
    ensures LeadingKeyframe(rs) <==> Transpose(rs).types != [] && Transpose(rs).types[0] == FRAMETYPE_KEYFRAME
  {
    if rs != [] { FirstType(rs); }
  }

  /** On a body that `build_krpz_body` built, the sections come out as they went in, so `map_sections`
      can only answer ok or first_frame_not_keyframe, the latter exactly without a leading keyframe. */
  lemma BuiltBodySections(h: seq<Byte>, rs: seq<Record>)
    requires ValidateHeader(h) == Ok && AllWellFormed(rs) && SizesFit(rs)
    ensures Cuttable(Body(h, rs)) && TypesOf(Body(h, rs)) == Transpose(rs).types
    ensures PassesChecks(Body(h, rs)) <==> LeadingKeyframe(rs)
    ensures PassesChecks(Body(h, rs)) <==> TypesOf(Body(h, rs)) != [] && TypesOf(Body(h, rs))[0] == FRAMETYPE_KEYFRAME
  {
    BuiltBodyCut(h, rs);
    FirstIsKeyframe(rs);
    if LeadingKeyframe(rs) {
      BuiltBodyRepresents(h, rs);
      RepresentedBodyPasses(Body(h, rs), rs);
    }
  }

  // ---------------------------------------------------------------- round trips

  lemma RawRecords(h: seq<Byte>, rs: seq<Record>)
    requires |h| >= HEADER_SIZE && AllWellFormed(rs)
    ensures Splits(Raw(h, rs)[HEADER_SIZE..], rs, [])
    ensures Raw(h, rs)[..HEADER_SIZE] == h[..HEADER_SIZE]
  {
    assert Raw(h, rs)[HEADER_SIZE..] == Serialise(rs) + [];
  }

  /** Columns back to rows: rebuilding a capture from the body built of it gives the capture again,
      with the four size fields zeroed. */
  lemma RebuiltCapture(krpr: seq<Byte>, rs: seq<Record>)
    requires |krpr| >= HEADER_SIZE && Splits(krpr[HEADER_SIZE..], rs, [])
    ensures Raw(ZeroSizes(Body(krpr, rs)), rs) == ZeroSizes(krpr) + krpr[HEADER_SIZE..]
  {
    TransposeConsistent(rs);
    var c := Transpose(rs);
    SetSizesTwice(krpr, Flatten(c), |c.types|, MASK_SIZE * |c.masks|, |DataSection(c)|, |c.events|, 0, 0, 0, 0);
    var z := ZeroSizes(krpr);
    assert z[..HEADER_SIZE] == z && Serialise(rs) + [] == Serialise(rs);
  }

  /** Rows back to columns: for every accepted body, transposing the capture rebuilt from it succeeds
      and gives the body again, without its trailing bytes. */
  lemma RebuiltBody(body: seq<Byte>, rs: seq<Record>)
    requires Represents(body, rs)
    ensures var raw := Raw(ZeroSizes(body), rs);
      && ValidateHeader(raw) == Ok && Splits(raw[HEADER_SIZE..], rs, [])
      && Body(raw, rs) == body[..Total(body)]
  {
    var z := ZeroSizes(body);
    RawRecords(z, rs);
    assert z[..HEADER_SIZE] == z;
    SetSizesValid(body, 0, 0, 0, 0, Serialise(rs));
    TransposeConsistent(rs);
    var c := Transpose(rs);
    SetSizesTwice(body, Serialise(rs), 0, 0, 0, 0, |c.types|, MASK_SIZE * |c.masks|, |DataSection(c)|, |c.events|);
  }

  // ---------------------------------------------------------------- row decoding of raw bytes

  /** What a plain decoder reports for a raw record stream: the records are unique, so it is too. */
  ghost function RowDecode(b: seq<Byte>): seq<Callback>
    requires WholeRecords(b)
  {
    var rs :| Splits(b, rs, []);
    Replay(rs)
  }

  /** The column-cursor replay of an accepted body is the row-by-row decoding of the capture that
      `build_krpr` rebuilds from it, also for keyframes whose mask is not all ones. */
  lemma ColumnReplayIsRowReplay(body: seq<Byte>, rs: seq<Record>)
    requires Represents(body, rs)
    ensures WholeRecords(Raw(ZeroSizes(body), rs)[HEADER_SIZE..])
    ensures RowDecode(Raw(ZeroSizes(body), rs)[HEADER_SIZE..]) == Replay(rs)
  {
    RebuiltBody(body, rs);
    var b := Raw(ZeroSizes(body), rs)[HEADER_SIZE..];
    forall qs | Splits(b, qs, []) ensures qs == rs { RecordsAreUnique(b, rs, qs); }
  }

  // ---------------------------------------------------------------- zstd

  /** zstd as three functions: compression at a level, the content size a frame declares, and
      decompression; `None` is one of its error codes. */
  datatype Zstd = Zstd(
    compress: (seq<Byte>, int) -> Option<seq<Byte>>,
    contentSize: seq<Byte> -> Option<nat>,
    decompress: seq<Byte> -> Option<seq<Byte>>)

  /** What is taken of zstd: whatever it compresses it gives back, and the frame is non-empty and
      declares the size. */
  ghost predicate Lossless(z: Zstd) {
    forall x, level :: z.compress(x, level).Some? ==>
      var y := z.compress(x, level).value;
      y != [] && z.contentSize(y) == Some(|x|) && z.decompress(y) == Some(x)
  }

  /** Such a zstd can exist: frames that store their content behind one byte. */
  lemma LosslessIsPossible() returns (z: Zstd)
    ensures Lossless(z)
    ensures forall x, level :: z.compress(x, level).Some?
  {
    z := Zstd((x: seq<Byte>, level: int) => Some([0] + x),
              (y: seq<Byte>) => if y == [] then None else Some(|y| - 1),
              (y: seq<Byte>) => if y == [] then None else Some(y[1..]));
    assert forall x: seq<Byte> :: ([0] + x)[1..] == x;
  }

  function ZstdDecompress(z: Zstd, src: seq<Byte>): (r: (Error, seq<Byte>))
    ensures r.0 == Ok ==> z.decompress(src) == Some(r.1)
  {
    if src == [] then (Truncated, [])
    else if z.contentSize(src) == None then (ZstdError, [])
    else
      var n := z.contentSize(src).value;
      if n == 0 || n > KRP_MAX_DECOMPRESSED_BYTES then (ZstdError, [])
      else if z.decompress(src) == None then (ZstdError, [])
      else (Ok, z.decompress(src).value)
  }

  /** Nothing is decompressed whose size is not declared, or declared as nothing or as more than 100 MiB. */
  lemma NeverAboveTheCap(z: Zstd, src: seq<Byte>)
    ensures ZstdDecompress(z, src).0 in {Ok, Truncated, ZstdError}
    ensures ZstdDecompress(z, src).0 == Truncated <==> src == []
    ensures ZstdDecompress(z, src).0 == Ok <==>
      && src != [] && z.contentSize(src).Some? && 0 < z.contentSize(src).value <= 100 * 1024 * 1024
      && z.decompress(src).Some?
  {
  }

  /** What `compress` may answer. */
  ghost predicate Compresses(z: Zstd, krpr: seq<Byte>, level: int, err: Error, out: seq<Byte>) {
    if ValidateHeader(krpr) != Ok then err == ValidateHeader(krpr)
    else
      var b := krpr[HEADER_SIZE..];
      && (err == Truncated <==> EndsInside(b))
      && (err == CorruptSections <==> ReachesUnknown(b))
      && (err == Ok || err == ZstdError <==> WholeRecords(b))
      && forall rs | Splits(b, rs, []) ::
        z.compress(Body(krpr, rs), level) == if err == Ok then Some(out) else None
  }

  /** What `decompress` may answer. */
  ghost predicate Decompresses(z: Zstd, krpz: seq<Byte>, err: Error, out: seq<Byte>) {
    var (zerr, body) := ZstdDecompress(z, krpz);
    if zerr != Ok then err == zerr
    else
      && err == MapAnswer(body)
      && forall rs | Represents(body, rs) :: out == Raw(ZeroSizes(body), rs)
  }

  method Compress(z: Zstd, krpr: seq<Byte>, level: int) returns (err: Error, out: seq<Byte>)
    ensures Compresses(z, krpr, level, err, out)
  {
    out := [];
    err := ValidateHeader(krpr);
    if err != Ok { return; }
    var columnar;
    err, columnar := BuildKrpzBody(krpr);
    OutcomesExclude(krpr[HEADER_SIZE..]);
    if err != Ok { return; }
    match z.compress(columnar, level)
    case None => err := ZstdError;
    case Some(y) => out := y;
  }

  method Decompress(z: Zstd, krpz: seq<Byte>) returns (err: Error, out: seq<Byte>)
    ensures Decompresses(z, krpz, err, out)
  {
    out := [];
    var unzipped := ZstdDecompress(z, krpz);
    err := unzipped.0;
    if err != Ok { return; }
    var s;
    err, s := MapSections(unzipped.1);
    if err != Ok { return; }
    out := BuildKrpr(unzipped.1, s);
  }

  /** What playback may answer, and the calls it makes. */
  ghost predicate Plays(z: Zstd, krpz: seq<Byte>, err: Error, log: seq<Callback>) {
    var (zerr, body) := ZstdDecompress(z, krpz);
    if zerr != Ok then err == zerr
    else
      && err == MapAnswer(body)
      && forall rs | Represents(body, rs) :: log == Replay(rs)
  }

  /** Playback as `parse_playback` drives it: decompress, validate, replay from the columns. */
  method Playback(z: Zstd, krpz: seq<Byte>) returns (err: Error, log: seq<Callback>)
    ensures Plays(z, krpz, err, log)
  {
    log := [];
    var unzipped := ZstdDecompress(z, krpz);
    err := unzipped.0;
    if err != Ok { return; }
    var s;
    err, s := MapSections(unzipped.1);
    if err != Ok { return; }
    log := ForEachRecord(unzipped.1, s);
  }

  lemma BodyLength(krpr: seq<Byte>, rs: seq<Record>)
    requires |krpr| >= HEADER_SIZE && Splits(krpr[HEADER_SIZE..], rs, [])
    ensures |Body(krpr, rs)| == |krpr|
  {
    TransposeKeepsLength(rs);
    assert |Serialise(rs) + []| == |Serialise(rs)|;
  }

  lemma UnzipBuilt(z: Zstd, body: seq<Byte>, level: int, krpz: seq<Byte>)
    requires Lossless(z) && z.compress(body, level) == Some(krpz) && body != []
    ensures ZstdDecompress(z, krpz) ==
      if |body| <= KRP_MAX_DECOMPRESSED_BYTES then (Ok, body) else (ZstdError, [])
  {
  }

  lemma AcceptedBuilt(krpr: seq<Byte>, rs: seq<Record>)
    requires ValidateHeader(krpr) == Ok && Splits(krpr[HEADER_SIZE..], rs, []) && |krpr| < U32
    ensures MapAnswer(Body(krpr, rs)) == if LeadingKeyframe(rs) then Ok else FirstFrameNotKeyframe
    ensures LeadingKeyframe(rs) ==> Represents(Body(krpr, rs), rs)
  {
    BodyLength(krpr, rs);
    BuiltBodySections(krpr, rs);
    ChecksAcceptExactlyTheImages(Body(krpr, rs));
    if LeadingKeyframe(rs) { BuiltBodyRepresents(krpr, rs); }
  }

  /** What reading a compressed capture back answers. */
  function ReadAnswer(length: nat, rs: seq<Record>): Error {
    if length > KRP_MAX_DECOMPRESSED_BYTES then ZstdError
    else if LeadingKeyframe(rs) then Ok
    else FirstFrameNotKeyframe
  }

  /** Exactly when compressing a capture and decompressing the result gives it back: it starts with a
      keyframe and is at most 100 MiB long. Then it comes back byte for byte, mask bits 112..127
      included, except that its four size fields are zero. */
  lemma CompressionRoundTrip(z: Zstd, krpr: seq<Byte>, level: int, krpz: seq<Byte>, rs: seq<Record>,
                             err: Error, out: seq<Byte>)
    requires Lossless(z) && Compresses(z, krpr, level, Ok, krpz)
    requires ValidateHeader(krpr) == Ok && Splits(krpr[HEADER_SIZE..], rs, [])
    requires Decompresses(z, krpz, err, out)
    ensures err == Ok <==> LeadingKeyframe(rs) && |krpr| <= KRP_MAX_DECOMPRESSED_BYTES
    ensures err == ReadAnswer(|krpr|, rs)
    ensures err == Ok ==> out == ZeroSizes(krpr) + krpr[HEADER_SIZE..]
  {
    assert z.compress(Body(krpr, rs), level) == Some(krpz);
    BodyLength(krpr, rs);
    UnzipBuilt(z, Body(krpr, rs), level, krpz);
    hide Body, Represents, LeadingKeyframe, Splits, ZstdDecompress, Lossless, Compresses, MapAnswer;
    if |krpr| <= KRP_MAX_DECOMPRESSED_BYTES {
      AcceptedBuilt(krpr, rs);
      RebuiltCapture(krpr, rs);
    }
  }

  /** Exactly when a compressed capture plays back, and that playback reports its records. */
  lemma CompressionPlaysBack(z: Zstd, krpr: seq<Byte>, level: int, krpz: seq<Byte>, rs: seq<Record>,
                             err: Error, log: seq<Callback>)
    requires Lossless(z) && Compresses(z, krpr, level, Ok, krpz)
    requires ValidateHeader(krpr) == Ok && Splits(krpr[HEADER_SIZE..], rs, [])
    requires Plays(z, krpz, err, log)
    ensures err == Ok <==> LeadingKeyframe(rs) && |krpr| <= KRP_MAX_DECOMPRESSED_BYTES
    ensures err == ReadAnswer(|krpr|, rs)
    ensures err == Ok ==> log == Replay(rs)
  {
    assert z.compress(Body(krpr, rs), level) == Some(krpz);
    BodyLength(krpr, rs);
    UnzipBuilt(z, Body(krpr, rs), level, krpz);
    hide Body, Represents, LeadingKeyframe, Splits, ZstdDecompress, Lossless, Compresses, Replay, MapAnswer;
    if |krpr| <= KRP_MAX_DECOMPRESSED_BYTES { AcceptedBuilt(krpr, rs); }
  }
}
