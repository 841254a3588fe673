/** The columns of a `.krpz` body as contiguous bytes: block streams, concatenated columns, and how
    the section sizes cut them apart again. */
module KrpLayout {
  import opened Bytes
  import opened KrpFormat
  import opened KrpColumns

  // ---------------------------------------------------------------- mask blocks

  /** The stream of one 8-byte block of every mask row. */
  function BlockStream(masks: seq<seq<Byte>>, block: nat): (s: seq<Byte>)
    requires MaskRows(masks) && block < MASK_BLOCKS
    ensures |s| == 8 * |masks|
  {
    if masks == [] then [] else
      BlockStream(masks[..|masks| - 1], block) + masks[|masks| - 1][8 * block..8 * block + 8]
  }

  /** Row `r`, block `block` sits at offset `8 * r` of its stream. */
  lemma {:induction false} BlockAt(masks: seq<seq<Byte>>, block: nat, r: nat)
    requires MaskRows(masks) && block < MASK_BLOCKS && r < |masks|
    ensures BlockStream(masks, block)[8 * r..8 * r + 8] == masks[r][8 * block..8 * block + 8]
  {
    var n := |masks| - 1;
    var front := BlockStream(masks[..n], block);
    if r < n {
      BlockAt(masks[..n], block, r);
      assert BlockStream(masks, block)[..|front|] == front;
      assert BlockStream(masks, block)[8 * r..8 * r + 8] == front[8 * r..8 * r + 8];
    }
  }

  /** The mask rows that two block streams stand for. */
  function Rows(f0: seq<Byte>, f1: seq<Byte>): (masks: seq<seq<Byte>>)
    requires |f0| == |f1| && |f0| % 8 == 0
    ensures MaskRows(masks) && |masks| == |f0| / 8
  {
    seq(|f0| / 8, r requires 0 <= r < |f0| / 8 => f0[8 * r..8 * r + 8] + f1[8 * r..8 * r + 8])
  }

  lemma RowsOfBlocks(masks: seq<seq<Byte>>)
    requires MaskRows(masks)
    ensures Rows(BlockStream(masks, 0), BlockStream(masks, 1)) == masks
  {
    var rows := Rows(BlockStream(masks, 0), BlockStream(masks, 1));
    forall r | 0 <= r < |masks| ensures rows[r] == masks[r] {
      BlockAt(masks, 0, r);
      BlockAt(masks, 1, r);
      assert masks[r] == masks[r][0..8] + masks[r][8..16];
    }
  }

  lemma BlocksOfRows(f0: seq<Byte>, f1: seq<Byte>)
    requires |f0| == |f1| && |f0| % 8 == 0
    ensures BlockStream(Rows(f0, f1), 0) == f0 && BlockStream(Rows(f0, f1), 1) == f1
  {
    var rows := Rows(f0, f1);
    forall r | 0 <= r < |rows|
      ensures BlockStream(rows, 0)[8 * r..8 * r + 8] == f0[8 * r..8 * r + 8]
      ensures BlockStream(rows, 1)[8 * r..8 * r + 8] == f1[8 * r..8 * r + 8]
    {
      BlockAt(rows, 0, r);
      BlockAt(rows, 1, r);
    }
    SameByRows(BlockStream(rows, 0), f0);
    SameByRows(BlockStream(rows, 1), f1);
  }

  lemma SameByRows(s: seq<Byte>, t: seq<Byte>)
    requires |s| == |t| && |s| % 8 == 0
    requires forall r: nat | r < |s| / 8 :: s[8 * r..8 * r + 8] == t[8 * r..8 * r + 8]
    ensures s == t
  {
    forall k | 0 <= k < |s| ensures s[k] == t[k] {
      var r := k / 8;
      assert s[8 * r..8 * r + 8][k - 8 * r] == t[8 * r..8 * r + 8][k - 8 * r];
    }
  }

  // ---------------------------------------------------------------- column data

  function JoinCols(cols: seq<seq<Byte>>, n: nat): seq<Byte>
    requires n <= |cols|
  {
    if n == 0 then [] else JoinCols(cols, n - 1) + cols[n - 1]
  }

  /** Where column `i` starts in the data section, from the masks alone. */
  function ColStart(masks: seq<seq<Byte>>, i: nat): nat
    requires MaskRows(masks) && i <= FRAME_SIZE
  {
    if i == 0 then 0 else ColStart(masks, i - 1) + ColSize(masks, i - 1)
  }

  lemma {:induction false} ColStartMono(masks: seq<seq<Byte>>, i: nat, j: nat)
    requires MaskRows(masks) && i <= j <= FRAME_SIZE
    ensures ColStart(masks, i) <= ColStart(masks, j)
    decreases j
  {
    if i < j { ColStartMono(masks, i, j - 1); }
  }

  predicate Sized(cols: seq<seq<Byte>>, masks: seq<seq<Byte>>) {
    && MaskRows(masks) && |cols| == FRAME_SIZE
    && forall i: nat | i < FRAME_SIZE :: |cols[i]| == ColSize(masks, i)
  }

  lemma {:induction false} JoinLength(cols: seq<seq<Byte>>, masks: seq<seq<Byte>>, n: nat)
    requires Sized(cols, masks) && n <= FRAME_SIZE
    ensures |JoinCols(cols, n)| == ColStart(masks, n)
  {
    if n > 0 { JoinLength(cols, masks, n - 1); }
  }

  /** Column `i` is the slice of the joined data between its start and the next column's start. */
  lemma {:induction false} ColumnSlice(cols: seq<seq<Byte>>, masks: seq<seq<Byte>>, n: nat, i: nat)
    requires Sized(cols, masks) && i < n <= FRAME_SIZE
    ensures ColStart(masks, i + 1) <= |JoinCols(cols, n)|
    ensures JoinCols(cols, n)[ColStart(masks, i)..ColStart(masks, i + 1)] == cols[i]
  {
    JoinLength(cols, masks, n);
    JoinLength(cols, masks, n - 1);
    if i < n - 1 {
      ColumnSlice(cols, masks, n - 1, i);
      var front := JoinCols(cols, n - 1);
      assert JoinCols(cols, n)[..|front|] == front;
      assert JoinCols(cols, n)[ColStart(masks, i)..ColStart(masks, i + 1)]
          == front[ColStart(masks, i)..ColStart(masks, i + 1)];
    }
  }

  /** The bytes of column `i` in the data section. */
  function CutCol(data: seq<Byte>, masks: seq<seq<Byte>>, i: nat): (col: seq<Byte>)
    requires MaskRows(masks) && |data| == ColStart(masks, FRAME_SIZE) && i < FRAME_SIZE
    ensures |col| == ColSize(masks, i)
  {
    ColStartMono(masks, i + 1, FRAME_SIZE);
    data[ColStart(masks, i)..ColStart(masks, i + 1)]
  }

  /** Cutting a data section at the column starts. */
  function CutCols(data: seq<Byte>, masks: seq<seq<Byte>>): (cols: seq<seq<Byte>>)
    requires MaskRows(masks) && |data| == ColStart(masks, FRAME_SIZE)
    ensures Sized(cols, masks)
  {
    seq(FRAME_SIZE, i requires 0 <= i < FRAME_SIZE => CutCol(data, masks, i))
  }

  lemma CutJoin(cols: seq<seq<Byte>>, masks: seq<seq<Byte>>)
    requires Sized(cols, masks)
    ensures |JoinCols(cols, FRAME_SIZE)| == ColStart(masks, FRAME_SIZE)
    ensures CutCols(JoinCols(cols, FRAME_SIZE), masks) == cols
  {
    JoinLength(cols, masks, FRAME_SIZE);
    var cut := CutCols(JoinCols(cols, FRAME_SIZE), masks);
    forall i: nat | i < FRAME_SIZE ensures cut[i] == cols[i] {
      ColumnSlice(cols, masks, FRAME_SIZE, i);
    }
  }

  lemma {:induction false} JoinCut(data: seq<Byte>, masks: seq<seq<Byte>>, n: nat)
    requires MaskRows(masks) && |data| == ColStart(masks, FRAME_SIZE) && n <= FRAME_SIZE
    ensures ColStart(masks, n) <= |data|
    ensures JoinCols(CutCols(data, masks), n) == data[..ColStart(masks, n)]
  {
    ColStartMono(masks, n, FRAME_SIZE);
    if n > 0 {
      JoinCut(data, masks, n - 1);
      assert CutCols(data, masks)[n - 1] == CutCol(data, masks, n - 1);
      Abut(data, ColStart(masks, n - 1), ColStart(masks, n));
    }
  }

  lemma Abut<T>(s: seq<T>, i: nat, j: nat)
    requires i <= j <= |s|
    ensures s[..i] + s[i..j] == s[..j]
  {
  }

  // ---------------------------------------------------------------- the whole body

  function DataSection(c: Columns): seq<Byte>
    requires |c.cols| == FRAME_SIZE
  {
    JoinCols(c.cols, FRAME_SIZE)
  }

  /** Everything after the header of a decompressed `.krpz` body. */
  function Flatten(c: Columns): seq<Byte>
    requires MaskRows(c.masks) && |c.cols| == FRAME_SIZE
  {
    c.types + BlockStream(c.masks, 0) + BlockStream(c.masks, 1) + DataSection(c) + c.events
  }

  /** The body that transposing the records `rs` yields under the header `h`. */
  function Body(h: seq<Byte>, rs: seq<Record>): seq<Byte>
    requires |h| >= HEADER_SIZE && AllWellFormed(rs)
  {
    TransposeConsistent(rs);
    var c := Transpose(rs);
    SetSizes(h, |c.types|, MASK_SIZE * |c.masks|, |DataSection(c)|, |c.events|) + Flatten(c)
  }

  /** The raw capture of the records `rs` under the header `h`. */
  function Raw(h: seq<Byte>, rs: seq<Record>): seq<Byte>
    requires |h| >= HEADER_SIZE && AllWellFormed(rs)
  {
    h[..HEADER_SIZE] + Serialise(rs)
  }

  /** `sizeof(krp_header) + size_types + size_flags + size_data + size_events`. */
  function Total(body: seq<Byte>): nat
    requires |body| >= HEADER_SIZE
  {
    HEADER_SIZE + Field32(body, SIZE_TYPES_AT) + Field32(body, SIZE_FLAGS_AT)
    + Field32(body, SIZE_DATA_AT) + Field32(body, SIZE_EVENTS_AT)
  }

  predicate LeadingKeyframe(rs: seq<Record>) {
    rs != [] && rs[0].Frame? && rs[0].key
  }

  /** `body` is, up to trailing bytes, what transposing `rs` yields, and `rs` starts with a keyframe. */
  predicate Represents(body: seq<Byte>, rs: seq<Record>) {
    && ValidateHeader(body) == Ok
    && AllWellFormed(rs) && LeadingKeyframe(rs)
    && Total(body) <= |body| && body[..Total(body)] == Body(body, rs)
  }
}
