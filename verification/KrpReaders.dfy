/** The two readers of a validated columnar body: `build_krpr`, which rebuilds the raw capture, and
    `for_each_record`, which replays it straight from the column cursors. */
module KrpReaders {
  import opened Bytes
  import opened KrpFormat
  import opened KrpColumns
  import opened KrpLayout
  import opened KrpSections
  import opened KrpMap

  // ---------------------------------------------------------------- a reader after t records

  predicate ColumnsPrefix(p: Columns, c: Columns) {
    && p.types <= c.types && p.masks <= c.masks && p.events <= c.events
    && |p.cols| == |c.cols| == FRAME_SIZE
    && forall i: nat | i < FRAME_SIZE :: p.cols[i] <= c.cols[i]
  }

  lemma PushGrows(c: Columns, r: Record)
    requires |c.cols| == FRAME_SIZE && WellFormed(r)
    ensures ColumnsPrefix(c, Push(c, r))
  {
    var d := Push(c, r);
    if r.Frame? {
      forall i: nat | i < FRAME_SIZE ensures c.cols[i] <= d.cols[i] {
        assert d.cols[i] == PushCell(c.cols[i], r, i);
      }
    }
  }

  lemma PrefixTransitive(a: Columns, b: Columns, c: Columns)
    requires ColumnsPrefix(a, b) && ColumnsPrefix(b, c)
    ensures ColumnsPrefix(a, c)
  {
  }

  /** The columns of the first `t` records are prefixes of the columns of all of them. */
  lemma {:induction false} TransposePrefix(rs: seq<Record>, t: nat)
    requires AllWellFormed(rs) && t <= |rs|
    ensures ColumnsPrefix(Transpose(rs[..t]), Transpose(rs))
    decreases |rs|
  {
    if t == |rs| {
      assert rs[..t] == rs;
    } else {
      var front := rs[..|rs| - 1];
      TransposePrefix(front, t);
      assert front[..t] == rs[..t];
      PushGrows(Transpose(front), rs[|rs| - 1]);
      PrefixTransitive(Transpose(rs[..t]), Transpose(front), Transpose(rs));
    }
  }

  lemma TransposeStep(rs: seq<Record>, t: nat)
    requires AllWellFormed(rs) && t < |rs|
    ensures Transpose(rs[..t + 1]) == Push(Transpose(rs[..t]), rs[t])
  {
    assert rs[..t + 1][..t] == rs[..t];
  }

  /** Where the next unread cells are: record `t` is found in `c` at the ends of the streams of `p`. */
  lemma NextRecord(rs: seq<Record>, t: nat)
    requires AllWellFormed(rs) && t < |rs|
    ensures var p, c, r := Transpose(rs[..t]), Transpose(rs), rs[t];
      && |p.types| == t < |c.types| && c.types[t] == TypeOf(r)
      && (r.Event? ==> |p.events| < |c.events| && c.events[|p.events|] == r.id)
      && (r.Frame? ==> |p.masks| < |c.masks| && c.masks[|p.masks|] == r.mask)
  {
    TransposeConsistent(rs[..t]);
    TransposeStep(rs, t);
    TransposePrefix(rs, t + 1);
  }

  lemma NextCell(rs: seq<Record>, t: nat, i: nat)
    requires AllWellFormed(rs) && t < |rs| && rs[t].Frame? && i < FRAME_SIZE && Bit(rs[t].mask, i)
    ensures var p, c := Transpose(rs[..t]), Transpose(rs);
      |p.cols[i]| < |c.cols[i]| && c.cols[i][|p.cols[i]|] == rs[t].vals[i]
  {
    var p := Transpose(rs[..t]);
    TransposeStep(rs, t);
    TransposePrefix(rs, t + 1);
    assert Push(p, rs[t]).cols[i] == PushCell(p.cols[i], rs[t], i);
  }

  // ---------------------------------------------------------------- cursors

  /** Column `i`'s cursor after the records of `p` have been read. */
  function Cursor(body: seq<Byte>, p: Columns, i: nat): nat
    requires PassesChecks(body) && |p.cols| == FRAME_SIZE && i < FRAME_SIZE
  {
    DataAt(body) + ColStart(MasksOf(body), i) + |p.cols[i]|
  }

  /** Where column `i` begins, and where column `i - 1` ends. */
  function ColumnAt(body: seq<Byte>, i: nat): nat
    requires PassesChecks(body) && i <= FRAME_SIZE
  {
    DataAt(body) + ColStart(MasksOf(body), i)
  }

  /** `body` is validated and its columns are those of the records `rs`. */
  predicate Holds(body: seq<Byte>, rs: seq<Record>) {
    PassesChecks(body) && AllWellFormed(rs) && ColumnsOf(body) == Transpose(rs)
  }

  lemma CutColInBody(body: seq<Byte>, at: nat, data: seq<Byte>, masks: seq<seq<Byte>>, i: nat)
    requires MaskRows(masks) && |data| == ColStart(masks, FRAME_SIZE) && i < FRAME_SIZE
    requires at + |data| <= |body| && body[at..at + |data|] == data
    ensures ColStart(masks, i + 1) <= |data|
    ensures body[at + ColStart(masks, i)..at + ColStart(masks, i + 1)] == CutCol(data, masks, i)
  {
    ColStartMono(masks, i + 1, FRAME_SIZE);
    SubSlice(body, at, |data|, ColStart(masks, i), ColSize(masks, i));
  }

  lemma ColumnInBody(body: seq<Byte>, i: nat)
    requires PassesChecks(body) && i < FRAME_SIZE
    ensures ColumnAt(body, i) <= ColumnAt(body, i + 1) <= EventsAt(body)
    ensures body[ColumnAt(body, i)..ColumnAt(body, i + 1)] == ColumnsOf(body).cols[i]
  {
    CutColInBody(body, DataAt(body), DataOf(body), MasksOf(body), i);
  }

  lemma CellInBody(body: seq<Byte>, i: nat, k: nat)
    requires PassesChecks(body) && i < FRAME_SIZE && k < |ColumnsOf(body).cols[i]|
    ensures ColumnAt(body, i) + k < ColumnAt(body, i + 1) <= |body|
    ensures body[ColumnAt(body, i) + k] == ColumnsOf(body).cols[i][k]
  {
    ColumnInBody(body, i);
    SliceElement(body, ColumnAt(body, i), ColumnAt(body, i + 1), k);
  }

  lemma EventInBody(body: seq<Byte>, k: nat)
    requires PassesChecks(body) && k < |ColumnsOf(body).events|
    ensures EventsAt(body) + k < Total(body) <= |body|
    ensures body[EventsAt(body) + k] == ColumnsOf(body).events[k]
  {
    SliceElement(body, EventsAt(body), Total(body), k);
  }

  lemma SliceElement<T>(s: seq<T>, a: nat, b: nat, k: nat)
    requires a <= b <= |s| && k < b - a
    ensures s[a..b][k] == s[a + k]
  {
  }

  /** The columns of the first `t` records. */
  function After(rs: seq<Record>, t: nat): (p: Columns)
    requires AllWellFormed(rs) && t <= |rs|
    ensures |p.cols| == FRAME_SIZE
  {
    Transpose(rs[..t])
  }

  /** Everything is consumed exactly: a column's cursor starts at the column's start, and after all records it is
      where the next column begins; the event cursor ends at the end of the body, and the mask rows are used up. */
  lemma CursorEnds(body: seq<Byte>, rs: seq<Record>, i: nat)
    requires Holds(body, rs) && i < FRAME_SIZE
    ensures Cursor(body, After(rs, 0), i) == ColumnAt(body, i)
    ensures Cursor(body, After(rs, |rs|), i) == ColumnAt(body, i + 1)
    ensures After(rs, 0).events == [] && EventsAt(body) + |After(rs, |rs|).events| == Total(body)
    ensures After(rs, 0).masks == [] && |After(rs, |rs|).masks| == |MasksOf(body)|
  {
    assert rs[..|rs|] == rs && rs[..0] == [];
    assert Transpose([]).cols[i] == [];
  }

  /** In between it never leaves its column. */
  lemma CursorInColumn(body: seq<Byte>, rs: seq<Record>, t: nat, i: nat)
    requires Holds(body, rs) && t <= |rs| && i < FRAME_SIZE
    ensures ColumnAt(body, i) <= Cursor(body, After(rs, t), i) <= ColumnAt(body, i + 1) <= EventsAt(body)
  {
    TransposePrefix(rs, t);
    ColumnInBody(body, i);
  }

  /** Where record `t` has mask bit `i`, column `i`'s cursor is strictly inside its column and the
      byte under it is the record's. */
  lemma CursorReads(body: seq<Byte>, rs: seq<Record>, t: nat, i: nat)
    requires Holds(body, rs) && t < |rs| && rs[t].Frame? && i < FRAME_SIZE && Bit(rs[t].mask, i)
    ensures Cursor(body, After(rs, t), i) < ColumnAt(body, i + 1) <= |body|
    ensures body[Cursor(body, After(rs, t), i)] == rs[t].vals[i]
  {
    hide PassesChecks, TypesOf, MasksOf, DataOf, EventsOf, DataAt, EventsAt;
    NextCell(rs, t, i);
    CellInBody(body, i, |After(rs, t).cols[i]|);
  }

  lemma CursorStep(body: seq<Byte>, rs: seq<Record>, t: nat, i: nat)
    requires Holds(body, rs) && t < |rs| && i < FRAME_SIZE
    ensures Cursor(body, After(rs, t + 1), i)
         == Cursor(body, After(rs, t), i) + if rs[t].Frame? && Bit(rs[t].mask, i) then 1 else 0
  {
    hide PassesChecks, TypesOf, MasksOf, DataOf, EventsOf, DataAt, EventsAt;
    TransposeStep(rs, t);
    var p := After(rs, t);
    if rs[t].Frame? { assert Push(p, rs[t]).cols[i] == PushCell(p.cols[i], rs[t], i); }
  }

  lemma EventReads(body: seq<Byte>, rs: seq<Record>, t: nat)
    requires Holds(body, rs) && t < |rs| && rs[t].Event?
    ensures EventsAt(body) + |After(rs, t).events| < Total(body) <= |body|
    ensures body[EventsAt(body) + |After(rs, t).events|] == rs[t].id
  {
    hide PassesChecks, TypesOf, MasksOf, DataOf, EventsOf, DataAt, EventsAt;
    NextRecord(rs, t);
    EventInBody(body, |After(rs, t).events|);
  }

  // ---------------------------------------------------------------- the readers' common state

  /** After `t` records: the next mask row, the event cursor and the 112 column cursors. */
  ghost predicate ReadUpTo(body: seq<Byte>, rs: seq<Record>, t: nat, row: nat, ev: nat, col: seq<nat>) {
    && Holds(body, rs) && t <= |rs|
    && row == |After(rs, t).masks|
    && ev == EventsAt(body) + |After(rs, t).events|
    && |col| == FRAME_SIZE
    && forall i: nat | i < FRAME_SIZE :: col[i] == Cursor(body, After(rs, t), i)
  }

  lemma ReadEvent(body: seq<Byte>, rs: seq<Record>, t: nat, row: nat, ev: nat, col: seq<nat>)
    requires ReadUpTo(body, rs, t, row, ev, col) && t < |rs| && rs[t].Event?
    ensures ev < |body| && body[ev] == rs[t].id
    ensures ReadUpTo(body, rs, t + 1, row, ev + 1, col)
  {
    hide PassesChecks, TypesOf, MasksOf, DataOf, EventsOf, DataAt, EventsAt;
    EventReads(body, rs, t);
    TransposeStep(rs, t);
    forall i: nat | i < FRAME_SIZE ensures col[i] == Cursor(body, After(rs, t + 1), i) {
      CursorStep(body, rs, t, i);
    }
  }

  /** The columns under the cursors hold the record's bytes. */
  predicate CellsUnder(body: seq<Byte>, col: seq<nat>, r: Record) {
    && r.Frame? && WellFormed(r) && |col| == FRAME_SIZE
    && forall i: nat | i < FRAME_SIZE && Bit(r.mask, i) :: col[i] < |body| && body[col[i]] == r.vals[i]
  }

  predicate Advanced(before: seq<nat>, after: seq<nat>, r: Record) {
    && r.Frame? && WellFormed(r) && |before| == |after| == FRAME_SIZE
    && forall i: nat | i < FRAME_SIZE :: after[i] == before[i] + if Bit(r.mask, i) then 1 else 0
  }

  lemma BeforeFrame(body: seq<Byte>, rs: seq<Record>, t: nat, row: nat, ev: nat, col: seq<nat>)
    requires ReadUpTo(body, rs, t, row, ev, col) && t < |rs| && rs[t].Frame?
    ensures row < |MasksOf(body)| && MasksOf(body)[row] == rs[t].mask
    ensures CellsUnder(body, col, rs[t])
  {
    NextRecord(rs, t);
    forall i: nat | i < FRAME_SIZE && Bit(rs[t].mask, i) ensures col[i] < |body| && body[col[i]] == rs[t].vals[i] {
      CursorReads(body, rs, t, i);
    }
  }

  lemma AfterFrame(body: seq<Byte>, rs: seq<Record>, t: nat, row: nat, ev: nat, before: seq<nat>, after: seq<nat>)
    requires ReadUpTo(body, rs, t, row, ev, before) && t < |rs| && rs[t].Frame?
    requires Advanced(before, after, rs[t])
    ensures ReadUpTo(body, rs, t + 1, row + 1, ev, after)
  {
    hide PassesChecks, TypesOf, MasksOf, DataOf, EventsOf, DataAt, EventsAt;
    TransposeStep(rs, t);
    forall i: nat | i < FRAME_SIZE ensures after[i] == Cursor(body, After(rs, t + 1), i) {
      CursorStep(body, rs, t, i);
    }
  }

  lemma TypeUnder(body: seq<Byte>, rs: seq<Record>, t: nat)
    requires Holds(body, rs) && t < |rs|
    ensures HEADER_SIZE + t < |body| && body[HEADER_SIZE + t] == TypeOf(rs[t])
  {
    NextRecord(rs, t);
  }

  method ColumnCursors(body: seq<Byte>, s: Sections) returns (col: array<nat>)
    requires Describes(s, body)
    ensures fresh(col) && col.Length == FRAME_SIZE
    ensures forall i: nat | i < FRAME_SIZE :: col[i] == ColumnAt(body, i)
  {
    col := new nat[FRAME_SIZE](_ => 0);
    var cursor := s.data;
    assert cursor == ColumnAt(body, 0);
    hide PassesChecks, DataAt;
    for i := 0 to FRAME_SIZE
      invariant cursor == ColumnAt(body, i)
      invariant forall j: nat | j < i :: col[j] == ColumnAt(body, j)
    {
      col[i] := cursor;
      cursor := cursor + s.colSizes[i];
    }
  }

  // ---------------------------------------------------------------- build_krpr

  /** The 16 mask bytes of one row, block by block. */
  method ReadMask(body: seq<Byte>, flags: nat, blockStreamSize: nat, row: nat) returns (mask: seq<Byte>)
    requires Cuttable(body) && flags == FlagsAt(body) && blockStreamSize == BlockSize(body)
    requires row < |MasksOf(body)|
    ensures mask == MasksOf(body)[row]
  {
    mask := [];
    ghost var m := MasksOf(body)[row];
    for block := 0 to MASK_BLOCKS
      invariant mask == m[..8 * block]
    {
      RowBytes(body, block, row);
      var at := flags + block * blockStreamSize + row * 8;
      mask := mask + body[at..at + 8];
      Abut(m, 8 * block, 8 * block + 8);
    }
  }

  /** Emits the carried bytes of one frame record and moves the cursors past them. */
  method EmitCells(body: seq<Byte>, mask: seq<Byte>, col: array<nat>, ghost r: Record) returns (cells: seq<Byte>)
    requires col.Length == FRAME_SIZE && CellsUnder(body, col[..], r) && mask == r.mask
    modifies col
    ensures cells == Cells(mask, r.vals, FRAME_SIZE)
    ensures Advanced(old(col[..]), col[..], r)
  {
    cells := [];
    for i := 0 to FRAME_SIZE
      invariant cells == Cells(mask, r.vals, i)
      invariant forall j: nat | j < FRAME_SIZE ::
        col[j] == old(col[j]) + if j < i && Bit(mask, j) then 1 else 0
    {
      if TestBit(mask[i / 8], i % 8) {
        assert old(col[..])[i] == col[i];
        cells := cells + [body[col[i]]];
        col[i] := col[i] + 1;
      }
    }
  }

  lemma SerialiseStep(rs: seq<Record>, t: nat)
    requires AllWellFormed(rs) && t < |rs|
    ensures Serialise(rs[..t + 1]) == Serialise(rs[..t]) + Encode(rs[t])
  {
    assert rs[..t + 1][..t] == rs[..t];
  }

  /** One turn of the rebuilding loop: record `t` as raw bytes. */
  method EmitRecord(body: seq<Byte>, s: Sections, t: nat, row: nat, ev: nat, col: array<nat>, ghost rs: seq<Record>)
    returns (bytes: seq<Byte>, row': nat, ev': nat)
    requires Describes(s, body) && col.Length == FRAME_SIZE
    requires ReadUpTo(body, rs, t, row, ev, col[..]) && t < |rs|
    modifies col
    ensures ReadUpTo(body, rs, t + 1, row', ev', col[..])
    ensures bytes == Encode(rs[t])
  {
    TypeUnder(body, rs, t);
    var kind := body[s.types + t];
    if kind == FRAMETYPE_EVENT {
      ReadEvent(body, rs, t, row, ev, col[..]);
      return [kind] + [body[ev]], row, ev + 1;
    }
    BeforeFrame(body, rs, t, row, ev, col[..]);
    var mask := ReadMask(body, s.flags, Field32(body, SIZE_FLAGS_AT) / MASK_BLOCKS, row);
    ghost var before := col[..];
    var cells := EmitCells(body, mask, col, rs[t]);
    AfterFrame(body, rs, t, row, ev, before, col[..]);
    return [kind] + mask + cells, row + 1, ev;
  }

  lemma StartReading(body: seq<Byte>, s: Sections, rs: seq<Record>, col: seq<nat>)
    requires Describes(s, body) && Holds(body, rs) && |col| == FRAME_SIZE
    requires forall i: nat | i < FRAME_SIZE :: col[i] == ColumnAt(body, i)
    ensures ReadUpTo(body, rs, 0, 0, s.events, col)
    ensures Field32(body, SIZE_TYPES_AT) == |rs|
  {
    forall i: nat | i < FRAME_SIZE ensures col[i] == Cursor(body, After(rs, 0), i) {
      CursorEnds(body, rs, i);
    }
    TransposeConsistent(rs);
  }

  method EmitRecords(body: seq<Byte>, s: Sections, n: nat, col: array<nat>, ghost rs: seq<Record>)
    returns (records: seq<Byte>)
    requires Describes(s, body) && AllWellFormed(rs) && n == |rs| && col.Length == FRAME_SIZE
    requires ReadUpTo(body, rs, 0, 0, s.events, col[..])
    modifies col
    ensures records == Serialise(rs)
  {
    hide Describes, ReadUpTo, Encode;
    var ev, row := s.events, 0;
    records := [];
    for t := 0 to n
      invariant ReadUpTo(body, rs, t, row, ev, col[..])
      invariant records == Serialise(rs[..t])
    {
      var bytes;
      bytes, row, ev := EmitRecord(body, s, t, row, ev, col, rs);
      SerialiseStep(rs, t);
      records := records + bytes;
    }
    assert rs[..n] == rs;
  }

  method Rebuild(body: seq<Byte>, s: Sections, ghost rs: seq<Record>) returns (out: seq<Byte>)
    requires Describes(s, body) && Holds(body, rs)
    ensures out == Raw(ZeroSizes(body), rs)
  {
    hide ReadUpTo, ColumnAt, ColumnsOf;
    var col := ColumnCursors(body, s);
    StartReading(body, s, rs, col[..]);
    var records := EmitRecords(body, s, Field32(body, SIZE_TYPES_AT), col, rs);
    out := ZeroSizes(body) + records;
  }

  /** A validated body represents exactly one record stream. */
  lemma HeldRecords(body: seq<Byte>) returns (rs: seq<Record>)
    requires PassesChecks(body)
    ensures Holds(body, rs) && Represents(body, rs)
    ensures forall qs | Represents(body, qs) :: qs == rs
  {
    rs := Untranspose(ColumnsOf(body));
    TransposeUntranspose(ColumnsOf(body));
    ChecksAcceptExactlyTheImages(body);
    CheckedBodyRepresents(body);
  }

  /** Rebuilds the raw capture from a validated body: the header with zero section sizes, followed by
      the records the body represents, row by row. */
  method BuildKrpr(body: seq<Byte>, s: Sections) returns (out: seq<Byte>)
    requires Describes(s, body)
    ensures forall rs | Represents(body, rs) :: out == Raw(ZeroSizes(body), rs)
  {
    ghost var rs := HeldRecords(body);
    hide PassesChecks, Represents, Holds;
    out := Rebuild(body, s, rs);
  }
}
