/** The columnar layout of a `.krpz` body, as a value: what it holds, how records are transposed into
    it and back, and how it is laid out as bytes. */
module KrpColumns {
  import opened Bytes
  import opened KrpFormat

  const MASK_BLOCKS: nat := 2

  /** Type stream, mask rows, one stream per frame byte, event stream. */
  datatype Columns = Columns(types: seq<Byte>, masks: seq<seq<Byte>>, cols: seq<seq<Byte>>, events: seq<Byte>)

  // ---------------------------------------------------------------- counts

  function NumFrames(types: seq<Byte>): (n: nat)
    ensures n <= |types|
  {
    if types == [] then 0 else
      NumFrames(types[..|types| - 1]) + if types[|types| - 1] == FRAMETYPE_EVENT then 0 else 1
  }

  function NumEvents(types: seq<Byte>): nat {
    |types| - NumFrames(types)
  }

  /** How many mask rows have bit `i`: the length of column `i`. */
  function ColSize(masks: seq<seq<Byte>>, i: nat): (n: nat)
    requires i < FRAME_SIZE && MaskRows(masks)
    ensures n <= |masks|
  {
    if masks == [] then 0 else
      var m := |masks| - 1;
      ColSize(masks[..m], i) + if Bit(masks[m], i) then 1 else 0
  }

  predicate MaskRows(masks: seq<seq<Byte>>) {
    forall r | 0 <= r < |masks| :: |masks[r]| == MASK_SIZE
  }

  predicate KnownTypes(types: seq<Byte>) {
    forall t | 0 <= t < |types| :: types[t] <= FRAMETYPE_KEYFRAME
  }

  /** The streams have the lengths that the types and the masks call for. */
  predicate Consistent(c: Columns) {
    && KnownTypes(c.types)
    && MaskRows(c.masks) && |c.masks| == NumFrames(c.types)
    && |c.events| == NumEvents(c.types)
    && |c.cols| == FRAME_SIZE
    && forall i: nat | i < FRAME_SIZE :: |c.cols[i]| == ColSize(c.masks, i)
  }

  // ---------------------------------------------------------------- transposition

  const NO_COLUMNS: Columns := Columns([], [], EmptyCols(), [])

  function EmptyCols(): (s: seq<seq<Byte>>)
    ensures |s| == FRAME_SIZE
  {
    seq(FRAME_SIZE, _ => [])
  }

  function PushCell(col: seq<Byte>, r: Record, i: nat): seq<Byte>
    requires r.Frame? && WellFormed(r) && i < FRAME_SIZE
  {
    if Bit(r.mask, i) then col + [r.vals[i]] else col
  }

  function PushCells(cols: seq<seq<Byte>>, r: Record): (s: seq<seq<Byte>>)
    requires |cols| == FRAME_SIZE && r.Frame? && WellFormed(r)
    ensures |s| == FRAME_SIZE
  {
    seq(FRAME_SIZE, i requires 0 <= i < FRAME_SIZE => PushCell(cols[i], r, i))
  }

  function Push(c: Columns, r: Record): (d: Columns)
    requires |c.cols| == FRAME_SIZE && WellFormed(r)
    ensures |d.cols| == FRAME_SIZE
  {
    match r
    case Event(id) => c.(types := c.types + [FRAMETYPE_EVENT], events := c.events + [id])
    case Frame(_, mask, _) =>
      Columns(c.types + [TypeOf(r)], c.masks + [mask], PushCells(c.cols, r), c.events)
  }

  function Transpose(rs: seq<Record>): (c: Columns)
    requires AllWellFormed(rs)
    ensures |c.cols| == FRAME_SIZE
  {
    if rs == [] then NO_COLUMNS else Push(Transpose(rs[..|rs| - 1]), rs[|rs| - 1])
  }

  // Taking the last record off again.

  function PopCell(col: seq<Byte>, mask: seq<Byte>, i: nat): seq<Byte>
    requires |mask| == MASK_SIZE && i < FRAME_SIZE
    requires Bit(mask, i) ==> col != []
  {
    if Bit(mask, i) then col[..|col| - 1] else col
  }

  function LastValue(col: seq<Byte>, mask: seq<Byte>, i: nat): Byte
    requires |mask| == MASK_SIZE && i < FRAME_SIZE
    requires Bit(mask, i) ==> col != []
  {
    if Bit(mask, i) then col[|col| - 1] else 0
  }

  predicate EndsInEvent(c: Columns) {
    c.types != [] && c.types[|c.types| - 1] == FRAMETYPE_EVENT
  }

  function LastMask(c: Columns): (m: seq<Byte>)
    requires Consistent(c) && c.types != [] && !EndsInEvent(c)
    ensures |m| == MASK_SIZE
    ensures forall i: nat | i < FRAME_SIZE && Bit(m, i) :: c.cols[i] != []
  {
    c.masks[|c.masks| - 1]
  }

  function LastRecord(c: Columns): (r: Record)
    requires Consistent(c) && c.types != []
    ensures WellFormed(r)
  {
    if EndsInEvent(c) then Event(c.events[|c.events| - 1])
    else
      var m := LastMask(c);
      Frame(c.types[|c.types| - 1] == FRAMETYPE_KEYFRAME, m,
            seq(FRAME_SIZE, i requires 0 <= i < FRAME_SIZE => LastValue(c.cols[i], m, i)))
  }

  function Pop(c: Columns): Columns
    requires Consistent(c) && c.types != []
  {
    var types := c.types[..|c.types| - 1];
    if EndsInEvent(c) then c.(types := types, events := c.events[..|c.events| - 1])
    else
      var m := LastMask(c);
      Columns(types, c.masks[..|c.masks| - 1],
              seq(FRAME_SIZE, i requires 0 <= i < FRAME_SIZE => PopCell(c.cols[i], m, i)), c.events)
  }

  lemma PopConsistent(c: Columns)
    requires Consistent(c) && c.types != []
    ensures Consistent(Pop(c))
  {
    var d := Pop(c);
    if !EndsInEvent(c) {
      forall i: nat | i < FRAME_SIZE ensures |d.cols[i]| == ColSize(d.masks, i) {
        assert d.cols[i] == PopCell(c.cols[i], LastMask(c), i);
      }
    }
  }

  function Untranspose(c: Columns): (rs: seq<Record>)
    requires Consistent(c)
    ensures AllWellFormed(rs)
    decreases |c.types|
  {
    if c.types == [] then [] else
      PopConsistent(c);
      Untranspose(Pop(c)) + [LastRecord(c)]
  }

  lemma PushConsistent(c: Columns, r: Record)
    requires Consistent(c) && WellFormed(r)
    ensures Consistent(Push(c, r))
  {
    var d := Push(c, r);
    assert d.types[..|c.types|] == c.types;
    if r.Frame? {
      assert d.masks[..|c.masks|] == c.masks;
      forall i: nat | i < FRAME_SIZE ensures |d.cols[i]| == ColSize(d.masks, i) {
        assert d.cols[i] == PushCell(c.cols[i], r, i);
      }
    }
  }

  lemma {:induction false} TransposeConsistent(rs: seq<Record>)
    requires AllWellFormed(rs)
    ensures Consistent(Transpose(rs))
    ensures |Transpose(rs).types| == |rs|
  {
    if rs != [] {
      TransposeConsistent(rs[..|rs| - 1]);
      PushConsistent(Transpose(rs[..|rs| - 1]), rs[|rs| - 1]);
    }
  }

  lemma PopPush(c: Columns, r: Record)
    requires Consistent(c) && WellFormed(r)
    ensures Consistent(Push(c, r)) && Push(c, r).types != []
    ensures Pop(Push(c, r)) == c && LastRecord(Push(c, r)) == r
  {
    PushConsistent(c, r);
    var d := Push(c, r);
    assert d.types[..|d.types| - 1] == c.types;
    if r.Frame? {
      assert d.masks[..|d.masks| - 1] == c.masks;
      assert Pop(d).cols == c.cols;
      assert LastRecord(d).vals == r.vals;
    } else {
      assert d.events[..|d.events| - 1] == c.events;
    }
  }

  lemma PushPop(c: Columns)
    requires Consistent(c) && c.types != []
    ensures Consistent(Pop(c)) && Push(Pop(c), LastRecord(c)) == c
  {
    PopConsistent(c);
    var r := LastRecord(c);
    var d := Push(Pop(c), r);
    assert d.types == c.types;
    if r.Frame? {
      assert d.masks == c.masks;
      forall i: nat | i < FRAME_SIZE ensures d.cols[i] == c.cols[i] {
        assert Pop(c).cols[i] == PopCell(c.cols[i], LastMask(c), i);
      }
      assert d.cols == c.cols;
    } else {
      assert d.events == c.events;
    }
  }

  lemma UntransposePush(c: Columns, r: Record)
    requires Consistent(c) && WellFormed(r)
    ensures Consistent(Push(c, r)) && Untranspose(Push(c, r)) == Untranspose(c) + [r]
  {
    PopPush(c, r);
  }

  /** Transposing loses nothing. */
  lemma {:induction false} UntransposeTranspose(rs: seq<Record>)
    requires AllWellFormed(rs)
    ensures Consistent(Transpose(rs)) && Untranspose(Transpose(rs)) == rs
  {
    TransposeConsistent(rs);
    if rs != [] {
      var front, r := rs[..|rs| - 1], rs[|rs| - 1];
      UntransposeTranspose(front);
      UntransposePush(Transpose(front), r);
      assert rs == front + [r];
    }
  }

  /** Every consistent set of columns is the transpose of the records read back from it. */
  lemma {:induction false} TransposeUntranspose(c: Columns)
    requires Consistent(c)
    ensures Transpose(Untranspose(c)) == c
    decreases |c.types|
  {
    if c.types == [] {
      assert c.masks == [] && c.cols == EmptyCols() && c.events == [];
    } else {
      PushPop(c);
      TransposeUntranspose(Pop(c));
      var rs := Untranspose(c);
      assert rs[..|rs| - 1] == Untranspose(Pop(c));
    }
  }
}
