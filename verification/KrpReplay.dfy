/** `for_each_record`: replaying a validated columnar body without rebuilding the raw capture. */
module KrpReplay {
  import opened Bytes
  import opened KrpFormat
  import opened KrpColumns
  import opened KrpLayout
  import opened KrpSections
  import opened KrpMap
  import opened KrpReaders

  /** The mask bits below `upTo` of the record `r` have been applied to the frame `prev`, whose
      column cursors were at `before`. */
  predicate AppliedUpTo(prev: seq<Byte>, frame: seq<Byte>, before: seq<nat>, col: seq<nat>, r: Record, upTo: nat) {
    && r.Frame? && WellFormed(r)
    && |prev| == |frame| == |before| == |col| == FRAME_SIZE
    && (forall i: nat | i < FRAME_SIZE :: frame[i] == if i < upTo then ApplyByte(prev[i], r, i) else prev[i])
    && (forall i: nat | i < FRAME_SIZE :: col[i] == before[i] + if i < upTo && Bit(r.mask, i) then 1 else 0)
  }

  /** One set bit: copy on a keyframe, XOR on a delta, and move the column's cursor. */
  method ApplyBit(body: seq<Byte>, idx: nat, kind: Byte, frame: array<Byte>, col: array<nat>,
                  ghost r: Record, ghost prev: seq<Byte>, ghost before: seq<nat>)
    requires frame.Length == FRAME_SIZE && col.Length == FRAME_SIZE && idx < FRAME_SIZE
    requires AppliedUpTo(prev, frame[..], before, col[..], r, idx) && Bit(r.mask, idx)
    requires CellsUnder(body, before, r) && kind == TypeOf(r)
    modifies frame, col
    ensures AppliedUpTo(prev, frame[..], before, col[..], r, idx + 1)
  {
    hide TestBit, Xor;
    var cell := body[col[idx]];
    if kind == FRAMETYPE_KEYFRAME {
      frame[idx] := cell;
    } else {
      frame[idx] := Xor(frame[idx], cell);
    }
    col[idx] := col[idx] + 1;
  }

  lemma SkipBit(prev: seq<Byte>, frame: seq<Byte>, before: seq<nat>, col: seq<nat>, r: Record, idx: nat)
    requires AppliedUpTo(prev, frame, before, col, r, idx) && (idx >= FRAME_SIZE || !Bit(r.mask, idx))
    ensures AppliedUpTo(prev, frame, before, col, r, idx + 1)
  {
  }

  /** The bits of one 64-bit mask block; bits beyond the frame are ignored. */
  method ApplyBlock(body: seq<Byte>, blockVal: nat, block: nat, kind: Byte, frame: array<Byte>, col: array<nat>,
                    ghost r: Record, ghost prev: seq<Byte>, ghost before: seq<nat>)
    requires frame.Length == FRAME_SIZE && col.Length == FRAME_SIZE && block < MASK_BLOCKS
    requires AppliedUpTo(prev, frame[..], before, col[..], r, 64 * block)
    requires CellsUnder(body, before, r) && kind == TypeOf(r)
    requires blockVal == Load(r.mask[8 * block..8 * block + 8])
    modifies frame, col
    ensures AppliedUpTo(prev, frame[..], before, col[..], r, 64 * block + 64)
  {
    assert r.Frame? && |r.mask| == MASK_SIZE;
    hide TestBit, Load, AppliedUpTo, CellsUnder;
    for bit := 0 to 64
      invariant AppliedUpTo(prev, frame[..], before, col[..], r, 64 * block + bit)
    {
      BlockBit(r.mask, block, bit);
      var idx := block * 64 + bit;
      if !TestBit(blockVal, bit) || idx >= FRAME_SIZE {
        SkipBit(prev, frame[..], before, col[..], r, idx);
        continue;
      }
      ApplyBit(body, idx, kind, frame, col, r, prev, before);
    }
  }

  lemma AppliedAll(prev: seq<Byte>, frame: seq<Byte>, before: seq<nat>, col: seq<nat>, r: Record)
    requires AppliedUpTo(prev, frame, before, col, r, 128)
    ensures frame == Apply(prev, r) && Advanced(before, col, r)
  {
  }

  lemma AppliedNone(body: seq<Byte>, prev: seq<Byte>, before: seq<nat>, r: Record)
    requires |prev| == |before| == FRAME_SIZE && r.Frame? && CellsUnder(body, before, r)
    ensures AppliedUpTo(prev, prev, before, before, r, 0)
  {
  }

  lemma BlocksDescribed(s: Sections, body: seq<Byte>)
    requires Describes(s, body)
    ensures Cuttable(body) && |body| >= HEADER_SIZE
    ensures s.flags == FlagsAt(body) && Field32(body, SIZE_FLAGS_AT) / MASK_BLOCKS == BlockSize(body)
  {
  }

  /** Reconstructs the frame of mask row `row` in place. */
  method ApplyRow(body: seq<Byte>, s: Sections, row: nat, kind: Byte, frame: array<Byte>, col: array<nat>,
      ghost r: Record)
    requires Describes(s, body) && row < |MasksOf(body)| && r.Frame? && MasksOf(body)[row] == r.mask
    requires frame.Length == FRAME_SIZE && col.Length == FRAME_SIZE
    requires CellsUnder(body, col[..], r) && kind == TypeOf(r)
    modifies frame, col
    ensures frame[..] == Apply(old(frame[..]), r) && Advanced(old(col[..]), col[..], r)
  {
    hide PassesChecks, Load, Apply, Advanced, FlagsAt, BlockSize, MasksOf, CellsUnder, TypeOf, Describes, Field32,
        Bit, Cuttable, AppliedUpTo;
    BlocksDescribed(s, body);
    var blockStreamSize := Field32(body, SIZE_FLAGS_AT) / MASK_BLOCKS;
    ghost var prev, before := frame[..], col[..];
    AppliedNone(body, prev, before, r);
    for block := 0 to MASK_BLOCKS
      invariant AppliedUpTo(prev, frame[..], before, col[..], r, 64 * block)
    {
      RowBytes(body, block, row);
      var at := s.flags + block * blockStreamSize + row * 8;
      ApplyBlock(body, Load(body[at..at + 8]), block, kind, frame, col, r, prev, before);
    }
    AppliedAll(prev, frame[..], before, col[..], r);
  }

  lemma ReplayStep(rs: seq<Record>, t: nat)
    requires AllWellFormed(rs) && t < |rs|
    ensures Replay(rs[..t + 1]) == Replay(rs[..t])
          + [if rs[t].Event? then OnEvent(t, rs[t].id) else OnFrame(t, TypeOf(rs[t]), FrameAfter(rs[..t + 1]))]
    ensures FrameAfter(rs[..t + 1]) == if rs[t].Event? then FrameAfter(rs[..t]) else Apply(FrameAfter(rs[..t]), rs[t])
  {
    assert rs[..t + 1][..t] == rs[..t];
  }

  /** One turn of the replay loop: the call made for record `t`. */
  method ReplayRecord(body: seq<Byte>, s: Sections, t: nat, row: nat, ev: nat, frame: array<Byte>, col: array<nat>,
                      ghost rs: seq<Record>)
    returns (call: Callback, row': nat, ev': nat)
    requires Describes(s, body) && col.Length == FRAME_SIZE && frame.Length == FRAME_SIZE
    requires ReadUpTo(body, rs, t, row, ev, col[..]) && t < |rs| && AllWellFormed(rs)
    requires frame[..] == FrameAfter(rs[..t])
    modifies frame, col
    ensures ReadUpTo(body, rs, t + 1, row', ev', col[..])
    ensures frame[..] == FrameAfter(rs[..t + 1])
    ensures Replay(rs[..t + 1]) == Replay(rs[..t]) + [call]
  {
    TypeUnder(body, rs, t);
    ReplayStep(rs, t);
    assert s.types == HEADER_SIZE;
    hide PassesChecks, Describes, ReadUpTo, Replay, FrameAfter, Apply, Advanced, CellsUnder;
    var kind := body[s.types + t];
    if kind == FRAMETYPE_EVENT {
      ReadEvent(body, rs, t, row, ev, col[..]);
      return OnEvent(t, body[ev]), row, ev + 1;
    }
    BeforeFrame(body, rs, t, row, ev, col[..]);
    ghost var before := col[..];
    ApplyRow(body, s, row, kind, frame, col, rs[t]);
    AfterFrame(body, rs, t, row, ev, before, col[..]);
    return OnFrame(t, kind, frame[..]), row + 1, ev;
  }

  method ReplayRecords(body: seq<Byte>, s: Sections, n: nat, col: array<nat>, ghost rs: seq<Record>)
    returns (log: seq<Callback>)
    requires Describes(s, body) && AllWellFormed(rs) && n == |rs| && col.Length == FRAME_SIZE
    requires ReadUpTo(body, rs, 0, 0, s.events, col[..])
    modifies col
    ensures log == Replay(rs)
  {
    hide Describes, ReadUpTo;
    var frame := new Byte[FRAME_SIZE](_ => 0);
    assert frame[..] == ZeroFrame();
    var ev, row := s.events, 0;
    log := [];
    for t := 0 to n
      invariant ReadUpTo(body, rs, t, row, ev, col[..])
      invariant frame[..] == FrameAfter(rs[..t])
      invariant log == Replay(rs[..t])
    {
      var call;
      call, row, ev := ReplayRecord(body, s, t, row, ev, frame, col, rs);
      log := log + [call];
    }
    assert rs[..n] == rs;
  }

  method ReplayHeld(body: seq<Byte>, s: Sections, ghost rs: seq<Record>) returns (log: seq<Callback>)
    requires Describes(s, body) && Holds(body, rs)
    ensures log == Replay(rs)
  {
    hide ReadUpTo, ColumnAt, ColumnsOf;
    var col := ColumnCursors(body, s);
    StartReading(body, s, rs, col[..]);
    log := ReplayRecords(body, s, Field32(body, SIZE_TYPES_AT), col, rs);
  }

  /** Replays a validated body from its column cursors. The calls it makes are those of a plain
      row-by-row decoder over the records the body represents. */
  method ForEachRecord(body: seq<Byte>, s: Sections) returns (log: seq<Callback>)
    requires Describes(s, body)
    ensures forall rs | Represents(body, rs) :: log == Replay(rs)
  {
    ghost var rs := HeldRecords(body);
    hide PassesChecks, Represents, Holds;
    log := ReplayHeld(body, s, rs);
  }
}
