/** How the writer turns captured frames into records: full keyframes and XOR deltas. */
module KrpDelta {
  import opened Bytes
  import opened KrpFormat

  // ---------------------------------------------------------------- keyframes

  /** `memset(&mask, 0xFF, sizeof(mask))`. */
  function FullMask(): (m: seq<Byte>)
    ensures |m| == MASK_SIZE
  {
    seq(MASK_SIZE, _ => 0xFF)
  }

  lemma FullMaskBits(i: nat)
    requires i < 8 * MASK_SIZE
    ensures Bit(FullMask(), i)
  {
    assert Pow2(8) == 0x100;
    AllOnes(8, i % 8);
  }

  function KeyRecord(frame: seq<Byte>): (r: Record)
    requires |frame| == FRAME_SIZE
    ensures WellFormed(r)
  {
    forall i: nat | i < FRAME_SIZE ensures Bit(FullMask(), i) { FullMaskBits(i); }
    Frame(true, FullMask(), frame)
  }

  lemma {:induction false} AllCells(frame: seq<Byte>, n: nat)
    requires |frame| == FRAME_SIZE && n <= FRAME_SIZE
    ensures Cells(FullMask(), frame, n) == frame[..n]
  {
    if n > 0 {
      AllCells(frame, n - 1);
      FullMaskBits(n - 1);
    }
  }

  /** A keyframe record on the wire: its type, sixteen 0xFF bytes, the whole frame. */
  lemma KeyRecordBytes(frame: seq<Byte>)
    requires |frame| == FRAME_SIZE
    ensures Encode(KeyRecord(frame)) == [FRAMETYPE_KEYFRAME] + FullMask() + frame
  {
    AllCells(frame, FRAME_SIZE);
    assert frame[..FRAME_SIZE] == frame;
  }

  lemma KeyframeDecodes(prev: seq<Byte>, frame: seq<Byte>)
    requires |prev| == FRAME_SIZE && |frame| == FRAME_SIZE
    ensures Apply(prev, KeyRecord(frame)) == frame
  {
    var f := Apply(prev, KeyRecord(frame));
    forall i: nat | i < FRAME_SIZE ensures f[i] == frame[i] {
      FullMaskBits(i);
      assert f[i] == ApplyByte(prev[i], KeyRecord(frame), i);
    }
  }

  // ---------------------------------------------------------------- deltas

  /** The mask after the frame bytes below `n` have been compared. */
  function DeltaMask(cur: seq<Byte>, last: seq<Byte>, n: nat): (m: seq<Byte>)
    requires |cur| == |last| == FRAME_SIZE && n <= FRAME_SIZE
    ensures |m| == MASK_SIZE
  {
    if n == 0 then seq(MASK_SIZE, _ => 0) else
      var m := DeltaMask(cur, last, n - 1);
      var i := n - 1;
      if cur[i] == last[i] then m else m[i / 8 := SetBit(m[i / 8], i % 8)]
  }

  /** `pMask[block] |= (1 << bit)` on a byte. */
  function SetBit(b: Byte, k: nat): Byte
    requires k < 8
  {
    assert Pow2(8) == 0x100;
    OrBitBound(b, k, 8);
    OrBit(b, k)
  }

  lemma {:induction false} DeltaMaskBits(cur: seq<Byte>, last: seq<Byte>, n: nat, j: nat)
    requires |cur| == |last| == FRAME_SIZE && n <= FRAME_SIZE && j < 8 * MASK_SIZE
    ensures Bit(DeltaMask(cur, last, n), j) <==> j < n && cur[j] != last[j]
  {
    if n == 0 {
      ZeroHasNoBits(j % 8);
    } else {
      var i := n - 1;
      DeltaMaskBits(cur, last, i, j);
      OrBitSets(DeltaMask(cur, last, i)[i / 8], i % 8, j % 8);
      hide TestBit, OrBit;
      if j / 8 == i / 8 && j % 8 == i % 8 { assert i == j; }
    }
  }

  function DeltaRecord(cur: seq<Byte>, last: seq<Byte>): (r: Record)
    requires |cur| == |last| == FRAME_SIZE
    ensures WellFormed(r)
  {
    forall i: nat | i < FRAME_SIZE
      ensures Bit(DeltaMask(cur, last, FRAME_SIZE), i) <==> cur[i] != last[i]
      ensures Xor(cur[i], last[i]) == 0 <==> cur[i] == last[i]
    {
      DeltaMaskBits(cur, last, FRAME_SIZE, i);
      XorRestores(last[i], cur[i]);
    }
    Frame(false, DeltaMask(cur, last, FRAME_SIZE),
          seq(FRAME_SIZE, i requires 0 <= i < FRAME_SIZE => Xor(cur[i], last[i])))
  }

  /** Applying a delta to the frame it was taken against restores the frame it was taken of. */
  lemma DeltaDecodes(cur: seq<Byte>, last: seq<Byte>)
    requires |cur| == |last| == FRAME_SIZE
    ensures Apply(last, DeltaRecord(cur, last)) == cur
  {
    var r := DeltaRecord(cur, last);
    var f := Apply(last, r);
    forall i: nat | i < FRAME_SIZE ensures f[i] == cur[i] {
      DeltaMaskBits(cur, last, FRAME_SIZE, i);
      XorRestores(last[i], cur[i]);
      assert f[i] == ApplyByte(last[i], r, i);
    }
  }

  /** Bit `k` of the byte a delta carries for frame byte `i` is set exactly if that bit differs in the frames. */
  lemma DeltaCarries(cur: seq<Byte>, last: seq<Byte>, i: nat, k: nat)
    requires |cur| == |last| == FRAME_SIZE && i < FRAME_SIZE && k < 8
    ensures TestBit(DeltaRecord(cur, last).vals[i], k) <==> (TestBit(cur[i], k) != TestBit(last[i], k))
  {
    XorBitByBit(cur[i], last[i], k);
  }

  /** And a reader flips exactly those bits of the byte it holds. */
  lemma DeltaFlips(prev: seq<Byte>, r: Record, i: nat, k: nat)
    requires |prev| == FRAME_SIZE && WellFormed(r) && r.Frame? && !r.key && i < FRAME_SIZE && k < 8
    ensures TestBit(Apply(prev, r)[i], k) <==> (TestBit(prev[i], k) != (Bit(r.mask, i) && TestBit(r.vals[i], k)))
  {
    XorBitByBit(prev[i], r.vals[i], k);
    assert Apply(prev, r)[i] == ApplyByte(prev[i], r, i);
  }

  /** The mask and the difference bytes that `kz_rp_write_delta` computes and writes: the body of the
      delta record, so decoding it against `last` gives `cur`. */
  method WriteDelta(cur: seq<Byte>, last: seq<Byte>) returns (bytes: seq<Byte>)
    requires |cur| == |last| == FRAME_SIZE
    ensures [FRAMETYPE_DELTA] + bytes == Encode(DeltaRecord(cur, last))
  {
    var r := DeltaRecord(cur, last);
    var mask := new Byte[MASK_SIZE](_ => 0);
    var buffer: seq<Byte> := [];
    assert mask[..] == DeltaMask(cur, last, 0);
    for i := 0 to FRAME_SIZE
      invariant mask[..] == DeltaMask(cur, last, i)
      invariant buffer == Cells(r.mask, r.vals, i)
    {
      var diff := Xor(cur[i], last[i]);
      DeltaMaskBits(cur, last, FRAME_SIZE, i);
      XorRestores(last[i], cur[i]);
      hide TestBit, Xor, OrBit;
      if diff != 0 {
        mask[i / 8] := SetBit(mask[i / 8], i % 8);
        buffer := buffer + [diff];
      }
    }
    bytes := mask[..] + buffer;
    assert [FRAMETYPE_DELTA] + bytes == [FRAMETYPE_DELTA] + mask[..] + buffer;
  }
}
