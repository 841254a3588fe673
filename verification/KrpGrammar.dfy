/** The record grammar of a raw capture is unambiguous: a byte string splits in exactly one way
    into whole records and a rest that is empty, cut inside a record, or of unknown type. */
module KrpGrammar {
  import opened Bytes
  import opened KrpFormat

  // ---------------------------------------------------------------- three kinds of rest

  /** `x` stops inside the record `r`. */
  predicate CutInside(x: seq<Byte>, r: Record) {
    WellFormed(r) && 0 < |x| < |Encode(r)| && x == Encode(r)[..|x|]
  }

  ghost predicate Cut(x: seq<Byte>) {
    exists r :: CutInside(x, r)
  }

  /** `x` starts with a type byte no record has. */
  predicate Unknown(x: seq<Byte>) {
    |x| > 0 && x[0] > FRAMETYPE_KEYFRAME
  }

  ghost predicate Stuck(x: seq<Byte>) {
    x == [] || Cut(x) || Unknown(x)
  }

  /** `b` is the records `rs` followed by `x`. */
  predicate Splits(b: seq<Byte>, rs: seq<Record>, x: seq<Byte>) {
    AllWellFormed(rs) && b == Serialise(rs) + x
  }

  /** `b` is a concatenation of whole records. */
  ghost predicate WholeRecords(b: seq<Byte>) {
    exists rs :: Splits(b, rs, [])
  }

  /** `b` ends inside a record. */
  ghost predicate EndsInside(b: seq<Byte>) {
    exists rs, x :: Splits(b, rs, x) && Cut(x)
  }

  /** After some whole records, `b` has an unknown type byte. */
  ghost predicate ReachesUnknown(b: seq<Byte>) {
    exists rs, x :: Splits(b, rs, x) && Unknown(x)
  }

  // ---------------------------------------------------------------- cells

  lemma {:induction false} CellsPrefix(mask: seq<Byte>, vals: seq<Byte>, n: nat, m: nat)
    requires |mask| == MASK_SIZE && |vals| == FRAME_SIZE && n <= m <= FRAME_SIZE
    ensures |Cells(mask, vals, n)| <= |Cells(mask, vals, m)|
    ensures Cells(mask, vals, n) == Cells(mask, vals, m)[..|Cells(mask, vals, n)|]
    ensures n < m && Bit(mask, n) ==> |Cells(mask, vals, n)| < |Cells(mask, vals, m)|
    decreases m - n
  {
    if n < m { CellsPrefix(mask, vals, n + 1, m); }
  }

  /** Cells only look at the values below `n`. */
  lemma {:induction false} CellsOfPrefix(mask: seq<Byte>, v: seq<Byte>, w: seq<Byte>, n: nat)
    requires |mask| == MASK_SIZE && |v| == |w| == FRAME_SIZE && n <= FRAME_SIZE
    requires v[..n] == w[..n]
    ensures Cells(mask, v, n) == Cells(mask, w, n)
  {
    if n > 0 {
      assert v[..n][n - 1] == w[..n][n - 1];
      assert v[..n - 1] == v[..n][..n - 1] == w[..n][..n - 1] == w[..n - 1];
      CellsOfPrefix(mask, v, w, n - 1);
    }
  }

  lemma {:induction false} CellsDetermineValues(mask: seq<Byte>, v: seq<Byte>, w: seq<Byte>, n: nat, x: seq<Byte>,
      y: seq<Byte>)
    requires |mask| == MASK_SIZE && |v| == |w| == FRAME_SIZE && n <= FRAME_SIZE
    requires Cells(mask, v, n) + x == Cells(mask, w, n) + y
    ensures x == y
    ensures forall i: nat | i < n && Bit(mask, i) :: v[i] == w[i]
  {
    if n == 0 {
      assert [] + x == x && [] + y == y;
    } else {
      var s := if Bit(mask, n - 1) then [v[n - 1]] else [];
      var t := if Bit(mask, n - 1) then [w[n - 1]] else [];
      Regroup(Cells(mask, v, n - 1), s, x);
      Regroup(Cells(mask, w, n - 1), t, y);
      CellsDetermineValues(mask, v, w, n - 1, s + x, t + y);
      SameHead(s, x, t, y);
    }
  }

  lemma Regroup<T>(a: seq<T>, b: seq<T>, c: seq<T>)
    ensures a + b + c == a + (b + c)
  {
  }

  // ---------------------------------------------------------------- records

  /** No record's encoding is a prefix of another's: the first record is determined by the bytes. */
  lemma EncodeIsPrefixFree(r: Record, x: seq<Byte>, q: Record, y: seq<Byte>)
    requires WellFormed(r) && WellFormed(q)
    requires Encode(r) + x == Encode(q) + y
    ensures r == q && x == y
  {
    assert (Encode(r) + x)[0] == TypeOf(r) && (Encode(q) + y)[0] == TypeOf(q);
    if r.Event? {
      SameHead(Encode(r), x, Encode(q), y);
      assert Encode(r)[1] == Encode(q)[1];
    } else {
      var c, d := Cells(r.mask, r.vals, FRAME_SIZE), Cells(q.mask, q.vals, FRAME_SIZE);
      var h := [TypeOf(r)];
      Regroup(h + r.mask, c, x); Regroup(h + q.mask, d, y);
      SameHead(h + r.mask, c + x, h + q.mask, d + y);
      SameHead(h, r.mask, h, q.mask);
      CellsDetermineValues(r.mask, r.vals, q.vals, FRAME_SIZE, x, y);
      assert r.vals == q.vals;
    }
  }

  lemma {:induction false} SerialiseFirst(rs: seq<Record>)
    requires AllWellFormed(rs) && rs != []
    ensures Serialise(rs) == Encode(rs[0]) + Serialise(rs[1..])
  {
    var n := |rs| - 1;
    if n > 0 {
      SerialiseFirst(rs[..n]);
      assert rs[..n][1..] == rs[1..][..n - 1];
      Regroup(Encode(rs[0]), Serialise(rs[1..][..n - 1]), Encode(rs[n]));
    }
  }

  lemma SplitFirst(rs: seq<Record>, x: seq<Byte>)
    requires AllWellFormed(rs) && rs != []
    ensures AllWellFormed(rs[1..]) && WellFormed(rs[0])
    ensures Serialise(rs) + x == Encode(rs[0]) + (Serialise(rs[1..]) + x)
  {
    SerialiseFirst(rs);
    Regroup(Encode(rs[0]), Serialise(rs[1..]), x);
  }

  lemma SameFirst(rs: seq<Record>, x: seq<Byte>, qs: seq<Record>, y: seq<Byte>)
    requires AllWellFormed(rs) && AllWellFormed(qs) && rs != [] && qs != []
    requires Serialise(rs) + x == Serialise(qs) + y
    ensures rs[0] == qs[0] && Serialise(rs[1..]) + x == Serialise(qs[1..]) + y
  {
    SplitFirst(rs, x);
    SplitFirst(qs, y);
    EncodeIsPrefixFree(rs[0], Serialise(rs[1..]) + x, qs[0], Serialise(qs[1..]) + y);
  }

  lemma NothingLeft(x: seq<Byte>, qs: seq<Record>, y: seq<Byte>)
    requires AllWellFormed(qs) && Stuck(x)
    requires Serialise([]) + x == Serialise(qs) + y
    ensures qs == [] && x == y
  {
    assert Serialise([]) + x == x;
    if qs != [] {
      SplitFirst(qs, y);
      StuckIsNoRecord(x, qs[0], Serialise(qs[1..]) + y);
    } else {
      assert Serialise(qs) + y == y;
    }
  }

  lemma SameCons<T>(s: seq<T>, t: seq<T>)
    requires |s| > 0 && |t| > 0 && s[0] == t[0] && s[1..] == t[1..]
    ensures s == t
  {
    assert s == [s[0]] + s[1..] && t == [t[0]] + t[1..];
  }

  /** The same bytes have only one split into whole records and a rest that is stuck. */
  lemma {:induction false} SplitIsUnique(rs: seq<Record>, x: seq<Byte>, qs: seq<Record>, y: seq<Byte>)
    requires AllWellFormed(rs) && AllWellFormed(qs) && Stuck(x) && Stuck(y)
    requires Serialise(rs) + x == Serialise(qs) + y
    ensures rs == qs && x == y
    decreases |rs|
  {
    if rs == [] {
      NothingLeft(x, qs, y);
    } else if qs == [] {
      NothingLeft(y, rs, x);
    } else {
      SameFirst(rs, x, qs, y);
      SplitIsUnique(rs[1..], x, qs[1..], y);
      SameCons(rs, qs);
    }
  }

  lemma StuckIsNoRecord(y: seq<Byte>, r: Record, z: seq<Byte>)
    requires WellFormed(r) && Stuck(y)
    ensures y != Encode(r) + z
  {
    if y == Encode(r) + z {
      assert y[0] == TypeOf(r);
      var q :| CutInside(y, q);
      var e := Encode(q);
      assert e == y + e[|y|..];
      Regroup(Encode(r), z, e[|y|..]);
      assert e == e + [];
      EncodeIsPrefixFree(r, z + e[|y|..], q, []);
    }
  }

  /** Whole records, cut inside a record, unknown type: a byte string is at most one of the three. */
  lemma OutcomesExclude(b: seq<Byte>)
    ensures !(WholeRecords(b) && EndsInside(b))
    ensures !(WholeRecords(b) && ReachesUnknown(b))
    ensures !(EndsInside(b) && ReachesUnknown(b))
  {
    forall rs, x, qs, y | Splits(b, rs, x) && Stuck(x) && Splits(b, qs, y) && Stuck(y)
      ensures x == y
    {
      SplitIsUnique(rs, x, qs, y);
    }
    assert forall x :: Cut(x) ==> x != [] && !Unknown(x);
  }

  /** The records of a byte string are determined by it. */
  lemma RecordsAreUnique(b: seq<Byte>, rs: seq<Record>, qs: seq<Record>)
    requires Splits(b, rs, []) && Splits(b, qs, [])
    ensures rs == qs
  {
    SplitIsUnique(rs, [], qs, []);
  }

  // ---------------------------------------------------------------- witnesses for a cut

  /** A frame type byte followed by fewer than 16 mask bytes is a cut frame record. */
  lemma CutInMask(key: bool, x: seq<Byte>)
    requires 0 < |x| < 1 + MASK_SIZE
    requires x[0] == if key then FRAMETYPE_KEYFRAME else FRAMETYPE_DELTA
    ensures Cut(x)
  {
    var r := Frame(key, x[1..] + Zeroes(MASK_SIZE + 1 - |x|), Zeroes(FRAME_SIZE));
    var e := Encode(r);
    assert e[..|x|] == x by {
      assert e[..17] == [TypeOf(r)] + r.mask;
      assert e[..17][..|x|] == e[..|x|];
    }
    assert CutInside(x, r);
  }

  /** The values read for the frame bytes below `n`, and 0 above. */
  predicate ReadSoFar(mask: seq<Byte>, vals: seq<Byte>, n: nat) {
    && |mask| == MASK_SIZE && |vals| == FRAME_SIZE && n <= FRAME_SIZE
    && (forall i: nat | i < FRAME_SIZE && !Bit(mask, i) :: vals[i] == 0)
    && (forall i: nat | n <= i < FRAME_SIZE :: vals[i] == 0)
  }

  /** Input that ends where mask bit `n` calls for one more byte is a cut frame record. */
  lemma CutInCells(key: bool, mask: seq<Byte>, vals: seq<Byte>, n: nat)
    requires ReadSoFar(mask, vals, n) && n < FRAME_SIZE && Bit(mask, n)
    ensures Cut([TypeOf(Frame(key, mask, vals))] + mask + Cells(mask, vals, n))
  {
    var r := Frame(key, mask, vals);
    var x := [TypeOf(r)] + mask + Cells(mask, vals, n);
    CellsPrefix(mask, vals, n, FRAME_SIZE);
    var c := Cells(mask, vals, FRAME_SIZE);
    assert Encode(r) == [TypeOf(r)] + mask + c;
    assert Encode(r)[..|x|] == [TypeOf(r)] + mask + c[..|Cells(mask, vals, n)|];
    assert CutInside(x, r);
  }

  lemma CutInEvent()
    ensures Cut([FRAMETYPE_EVENT])
  {
    assert CutInside([FRAMETYPE_EVENT], Event(0));
  }
}
