/** Which replay of a map is best, and which replays pruning by file name keeps. */
module Ranking {
  import opened Bytes
  import opened Options
  import opened ReplayNames

  /** A run's class (0 without gochecks, 1 with) and time in milliseconds. */
  type Rank = (nat, nat)

  /** `kz_replay_uid_is_better`. */
  predicate IsBetter(a: Rank, b: Rank) {
    if a.0 != b.0 then a.0 < b.0 else a.1 < b.1
  }

  /** `path::extension() == ".krpz"`: a name that is nothing but the extension has none. */
  predicate IsReplay(name: Text) {
    EndsInKrpz(name) && |name| > 5
  }

  predicate Ranked(name: Text) {
    IsReplay(name) && ParseUid(name).Some?
  }

  function RankOf(name: Text): Rank
    requires Ranked(name)
  {
    ParseUid(name).value
  }

  // ---------------------------------------------------------------- the best replay

  /** A ranked file no other ranked file is better than, if there is a ranked file. */
  predicate IsBest(files: set<Text>, best: Option<Text>) {
    match best
    case None => forall f | f in files :: !Ranked(f)
    case Some(b) => b in files && Ranked(b) && forall f | f in files && Ranked(f) :: !IsBetter(RankOf(f), RankOf(b))
  }

  function SetOf(s: seq<Text>): set<Text> {
    set f | f in s
  }

  /** One more file: it is best if it is the first ranked one or beats the best so far. */
  lemma NextBest(files: set<Text>, best: Option<Text>, name: Text)
    requires IsBest(files, best)
    ensures if Ranked(name) && (best.None? || IsBetter(RankOf(name), RankOf(best.value)))
      then IsBest(files + {name}, Some(name)) else IsBest(files + {name}, best)
  {
    hide Ranked, RankOf;
  }

  lemma TakeOneMore(s: seq<Text>, k: nat)
    requires k < |s|
    ensures SetOf(s[..k + 1]) == SetOf(s[..k]) + {s[k]}
  {
    assert s[..k + 1] == s[..k] + [s[k]];
  }

  /** `kz_replay_find_best_in_dir` over the regular files of a directory, in any order. */
  method FindBestInDir(listing: seq<Text>) returns (best: Option<Text>)
    ensures IsBest(SetOf(listing), best)
  {
    best := None;
    var bestClass, bestTimeMs := 2, U32 - 1;
    var k := 0;
    assert IsBest(SetOf(listing[..k]), best);
    while k < |listing|
      invariant 0 <= k <= |listing|
      invariant IsBest(SetOf(listing[..k]), best)
      invariant best.Some? ==> (bestClass, bestTimeMs) == RankOf(best.value)
    {
      hide SetOf, ParseUid, IsReplay, IsBetter;
      var name := listing[k];
      TakeOneMore(listing, k);
      NextBest(SetOf(listing[..k]), best, name);
      hide IsBest;
      k := k + 1;
      if !IsReplay(name) { continue; }
      var parsed := ParseUid(name);
      if parsed.None? { continue; }
      if best.None? || IsBetter(parsed.value, (bestClass, bestTimeMs)) {
        best := Some(name);
        bestClass, bestTimeMs := parsed.value.0, parsed.value.1;
      }
    }
    assert listing[..k] == listing;
  }

  /** The best class and time do not depend on the order in which the directory is read. */
  lemma BestRankIsUnique(files: set<Text>, a: Option<Text>, b: Option<Text>)
    requires IsBest(files, a) && IsBest(files, b)
    ensures a.None? <==> b.None?
    ensures a.Some? ==> RankOf(a.value) == RankOf(b.value)
  {
  }

  // ---------------------------------------------------------------- the order of names

  /** `std::string` order: by unsigned bytes, a proper prefix first. */
  predicate Less(a: Text, b: Text) {
    b != [] && (a == [] || a[0] < b[0] || (a[0] == b[0] && Less(a[1..], b[1..])))
  }

  lemma {:induction false} LessIsTotal(a: Text, b: Text)
    ensures !(Less(a, b) && Less(b, a)) && (a != b ==> Less(a, b) || Less(b, a))
  {
    if a != [] && b != [] {
      assert a == [a[0]] + a[1..] && b == [b[0]] + b[1..];
      if a[0] == b[0] { LessIsTotal(a[1..], b[1..]); }
    }
  }

  lemma {:induction false} LessIsTransitive(a: Text, b: Text, c: Text)
    requires Less(a, b) && Less(b, c)
    ensures Less(a, c)
  {
    if a != [] && b != [] && c != [] && a[0] == b[0] == c[0] { LessIsTransitive(a[1..], b[1..], c[1..]); }
  }

  lemma {:induction false} SamePrefix(p: Text, a: Text, b: Text)
    ensures Less(p + a, p + b) <==> Less(a, b)
  {
    if p == [] {
      assert p + a == a && p + b == b;
    } else {
      assert (p + a)[1..] == p[1..] + a && (p + b)[1..] == p[1..] + b;
      SamePrefix(p[1..], a, b);
    }
  }

  /** Among names that differ within equally long beginnings, the beginnings decide. */
  lemma {:induction false} BeginningsDecide(a: Text, x: Text, b: Text, y: Text)
    requires |a| == |b| && a != b
    ensures Less(a + x, b + y) <==> Less(a, b)
  {
    if a != [] {
      assert a == [a[0]] + a[1..] && b == [b[0]] + b[1..];
      if a[0] == b[0] {
        assert (a + x)[1..] == a[1..] + x && (b + y)[1..] == b[1..] + y;
        BeginningsDecide(a[1..], x, b[1..], y);
      }
    }
  }

  // ---------------------------------------------------------------- numbers in names

  lemma {:induction false} SameDigits(a: Text, b: Text)
    requires AllDigits(a) && AllDigits(b) && |a| == |b|
    ensures Value(a) == Value(b) <==> a == b
  {
    if a != [] {
      var n := |a| - 1;
      SameDigits(a[..n], b[..n]);
      assert a == a[..n] + [a[n]] && b == b[..n] + [b[n]];
    }
  }

  /** Digit strings of one length are ordered as the numbers they stand for. */
  lemma {:induction false} DigitsOrder(a: Text, b: Text)
    requires AllDigits(a) && AllDigits(b) && |a| == |b|
    ensures Less(a, b) <==> Value(a) < Value(b)
  {
    if a != [] {
      var n := |a| - 1;
      DigitsOrder(a[..n], b[..n]);
      SameDigits(a[..n], b[..n]);
      assert a == a[..n] + [a[n]] && b == b[..n] + [b[n]];
      if a[..n] == b[..n] {
        SamePrefix(a[..n], [a[n]], [b[n]]);
      } else {
        BeginningsDecide(a[..n], [a[n]], b[..n], [b[n]]);
      }
    }
  }

  /** A number without its last `e` digits. */
  function Leading(t: nat, e: nat): nat {
    if e == 0 then t else Leading(t / 10, e - 1)
  }

  lemma {:induction false} LeadingDigits(d: Text, n: nat)
    requires AllDigits(d) && n <= |d|
    ensures Value(d[..n]) == Leading(Value(d), |d| - n)
    decreases |d|
  {
    if n < |d| {
      LeadingDigits(d[..|d| - 1], n);
      assert d[..|d| - 1][..n] == d[..n];
      assert Value(d) / 10 == Value(d[..|d| - 1]);
    } else {
      assert d[..n] == d;
    }
  }

  function TimeDigits(t: nat): nat {
    |Decimal8(t)|
  }

  lemma EightDigits(t: nat)
    requires t < 100_000_000
    ensures TimeDigits(t) == 8
  {
    assert Pow10(4) == 10_000;
    assert Pow10(8) == 10 * (10 * (10 * (10 * Pow10(4))));
    DecimalLength(t, 8);
  }

  /** Digits closed by '_', which sorts after every digit. */
  lemma ClosedDigits(a: Text, b: Text, x: Text, y: Text)
    requires AllDigits(a) && AllDigits(b) && |a| <= |b| && a != b
    ensures Less(a + [UNDERSCORE] + x, b + [UNDERSCORE] + y) <==> Less(a, b[..|a|])
  {
    var n := |a|;
    var x', y' := [UNDERSCORE] + x, b[n..] + [UNDERSCORE] + y;
    assert a + [UNDERSCORE] + x == a + x' && b + [UNDERSCORE] + y == b[..n] + y';
    assert b[..|b|] == b;
    if a == b[..n] {
      SamePrefix(a, x', y');
      LessIsTotal(a, a);
      assert n < |b| && y'[0] == b[n] && IsDigit(b[n]);
    } else {
      BeginningsDecide(a, x', b[..n], y');
    }
  }

  /** The times in two names are compared as the digits they share; of two with the same such digits the
      shorter comes last. */
  lemma TimeOrder(s: nat, t: nat, x: Text, y: Text)
    requires TimeDigits(s) <= TimeDigits(t) && s != t
    ensures Less(Decimal8(s) + [UNDERSCORE] + x, Decimal8(t) + [UNDERSCORE] + y) <==>
            s < Leading(t, TimeDigits(t) - TimeDigits(s))
  {
    var a, b := Decimal8(s), Decimal8(t);
    hide Decimal8, Less;
    Decimal8Value(s);
    Decimal8Value(t);
    LeadingDigits(b, |a|);
    DigitsOrder(a, b[..|a|]);
    ClosedDigits(a, b, x, y);
  }

  // ---------------------------------------------------------------- names against ranks

  /** A finished run's file: class, time, and what follows them in the name. */
  datatype Run = Run(class_: nat, timeMs: nat, sid: Text, stamp: Text)

  predicate Valid(r: Run) {
    r.class_ < 10 && r.timeMs < U32
  }

  function FileName(r: Run): Text
    requires Valid(r)
  {
    RunUid(r.class_, r.timeMs, r.sid, r.stamp) + KRPZ
  }

  lemma FileRank(r: Run)
    requires Valid(r)
    ensures Ranked(FileName(r)) && RankOf(FileName(r)) == (r.class_, r.timeMs)
  {
    ParsePrinted(r.class_, r.timeMs, r.sid, r.stamp);
    var uid := RunUid(r.class_, r.timeMs, r.sid, r.stamp);
    assert (uid + KRPZ)[|uid + KRPZ| - 5..] == KRPZ;
  }

  lemma NameAfterClass(r: Run)
    requires Valid(r)
    ensures FileName(r) == [ZERO + r.class_,
        UNDERSCORE] + (Decimal8(r.timeMs) + [UNDERSCORE] + (r.sid + [UNDERSCORE] + r.stamp + KRPZ))
  {
  }

  lemma {:induction false} LongerIsMore(s: nat, t: nat)
    requires s <= t
    ensures |Decimal(s)| <= |Decimal(t)|
  {
    if s >= 10 { LongerIsMore(s / 10, t / 10); }
  }

  /** The part of time `t` that is compared with time `s`. */
  function Compared(t: nat, s: nat): nat {
    Leading(t, if TimeDigits(t) < TimeDigits(s) then 0 else TimeDigits(t) - TimeDigits(s))
  }

  /** Exactly when a better run's name comes first: the classes differ, or its time is smaller even than
      as many leading digits of the other. */
  lemma NameOrderOfBetter(a: Run, b: Run)
    requires Valid(a) && Valid(b) && IsBetter((a.class_, a.timeMs), (b.class_, b.timeMs))
    ensures Less(FileName(a), FileName(b)) <==> a.class_ != b.class_ || a.timeMs < Compared(b.timeMs, a.timeMs)
  {
    hide RunUid, FileName;
    NameAfterClass(a);
    NameAfterClass(b);
    var x, y := a.sid + [UNDERSCORE] + a.stamp + KRPZ, b.sid + [UNDERSCORE] + b.stamp + KRPZ;
    var p, q := Decimal8(a.timeMs) + [UNDERSCORE] + x, Decimal8(b.timeMs) + [UNDERSCORE] + y;
    if a.class_ == b.class_ {
      SamePrefix([ZERO + a.class_, UNDERSCORE], p, q);
      LongerIsMore(a.timeMs, b.timeMs);
      hide Decimal8;
      TimeOrder(a.timeMs, b.timeMs, x, y);
    }
  }

  // ---------------------------------------------------------------- names as FINISH gives them

  const LONG_RUN: nat := 100_000_000

  /** A ranked run shorter than 27 hours 46 minutes, or a name that begins after the digits, as an
      explicit prefix or the 'x' of a banned player does. */
  ghost predicate Ordinary(name: Text) {
    IsReplay(name) ==> name[0] > NINE || exists r :: Valid(r) && r.timeMs < LONG_RUN && name == FileName(r)
  }

  lemma LetterIsUnranked(name: Text)
    requires IsReplay(name) && name[0] > NINE
    ensures !Ranked(name)
  {
    OtherPrefixNeverParses(name);
  }

  /** Earlier names are no worse, and unranked names come last. */
  lemma NameOrderRefinesRank(a: Text, b: Text)
    requires IsReplay(a) && IsReplay(b) && Ordinary(a) && Ordinary(b) && Less(a, b) && Ranked(b)
    ensures Ranked(a) && !IsBetter(RankOf(b), RankOf(a))
  {
    assert a != [] && a[0] <= b[0];
    hide Ranked, RankOf, FileName, IsReplay, ParseUid;
    if b[0] > NINE { LetterIsUnranked(b); }
    var q :| Valid(q) && q.timeMs < LONG_RUN && b == FileName(q);
    FileRank(q);
    FirstIsClass(q);
    var r :| Valid(r) && r.timeMs < LONG_RUN && a == FileName(r);
    FileRank(r);
    EightDigits(q.timeMs);
    EightDigits(r.timeMs);
    if IsBetter((q.class_, q.timeMs), (r.class_, r.timeMs)) {
      NameOrderOfBetter(q, r);
      LessIsTotal(a, b);
    }
  }

  lemma FirstIsClass(r: Run)
    requires Valid(r)
    ensures FileName(r)[0] == ZERO + r.class_
  {
  }

  // ---------------------------------------------------------------- pruning

  function Replays(files: set<Text>): set<Text> {
    set f | f in files && IsReplay(f)
  }

  predicate Prunes(files: set<Text>, maxReplays: int, trigger: int, early: bool) {
    0 <= maxReplays < |Replays(files)| && (trigger == 0 || early)
  }

  /** What pruning leaves: everything, or the first `maxReplays` replays by name beside all other files. */
  predicate Pruned(files: set<Text>, left: set<Text>, maxReplays: int, trigger: int, early: bool) {
    if !Prunes(files, maxReplays, trigger, early) then left == files
    else
      && left <= files && (forall f | f in files && !IsReplay(f) :: f in left)
      && |Replays(left)| == maxReplays
      && forall k, f | k in Replays(left) && f in files - left :: Less(k, f)
  }

  /** How many replays pruning leaves: all of them when it is switched off or waits for the end of the map, and
      otherwise `maxReplays` at most. */
  lemma PruningCounts(files: set<Text>, left: set<Text>, maxReplays: int, trigger: int, early: bool)
    requires Pruned(files, left, maxReplays, trigger, early)
    ensures maxReplays < 0 || (trigger != 0 && !early) ==> left == files
    ensures maxReplays >= 0 && (trigger == 0 || early) ==>
      |Replays(left)| == if |Replays(files)| < maxReplays then |Replays(files)| else maxReplays
    ensures left <= files && forall f | f in files - left :: IsReplay(f)
  {
    hide IsReplay, Less, Replays;
  }

  function Insert(name: Text, s: seq<Text>): seq<Text> {
    if s == [] || Less(name, s[0]) then [name] + s else [s[0]] + Insert(name, s[1..])
  }

  /** `std::sort` by file name. */
  function SortNames(s: seq<Text>): seq<Text> {
    if s == [] then [] else Insert(s[0], SortNames(s[1..]))
  }

  /** Strictly increasing. */
  predicate Ascending(s: seq<Text>) {
    forall i, j | 0 <= i < j < |s| :: Less(s[i], s[j])
  }

  lemma {:induction false} InsertAscending(name: Text, s: seq<Text>)
    requires Ascending(s) && name !in s
    ensures Ascending(Insert(name, s)) && SetOf(Insert(name, s)) == {name} + SetOf(s) && |Insert(name, s)| == |s| + 1
  {
    if s != [] {
      assert s == [s[0]] + s[1..];
      if Less(name, s[0]) {
        forall j | 0 <= j < |s| ensures Less(name, s[j]) { if j > 0 { LessIsTransitive(name, s[0], s[j]); } }
      } else {
        LessIsTotal(name, s[0]);
        InsertAscending(name, s[1..]);
        var t := Insert(name, s[1..]);
        forall j | 0 <= j < |t| ensures Less(s[0], t[j]) {
          assert t[j] in SetOf(t);
          if t[j] != name { assert t[j] in s[1..]; }
        }
      }
    }
  }

  predicate Distinct(s: seq<Text>) {
    forall i, j | 0 <= i < j < |s| :: s[i] != s[j]
  }

  lemma {:induction false} SortedNames(s: seq<Text>)
    requires Distinct(s)
    ensures Ascending(SortNames(s)) && SetOf(SortNames(s)) == SetOf(s) && |SortNames(s)| == |s|
  {
    if s != [] {
      assert s == [s[0]] + s[1..];
      SortedNames(s[1..]);
      assert s[0] !in SetOf(s[1..]);
      InsertAscending(s[0], SortNames(s[1..]));
    }
  }

  lemma {:induction false} SizeOfDistinct(s: seq<Text>)
    requires Distinct(s)
    ensures |SetOf(s)| == |s|
  {
    if s != [] {
      SizeOfDistinct(s[1..]);
      assert SetOf(s) == {s[0]} + SetOf(s[1..]) by { assert s == [s[0]] + s[1..]; }
    }
  }

  predicate Lists(listing: seq<Text>, files: set<Text>) {
    Distinct(listing) && SetOf(listing) == files
  }

  method ReplaysOf(listing: seq<Text>) returns (replays: seq<Text>)
    requires Distinct(listing)
    ensures Distinct(replays) && SetOf(replays) == Replays(SetOf(listing))
  {
    replays := [];
    var k := 0;
    while k < |listing|
      invariant 0 <= k <= |listing|
      invariant Distinct(replays) && SetOf(replays) == Replays(SetOf(listing[..k]))
    {
      var name := listing[k];
      assert SetOf(listing[..k + 1]) == SetOf(listing[..k]) + {name};
      assert name !in SetOf(listing[..k]);
      if IsReplay(name) {
        assert name !in SetOf(replays);
        assert SetOf(replays + [name]) == SetOf(replays) + {name};
        replays := replays + [name];
      }
      k := k + 1;
    }
    assert listing[..k] == listing;
  }

  lemma Halves(s: seq<Text>, n: nat)
    requires Distinct(s) && n <= |s|
    ensures SetOf(s[..n]) == SetOf(s) - SetOf(s[n..])
  {
    assert s == s[..n] + s[n..];
    forall f | f in SetOf(s[..n]) ensures f in SetOf(s) && f !in SetOf(s[n..]) {
      var i :| 0 <= i < n && s[i] == f;
      assert s[i] in s && forall j | n <= j < |s| :: s[j] != f;
    }
  }

  /** Removing all but the first `n` of the sorted replays. */
  lemma FirstOnesStay(files: set<Text>, left: set<Text>, s: seq<Text>, n: nat)
    requires Ascending(s) && SetOf(s) == Replays(files) && n < |s| && left == files - SetOf(s[n..])
    ensures |Replays(left)| == n && forall k, f | k in Replays(left) && f in files - left :: Less(k, f)
    ensures forall f | f in files && !IsReplay(f) :: f in left
  {
    forall i, j | 0 <= i < j < |s| ensures s[i] != s[j] { LessIsTotal(s[i], s[j]); }
    assert Distinct(s);
    hide Less, IsReplay;
    assert Distinct(s[..n]);
    SizeOfDistinct(s[..n]);
    assert s == s[..n] + s[n..];
    forall f | f in files ensures f in SetOf(s[n..]) ==> f in Replays(files) {
      if f in SetOf(s[n..]) { assert f in s; assert f in SetOf(s); }
    }
    assert Replays(left) == SetOf(s[..n]) by { Halves(s, n); }
    forall k, f | k in Replays(left) && f in files - left ensures Less(k, f) {
      assert k in SetOf(s[..n]);
      var i :| 0 <= i < n && s[i] == k;
      var j :| n <= j < |s| && s[j] == f;
    }
  }

  method RemoveFrom(files: set<Text>, replays: seq<Text>, n: nat) returns (left: set<Text>)
    requires n <= |replays|
    ensures left == files - SetOf(replays[n..])
  {
    left := files;
    var i := n;
    while i < |replays|
      invariant n <= i <= |replays|
      invariant left == files - SetOf(replays[n..i])
    {
      assert replays[n..i + 1] == replays[n..i] + [replays[i]];
      assert SetOf(replays[n..i + 1]) == SetOf(replays[n..i]) + {replays[i]};
      left := left - {replays[i]};
      i := i + 1;
    }
    assert replays[n..i] == replays[n..];
  }

  /** `kz_rp_prune_replays` over a map's directory, listed in any order. */
  method PruneReplays(files: set<Text>, listing: seq<Text>, maxReplays: int, trigger: int,
      early: bool) returns (left: set<Text>)
    requires Lists(listing, files)
    ensures Pruned(files, left, maxReplays, trigger, early)
  {
    hide IsReplay, Ascending, Less, Replays, SetOf, Distinct;
    left := files;
    if maxReplays < 0 { return; }
    var replays := ReplaysOf(listing);
    SizeOfDistinct(replays);
    if |replays| <= maxReplays { return; }
    SortedNames(replays);
    replays := SortNames(replays);
    if trigger == 0 || early {
      left := RemoveFrom(files, replays, maxReplays);
      FirstOnesStay(files, left, replays, maxReplays);
    }
  }

  // ---------------------------------------------------------------- pruning against ranking

  ghost predicate AllOrdinary(files: set<Text>) {
    forall f | f in files :: Ordinary(f)
  }

  /** No removed replay is better than a kept one, and ranked ones are only removed when all kept ones are ranked. */
  lemma PruningKeepsTheBestOnes(files: set<Text>, left: set<Text>, maxReplays: int, trigger: int, early: bool,
      k: Text, f: Text)
    requires AllOrdinary(files) && Pruned(files, left, maxReplays, trigger, early)
    requires k in left && IsReplay(k) && f in files - left && Ranked(f)
    ensures Ranked(k) && !IsBetter(RankOf(f), RankOf(k))
  {
    assert k in Replays(left);
    assert Ordinary(k) && Ordinary(f) && Less(k, f);
    NameOrderRefinesRank(k, f);
  }

  /** Pruning to at least one replay does not change the best class and time. */
  lemma PruningKeepsTheBest(files: set<Text>, left: set<Text>, maxReplays: int, trigger: int, early: bool,
                            before: Option<Text>, after: Option<Text>)
    requires AllOrdinary(files) && Pruned(files, left, maxReplays, trigger, early) && maxReplays != 0
    requires IsBest(files, before) && IsBest(left, after)
    ensures before.None? <==> after.None?
    ensures before.Some? ==> RankOf(before.value) == RankOf(after.value)
  {
    hide Ranked, RankOf, Ordinary, Less;
    if before.Some? && before.value !in left {
      var b := before.value;
      assert Replays(left) != {};
      var k :| k in Replays(left);
      PruningKeepsTheBestOnes(files, left, maxReplays, trigger, early, k, b);
      BestIsFound(left, after, k);
      BestIsFound(files, before, after.value);
      PruningKeepsTheBestOnes(files, left, maxReplays, trigger, early, after.value, b);
    } else if before.Some? {
      BestIsFound(left, after, before.value);
      BestIsFound(files, before, after.value);
    }
  }

  lemma BestIsFound(files: set<Text>, best: Option<Text>, f: Text)
    requires IsBest(files, best) && f in files && Ranked(f)
    ensures best.Some? && best.value in files && Ranked(best.value) && IsReplay(best.value)
    ensures !IsBetter(RankOf(f), RankOf(best.value))
  {
  }

  lemma {:induction false} ManyDigits(n: nat, k: nat)
    requires n >= Pow10(k)
    ensures |Decimal(n)| > k
  {
    if k > 0 { ManyDigits(n / 10, k - 1); }
  }

  lemma OneOfTwo(x: Text, y: Text, left: set<Text>, trigger: int, early: bool)
    requires x != y && IsReplay(x) && IsReplay(y) && (trigger == 0 || early)
    requires Pruned({x, y}, left, 1, trigger, early)
    ensures (left == {x} && Less(x, y)) || (left == {y} && Less(y, x))
  {
    hide IsReplay, Less;
    assert Replays({x, y}) == {x, y} && Replays(left) == left;
    var z :| z in left;
    assert |left - {z}| == 0;
    assert left == {z} && (z == x || z == y);
  }

  /** Without a bound on times: pruning a better and a worse run to one keeps the better exactly if the
      classes differ or the better time is below the digits of the worse one it is compared with. */
  lemma PruningAPair(a: Run, b: Run, left: set<Text>, trigger: int, early: bool)
    requires Valid(a) && Valid(b) && IsBetter((a.class_, a.timeMs), (b.class_, b.timeMs)) && (trigger == 0 || early)
    requires Pruned({FileName(a), FileName(b)}, left, 1, trigger, early)
    ensures FileName(a) in left <==> a.class_ != b.class_ || a.timeMs < Compared(b.timeMs, a.timeMs)
  {
    FileRank(a);
    FileRank(b);
    assert FileName(a) != FileName(b);
    hide FileName, Less, Pruned, ParseUid;
    OneOfTwo(FileName(a), FileName(b), left, trigger, early);
    NameOrderOfBetter(a, b);
    LessIsTotal(FileName(a), FileName(b));
  }

  lemma LongRunDigits()
    ensures LONG_RUN - 1 >= Compared(LONG_RUN, LONG_RUN - 1)
  {
    EightDigits(LONG_RUN - 1);
    assert Pow10(4) == 10_000;
    assert Pow10(8) == 10 * (10 * (10 * (10 * Pow10(4))));
    ManyDigits(LONG_RUN, 8);
    LeadingIsLess(LONG_RUN, TimeDigits(LONG_RUN) - 8);
  }

  /** The condition fails for a run of 27 hours 46 minutes 40 seconds and one a millisecond faster: the slower name
      sorts first, and pruning the two to one deletes the better. */
  lemma LongRunsAreMisplaced(sid: Text, stamp: Text, left: set<Text>)
    requires var slow, fast := FileName(Run(0, LONG_RUN, sid, stamp)), FileName(Run(0, LONG_RUN - 1, sid, stamp));
      Pruned({slow, fast}, left, 1, 0, false)
    ensures LONG_RUN - 1 >= Compared(LONG_RUN, LONG_RUN - 1)
    ensures var slow, fast := FileName(Run(0, LONG_RUN, sid, stamp)), FileName(Run(0, LONG_RUN - 1, sid, stamp));
      && Ranked(slow) && Ranked(fast) && IsBetter(RankOf(fast), RankOf(slow))
      && Less(slow, fast) && left == {slow}
  {
    var s, f := Run(0, LONG_RUN, sid, stamp), Run(0, LONG_RUN - 1, sid, stamp);
    FileRank(s);
    FileRank(f);
    LongRunDigits();
    hide FileName, Less, Pruned, ParseUid, Compared, Ranked, RankOf;
    assert FileName(s) != FileName(f);
    RankedIsReplay(FileName(s));
    RankedIsReplay(FileName(f));
    OneOfTwo(FileName(s), FileName(f), left, 0, false);
    NameOrderOfBetter(f, s);
  }

  lemma RankedIsReplay(name: Text)
    requires Ranked(name)
    ensures IsReplay(name)
  {
  }

  lemma {:induction false} LeadingIsLess(t: nat, e: nat)
    requires e > 0
    ensures Leading(t, e) <= t / 10
  {
    if e > 1 { LeadingIsLess(t / 10, e - 1); }
  }

  // ---------------------------------------------------------------- any directory, any limit

  /** The replays whose names sort before a name. */
  function Before(files: set<Text>, f: Text): set<Text> {
    set g | g in Replays(files) && Less(g, f)
  }

  /** Exactly which replays are kept: those with fewer than `maxReplays` before them. */
  lemma KeptExactly(files: set<Text>, left: set<Text>, maxReplays: int, trigger: int, early: bool, f: Text)
    requires Prunes(files, maxReplays, trigger, early) && Pruned(files, left, maxReplays, trigger, early)
    requires f in Replays(files)
    ensures f in left <==> |Before(files, f)| < maxReplays
  {
    hide IsReplay, Less;
    if f in left {
      forall g | g in Before(files, f) ensures g in Replays(left) - {f} {
        LessIsTotal(f, g);
        LessIsTotal(f, f);
      }
      Fewer(Before(files, f), Replays(left) - {f});
    } else {
      Fewer(Replays(left), Before(files, f));
    }
  }

  lemma {:induction false} Fewer(a: set<Text>, b: set<Text>)
    requires a <= b
    ensures |a| <= |b|
  {
    if a != {} {
      var x :| x in a;
      Fewer(a - {x}, b - {x});
    }
  }

  /** Some removed replay outranks a kept one. */
  ghost predicate Outranked(files: set<Text>, left: set<Text>) {
    exists f, k :: f in files - left && k in left && Ranked(f) && Ranked(k) && IsBetter(RankOf(f), RankOf(k))
  }

  /** Every ranked replay is named as FINISH names runs, however long they were. */
  ghost predicate AllNamed(files: set<Text>) {
    forall f | f in files && Ranked(f) :: exists r :: Valid(r) && f == FileName(r)
  }

  /** `b` is better than `a`, and its name sorts after that of `a`. */
  predicate Misplaced(b: Run, a: Run) {
    && Valid(a) && Valid(b) && IsBetter((b.class_, b.timeMs), (a.class_, a.timeMs))
    && b.class_ == a.class_ && b.timeMs >= Compared(a.timeMs, b.timeMs)
  }

  lemma MisplacedOrder(b: Run, a: Run)
    requires Valid(a) && Valid(b)
    ensures Misplaced(b, a) <==> IsBetter((b.class_, b.timeMs), (a.class_, a.timeMs)) && Less(FileName(a), FileName(b))
  {
    FileRank(a);
    FileRank(b);
    hide FileName, Less, ParseUid, Compared;
    if IsBetter((b.class_, b.timeMs), (a.class_, a.timeMs)) {
      NameOrderOfBetter(b, a);
      LessIsTotal(FileName(a), FileName(b));
    }
  }

  /** A misplaced pair of a directory that a limit separates. */
  predicate Parted(files: set<Text>, maxReplays: int, b: Run, a: Run) {
    && Misplaced(b, a) && FileName(a) in files && FileName(b) in files
    && |Before(files, FileName(a))| < maxReplays <= |Before(files, FileName(b))|
  }

  lemma PartedOutranks(files: set<Text>, left: set<Text>, maxReplays: int, trigger: int, early: bool, b: Run, a: Run)
    requires Prunes(files, maxReplays, trigger, early) && Pruned(files, left, maxReplays, trigger, early)
    requires Parted(files, maxReplays, b, a)
    ensures Outranked(files, left)
  {
    FileRank(a);
    FileRank(b);
    RankedIsReplay(FileName(a));
    RankedIsReplay(FileName(b));
    hide FileName, Pruned, Less, ParseUid, Ranked, RankOf, IsReplay, Before, Compared, Prunes;
    assert FileName(a) in Replays(files) && FileName(b) in Replays(files);
    KeptExactly(files, left, maxReplays, trigger, early, FileName(a));
    KeptExactly(files, left, maxReplays, trigger, early, FileName(b));
    assert FileName(b) in files - left && FileName(a) in left;
  }

  lemma OutrankedIsParted(files: set<Text>, left: set<Text>, maxReplays: int, trigger: int, early: bool,
                          f: Text, k: Text)
      returns (b: Run, a: Run)
    requires AllNamed(files) && Prunes(files, maxReplays, trigger, early) &&
      Pruned(files, left, maxReplays, trigger, early)
    requires f in files - left && k in left && Ranked(f) && Ranked(k) && IsBetter(RankOf(f), RankOf(k))
    ensures Parted(files, maxReplays, b, a)
  {
    assert k in files;
    a :| Valid(a) && k == FileName(a);
    b :| Valid(b) && f == FileName(b);
    FileRank(a);
    FileRank(b);
    RankedIsReplay(k);
    RankedIsReplay(f);
    assert k in Replays(left) && Less(k, f);
    hide FileName, Pruned, Less, ParseUid, Ranked, RankOf, IsReplay, Before, Compared, Prunes, Misplaced;
    assert k in Replays(files) && f in Replays(files);
    KeptExactly(files, left, maxReplays, trigger, early, k);
    KeptExactly(files, left, maxReplays, trigger, early, f);
    MisplacedOrder(b, a);
  }

  /** Exactly when pruning a directory to any number removes a replay that outranks a kept one: a misplaced pair of
      runs lies on either side of the limit. */
  lemma PruningGoesWrongExactly(files: set<Text>, left: set<Text>, maxReplays: int, trigger: int, early: bool)
    requires AllNamed(files) && Prunes(files, maxReplays, trigger, early) &&
      Pruned(files, left, maxReplays, trigger, early)
    ensures Outranked(files, left) <==> exists b, a :: Parted(files, maxReplays, b, a)
  {
    hide AllNamed, Pruned, Prunes, Parted, Ranked, RankOf;
    if Outranked(files, left) {
      var f, k :| f in files - left && k in left && Ranked(f) && Ranked(k) && IsBetter(RankOf(f), RankOf(k));
      var b, a := OutrankedIsParted(files, left, maxReplays, trigger, early, f, k);
    }
    if b, a :| Parted(files, maxReplays, b, a) {
      PartedOutranks(files, left, maxReplays, trigger, early, b, a);
    }
  }

  lemma {:induction false} Listed(files: set<Text>) returns (s: seq<Text>)
    ensures Distinct(s) && SetOf(s) == files
    decreases |files|
  {
    if files == {} {
      s := [];
    } else {
      var f :| f in files;
      var t := Listed(files - {f});
      assert f !in SetOf(t);
      s := [f] + t;
      assert SetOf(s) == {f} + SetOf(t);
    }
  }

  /** Every directory can be pruned to every number below its replays. */
  lemma PruningIsPossible(files: set<Text>, n: nat) returns (left: set<Text>)
    requires n < |Replays(files)|
    ensures Pruned(files, left, n, 0, false)
  {
    hide IsReplay, Less, Ascending, SetOf, Distinct;
    var s := Listed(Replays(files));
    SizeOfDistinct(s);
    SortedNames(s);
    left := files - SetOf(SortNames(s)[n..]);
    FirstOnesStay(files, left, SortNames(s), n);
  }

  predicate MisplacedIn(files: set<Text>, b: Run, a: Run) {
    Misplaced(b, a) && FileName(a) in files && FileName(b) in files
  }

  /** Exactly when some limit goes wrong for a directory: it holds a misplaced pair. */
  lemma SomePruningGoesWrongExactly(files: set<Text>)
    requires AllNamed(files)
    ensures (exists n: nat, left ::
        Prunes(files, n, 0, false) && Pruned(files, left, n, 0, false) && Outranked(files, left))
      <==> exists b, a :: MisplacedIn(files, b, a)
  {
    hide AllNamed, Pruned, Prunes, Misplaced, Outranked, FileName, Less, Before;
    if n: nat, left :| Prunes(files, n, 0, false) && Pruned(files, left, n, 0, false) && Outranked(files, left) {
      PruningGoesWrongExactly(files, left, n, 0, false);
      var b, a :| Parted(files, n, b, a);
      assert MisplacedIn(files, b, a);
    }
    if b, a :| MisplacedIn(files, b, a) {
      var n := PairParted(files, b, a);
      PrunedBelow(files, n);
      var left := PruningIsPossible(files, n);
      PartedOutranks(files, left, n, 0, false, b, a);
    }
  }

  lemma PrunedBelow(files: set<Text>, n: nat)
    ensures Prunes(files, n, 0, false) <==> n < |Replays(files)|
  {
  }

  lemma PairParted(files: set<Text>, b: Run, a: Run) returns (n: nat)
    requires Misplaced(b, a) && FileName(a) in files && FileName(b) in files
    ensures Parted(files, n, b, a) && Prunes(files, n, 0, false)
  {
    var fa, fb := FileName(a), FileName(b);
    FileRank(a);
    FileRank(b);
    MisplacedOrder(b, a);
    hide FileName, Less, ParseUid, Misplaced, IsReplay, Compared;
    n := |Before(files, fb)|;
    LessIsTotal(fa, fa);
    LessIsTotal(fb, fb);
    forall g | g in Before(files, fa) ensures g in Before(files, fb) - {fa} { LessIsTransitive(g, fa, fb); }
    assert fa in Before(files, fb);
    Fewer(Before(files, fa), Before(files, fb) - {fa});
    Fewer(Before(files, fb), Replays(files) - {fb});
  }
}
