/** Replay file names: how FINISH composes them, how they are parsed back, and base-36 timestamps. */
module ReplayNames {
  import opened Options
  import opened Bytes

  type Text = seq<Byte>

  const ZERO: Byte := '0' as int
  const NINE: Byte := '9' as int
  const UNDERSCORE: Byte := '_' as int
  const MINUS: Byte := '-' as int
  const PLUS: Byte := '+' as int

  predicate IsDigit(c: Byte) {
    ZERO <= c <= NINE
  }

  predicate AllDigits(s: Text) {
    forall k | 0 <= k < |s| :: IsDigit(s[k])
  }

  /** `kz_ws_valid_replay_segment`. */
  predicate ValidSegment(s: Text) {
    && s != [] && s != ['.' as int] && s != ['.' as int, '.' as int]
    && forall k | 0 <= k < |s| :: SegmentChar(s[k])
  }

  predicate SegmentChar(c: Byte) {
    || 'a' as int <= c <= 'z' as int || 'A' as int <= c <= 'Z' as int || IsDigit(c)
    || c == UNDERSCORE || c == MINUS || c == '.' as int
  }

  /** A usable segment names nothing outside its directory: it holds no separator, no drive, no terminator, and is
      neither the directory itself nor its parent. */
  lemma SegmentsStayInside(s: Text)
    requires ValidSegment(s)
    ensures '/' as int !in s && '\\' as int !in s && ':' as int !in s && 0 !in s && s != []
    ensures s != ['.' as int] && s != ['.' as int, '.' as int]
  {
    assert forall k | 0 <= k < |s| :: SegmentChar(s[k]);
  }

  // ---------------------------------------------------------------- decimal numbers

  function Value(s: Text): nat
    requires AllDigits(s)
  {
    if s == [] then 0 else 10 * Value(s[..|s| - 1]) + (s[|s| - 1] - ZERO)
  }

  /** `%u`. */
  function Decimal(n: nat): (s: Text)
    ensures s != [] && AllDigits(s)
  {
    if n < 10 then [ZERO + n] else Decimal(n / 10) + [ZERO + n % 10]
  }

  lemma {:induction false} DecimalValue(n: nat)
    ensures Value(Decimal(n)) == n
  {
    if n < 10 {
      assert Value([ZERO + n]) == 10 * Value([]) + n;
    } else {
      DecimalValue(n / 10);
      assert Decimal(n)[..|Decimal(n)| - 1] == Decimal(n / 10);
    }
  }

  function ZeroDigits(k: nat): (s: Text)
    ensures |s| == k && AllDigits(s)
  {
    if k == 0 then [] else [ZERO] + ZeroDigits(k - 1)
  }

  /** `%08u`. */
  function Decimal8(n: nat): (s: Text)
    ensures |s| >= 8 && AllDigits(s)
  {
    var d := Decimal(n);
    if |d| < 8 then ZeroDigits(8 - |d|) + d else d
  }

  lemma {:induction false} ValueOfPadded(k: nat, s: Text)
    requires AllDigits(s)
    ensures AllDigits(ZeroDigits(k) + s) && Value(ZeroDigits(k) + s) == Value(s)
    decreases |s| + k
  {
    var t := ZeroDigits(k) + s;
    if s == [] {
      assert t == ZeroDigits(k);
      if k > 0 {
        assert ZeroDigits(k)[..k - 1] == ZeroDigits(k - 1) && ZeroDigits(k)[k - 1] == ZERO by {
          ZeroDigitsAt(k, k - 1);
        }
        ValueOfPadded(k - 1, []);
        assert ZeroDigits(k - 1) + [] == ZeroDigits(k - 1);
      }
    } else {
      assert t[..|t| - 1] == ZeroDigits(k) + s[..|s| - 1];
      ValueOfPadded(k, s[..|s| - 1]);
    }
  }

  lemma {:induction false} ZeroDigitsAt(k: nat, j: nat)
    requires j < k
    ensures ZeroDigits(k)[j] == ZERO && ZeroDigits(k)[..j] == ZeroDigits(j)
  {
    if j > 0 {
      ZeroDigitsAt(k - 1, j - 1);
      assert ZeroDigits(k)[..j] == [ZERO] + ZeroDigits(k - 1)[..j - 1];
    }
  }

  lemma Decimal8Value(n: nat)
    ensures Value(Decimal8(n)) == n
  {
    DecimalValue(n);
    if |Decimal(n)| < 8 { ValueOfPadded(8 - |Decimal(n)|, Decimal(n)); }
  }

  lemma {:induction false} DecimalLength(n: nat, k: nat)
    requires 0 < k && n < Pow10(k)
    ensures |Decimal(n)| <= k
    decreases n
  {
    assert Pow10(1) == 10;
    if n >= 10 { DecimalLength(n / 10, k - 1); }
  }

  function Pow10(k: nat): nat {
    if k == 0 then 1 else 10 * Pow10(k - 1)
  }

  // ---------------------------------------------------------------- strtol and strtoul

  predicate IsSpace(c: Byte) {
    c == 0x20 || 0x09 <= c <= 0x0D
  }

  function SkipSpace(s: Text): Text {
    if s != [] && IsSpace(s[0]) then SkipSpace(s[1..]) else s
  }

  /** The digits `strtol(s, &end, 10)` converts, and whether a minus sign precedes them, if it
      converts anything and stops only at the end of `s`. */
  function WholeNumber(s: Text): Option<(bool, nat)> {
    var t := SkipSpace(s);
    var signed := t != [] && (t[0] == MINUS || t[0] == PLUS);
    var d := if signed then t[1..] else t;
    if d != [] && AllDigits(d) then Some((signed && t[0] == MINUS, Value(d))) else None
  }

  /** Tab, line feed, vertical tab, form feed, carriage return and blank. */
  const WHITE_SPACE: Text := [0x09, 0x0A, 0x0B, 0x0C, 0x0D, 0x20]

  /** White space, an optional sign, and at least one digit. */
  predicate IsNumber(s: Text, space: Text, sign: Text, digits: Text) {
    && s == space + sign + digits && (forall k | 0 <= k < |space| :: space[k] in WHITE_SPACE)
    && (sign == [] || sign == [PLUS] || sign == [MINUS]) && digits != [] && AllDigits(digits)
  }

  lemma {:induction false} SkipsSpace(space: Text, rest: Text)
    requires (forall k | 0 <= k < |space| :: IsSpace(space[k])) && rest != [] && !IsSpace(rest[0])
    ensures SkipSpace(space + rest) == rest
  {
    if space == [] {
      assert space + rest == rest;
    } else {
      assert (space + rest)[0] == space[0] && (space + rest)[1..] == space[1..] + rest;
      SkipsSpace(space[1..], rest);
    }
  }

  lemma {:induction false} SpaceSkipped(s: Text) returns (space: Text)
    ensures s == space + SkipSpace(s) && forall k | 0 <= k < |space| :: IsSpace(space[k])
  {
    space := [];
    if s != [] && IsSpace(s[0]) {
      var rest := SpaceSkipped(s[1..]);
      space := [s[0]] + rest;
      assert s == [s[0]] + s[1..];
    }
  }

  /** What `strtol` reads of such a text is its digits, and whether they are negated. */
  lemma NumberIsRead(s: Text, space: Text, sign: Text, digits: Text)
    requires IsNumber(s, space, sign, digits)
    ensures WholeNumber(s) == Some((sign == [MINUS], Value(digits)))
  {
    var t := sign + digits;
    assert s == space + t && IsDigit(digits[0]);
    forall k | 0 <= k < |space| ensures IsSpace(space[k]) { assert space[k] in WHITE_SPACE; }
    SkipsSpace(space, t);
    if sign != [] { assert t[0] == sign[0] && t[1..] == digits; } else { assert t == digits; }
  }

  /** And it reads nothing else to the end. */
  lemma OnlyNumbersAreRead(s: Text) returns (space: Text, sign: Text, digits: Text)
    requires WholeNumber(s).Some?
    ensures IsNumber(s, space, sign, digits)
  {
    space := SpaceSkipped(s);
    var t := SkipSpace(s);
    forall k | 0 <= k < |space| ensures space[k] in WHITE_SPACE { SpaceIsWhite(space[k]); }
    hide SkipSpace, IsSpace, Value;
    var signed := t != [] && (t[0] == MINUS || t[0] == PLUS);
    sign := if signed then [t[0]] else [];
    digits := if signed then t[1..] else t;
    Regrouped(s, space, t, sign, digits);
  }

  lemma SpaceIsWhite(c: Byte)
    requires IsSpace(c)
    ensures c in WHITE_SPACE
  {
    assert WHITE_SPACE[0] == 0x09 && WHITE_SPACE[1] == 0x0A && WHITE_SPACE[2] == 0x0B && WHITE_SPACE[3] == 0x0C;
    assert WHITE_SPACE[4] == 0x0D && WHITE_SPACE[5] == 0x20;
  }

  lemma Regrouped(s: Text, space: Text, t: Text, sign: Text, digits: Text)
    requires s == space + t
    requires if sign == [] then digits == t else |sign| == 1 && t != [] && sign[0] == t[0] && digits == t[1..]
    ensures s == space + sign + digits
  {
    assert t == sign + digits;
  }

  /** A negative time reads as its complement modulo 2^32. */
  lemma NegatedIsComplement(v: nat)
    requires v < U32
    ensures (Unsigned32(true, v) + v) % U32 == 0 && Unsigned32(false, v) == v
  {
  }

  lemma PlainNumber(s: Text)
    requires s != [] && AllDigits(s)
    ensures WholeNumber(s) == Some((false, Value(s)))
  {
    assert IsDigit(s[0]);
  }

  /** `strtoul` on a platform with 32-bit `unsigned long`: saturating, and negated after that when a
      sign precedes a value in range. */
  function Unsigned32(neg: bool, v: nat): (n: nat)
    ensures n < U32
  {
    if v >= U32 then U32 - 1 else if neg then (U32 - v) % U32 else v
  }

  // ---------------------------------------------------------------- names of finished runs

  /** `snprintf("%d_%08u_%s_%s", class, time_ms, steamid, base-36 timestamp)`. */
  function RunUid(class_: nat, timeMs: nat, sid: Text, ts: Text): (s: Text)
    requires class_ < 10
    ensures |s| > 2 && s[0] == ZERO + class_ && s[1] == UNDERSCORE
  {
    [ZERO + class_, UNDERSCORE] + Decimal8(timeMs) + [UNDERSCORE] + sid + [UNDERSCORE] + ts
  }

  const KRPZ: Text := ['.' as int, 'k' as int, 'r' as int, 'p' as int, 'z' as int]

  predicate EndsInKrpz(s: Text) {
    |s| >= 5 && s[|s| - 5..] == KRPZ
  }

  /** `std::string::find('_', from)`. */
  function Find(s: Text, from: nat): (r: Option<nat>)
    ensures r.Some? ==> from <= r.value < |s| && s[r.value] == UNDERSCORE
    ensures r.Some? ==> forall k | from <= k < r.value :: s[k] != UNDERSCORE
    ensures r.None? ==> forall k | from <= k < |s| :: s[k] != UNDERSCORE
    decreases |s| - from
  {
    if from >= |s| then None else if s[from] == UNDERSCORE then Some(from) else Find(s, from + 1)
  }

  function Stem(filename: Text): Text {
    if EndsInKrpz(filename) then filename[..|filename| - 5] else filename
  }

  function ParseStem(stem: Text): (r: Option<(nat, nat)>)
    ensures r.Some? ==> r.value.0 <= 9 && r.value.1 < U32
  {
    var sep1 := Find(stem, 0);
    if sep1.None? || sep1.value == 0 then None else
    var sep2 := Find(stem, sep1.value + 1);
    if sep2.None? || sep2.value <= sep1.value + 1 then None else
    var cls := WholeNumber(stem[..sep1.value]);
    if cls.None? || (cls.value.0 && cls.value.1 != 0) || cls.value.1 > 9 then None else
    var ms := WholeNumber(stem[sep1.value + 1..sep2.value]);
    if ms.None? then None else Some((cls.value.1, Unsigned32(ms.value.0, ms.value.1)))
  }

  /** `kz_replay_parse_uid`: the run class and the time in milliseconds. */
  function ParseUid(filename: Text): (r: Option<(nat, nat)>)
    ensures r.Some? ==> r.value.0 <= 9 && r.value.1 < U32
  {
    ParseStem(Stem(filename))
  }

  /** A name of at least three parts, the first two of them not empty. */
  predicate Parts(stem: Text, first: Text, second: Text, rest: Text) {
    && stem == first + [UNDERSCORE] + second + [UNDERSCORE] + rest
    && first != [] && second != [] && UNDERSCORE !in first && UNDERSCORE !in second
  }

  /** A class is a number up to 9, and not negative. */
  predicate IsClass(first: Text, class_: nat) {
    && WholeNumber(first).Some? && WholeNumber(first).value.1 == class_ <= 9
    && (WholeNumber(first).value.0 ==> class_ == 0)
  }

  predicate IsTime(second: Text, timeMs: nat) {
    WholeNumber(second).Some? && timeMs == Unsigned32(WholeNumber(second).value.0, WholeNumber(second).value.1)
  }

  lemma FirstUnderscore(a: Text, rest: Text, from: nat)
    requires from <= |a| && UNDERSCORE !in a[from..]
    ensures Find(a + [UNDERSCORE] + rest, from) == Some(|a|)
  {
    var s := a + [UNDERSCORE] + rest;
    forall k | from <= k < |a| ensures s[k] != UNDERSCORE { assert s[k] == a[from..][k - from]; }
    assert s[|a|] == UNDERSCORE;
  }

  lemma PartsAreFound(stem: Text, first: Text, second: Text, rest: Text)
    requires Parts(stem, first, second, rest)
    ensures Find(stem, 0) == Some(|first|) && Find(stem, |first| + 1) == Some(|first| + 1 + |second|)
    ensures stem[..|first|] == first && stem[|first| + 1..|first| + 1 + |second|] == second
  {
    hide Find;
    PartsRegroup(first, second, rest);
    FirstUnderscore(first, second + [UNDERSCORE] + rest, 0);
    FirstUnderscore(first + [UNDERSCORE] + second, rest, |first| + 1);
  }

  lemma PartsRegroup(first: Text, second: Text, rest: Text)
    ensures var stem, front := first + [UNDERSCORE] + second + [UNDERSCORE] + rest, first + [UNDERSCORE] + second;
      && first[0..] == first && front[|first| + 1..] == second && |front| == |first| + 1 + |second|
      && stem == first + [UNDERSCORE] + (second + [UNDERSCORE] + rest) && stem == front + [UNDERSCORE] + rest
      && stem[..|first|] == first && stem[|first| + 1..|first| + 1 + |second|] == second
  {
    var stem, front := first + [UNDERSCORE] + second + [UNDERSCORE] + rest, first + [UNDERSCORE] + second;
    assert stem[..|front|] == front;
    assert front[|first| + 1..] == second;
    assert stem[|first| + 1..|first| + 1 + |second|] == stem[..|front|][|first| + 1..];
  }

  lemma PartsOf(stem: Text) returns (first: Text, second: Text, rest: Text)
    requires ParseStem(stem).Some?
    ensures Parts(stem, first, second, rest) && WholeNumber(first).Some? && WholeNumber(second).Some?
  {
    hide WholeNumber, Unsigned32;
    var i := Find(stem, 0).value;
    var j := Find(stem, i + 1).value;
    first, second, rest := stem[..i], stem[i + 1..j], stem[j + 1..];
    hide Find, ParseStem;
    CutAt(stem, i, j);
  }

  lemma CutAt(stem: Text, i: nat, j: nat)
    requires i + 1 <= j < |stem| && stem[i] == UNDERSCORE && stem[j] == UNDERSCORE
    ensures stem == stem[..i] + [UNDERSCORE] + stem[i + 1..j] + [UNDERSCORE] + stem[j + 1..]
  {
    assert stem[..i] + [UNDERSCORE] + stem[i + 1..j] == stem[..j];
  }

  /** Exactly which names parse, and as what: those with two numbers before two underscores, the first a class. */
  lemma ParsesExactly(stem: Text, class_: nat, timeMs: nat)
    ensures ParseStem(stem) == Some((class_, timeMs)) <==>
      exists first, second, rest :: Parts(stem, first, second, rest) && IsClass(first, class_) && IsTime(second, timeMs)
  {
    hide WholeNumber, Unsigned32;
    if ParseStem(stem) == Some((class_, timeMs)) {
      var first, second, rest := PartsOf(stem);
      PartsAreFound(stem, first, second, rest);
      assert IsClass(first, class_) && IsTime(second, timeMs);
    }
    if first, second, rest :|
      Parts(stem, first, second, rest) && IsClass(first, class_) && IsTime(second, timeMs) {
      PartsAreFound(stem, first, second, rest);
    }
  }

  /** The extension plays no part. */
  lemma ExtensionIsDropped(stem: Text)
    ensures ParseUid(stem + KRPZ) == ParseStem(stem)
    ensures !EndsInKrpz(stem) ==> ParseUid(stem) == ParseStem(stem)
  {
    StemOfKrpz(stem);
  }

  lemma ParseFields(stem: Text, i: nat, j: nat, c: nat, t: nat)
    requires 0 < i && Find(stem, 0) == Some(i) && i + 1 < j && Find(stem, i + 1) == Some(j)
    requires c < 10 && WholeNumber(stem[..i]) == Some((false, c))
    requires t < U32 && WholeNumber(stem[i + 1..j]) == Some((false, t))
    ensures ParseStem(stem) == Some((c, t))
  {
  }

  lemma StemOfKrpz(uid: Text)
    ensures Stem(uid + KRPZ) == uid
  {
    var name := uid + KRPZ;
    assert name[|name| - 5..] == KRPZ && name[..|name| - 5] == uid;
  }

  /** Parsing inverts printing, whatever the steamid (underscores included) and timestamp are. */
  lemma ParsePrinted(class_: nat, timeMs: nat, sid: Text, ts: Text)
    requires class_ < 10 && timeMs < U32
    ensures ParseUid(RunUid(class_, timeMs, sid, ts) + KRPZ) == Some((class_, timeMs))
  {
    var d := Decimal8(timeMs);
    StemOfKrpz(RunUid(class_, timeMs, sid, ts));
    UidSeparators(class_, timeMs, sid, ts);
    Decimal8Value(timeMs);
    PlainNumber(d);
    OneDigit(class_);
    ParseFields(RunUid(class_, timeMs, sid, ts), 1, 2 + |d|, class_, timeMs);
  }

  lemma OneDigit(n: nat)
    requires n < 10
    ensures WholeNumber([ZERO + n]) == Some((false, n))
  {
    PlainNumber([ZERO + n]);
    assert Value([ZERO + n]) == 10 * Value([]) + n;
  }

  lemma UidSeparators(class_: nat, timeMs: nat, sid: Text, ts: Text)
    requires class_ < 10
    ensures var uid, d := RunUid(class_, timeMs, sid, ts), Decimal8(timeMs);
      && Find(uid, 0) == Some(1) && Find(uid, 2) == Some(2 + |d|)
      && uid[..1] == [ZERO + class_] && uid[2..2 + |d|] == d
  {
    var uid, d := RunUid(class_, timeMs, sid, ts), Decimal8(timeMs);
    assert uid[2..2 + |d|] == d;
    assert uid[2 + |d|] == UNDERSCORE;
    forall k | 2 <= k < 2 + |d| ensures uid[k] != UNDERSCORE {
      assert uid[k] == d[k - 2] && IsDigit(d[k - 2]);
    }
  }

  /** A name that starts with neither a digit, a sign nor white space, such as the 'x' of a banned
      player's run, never parses as a ranked run. */
  lemma OtherPrefixNeverParses(name: Text)
    requires name != [] && !IsDigit(name[0]) && !IsSpace(name[0]) && name[0] != MINUS && name[0] != PLUS
    ensures ParseUid(name) == None
  {
    var stem := Stem(name);
    var sep1 := Find(stem, 0);
    if sep1.Some? && sep1.value > 0 {
      assert stem[..sep1.value][0] == name[0];
    }
  }

  // ---------------------------------------------------------------- base 36

  const BASE36: Text := [
    '0' as int, '1' as int, '2' as int, '3' as int, '4' as int, '5' as int, '6' as int, '7' as int, '8' as int,
    '9' as int, 'a' as int, 'b' as int, 'c' as int, 'd' as int, 'e' as int, 'f' as int, 'g' as int, 'h' as int,
    'i' as int, 'j' as int, 'k' as int, 'l' as int, 'm' as int, 'n' as int, 'o' as int, 'p' as int, 'q' as int,
    'r' as int, 's' as int, 't' as int, 'u' as int, 'v' as int, 'w' as int, 'x' as int, 'y' as int, 'z' as int]

  /** The digit a base-36 character stands for. */
  function DigitOf(c: Byte): nat {
    if IsDigit(c) then c - ZERO else if c >= 'a' as int then c - 'a' as int + 10 else 0
  }

  lemma DigitOfChar(d: nat)
    requires d < 36
    ensures |BASE36| == 36 && DigitOf(BASE36[d]) == d
  {
    if d < 10 { assert BASE36[d] == ZERO + d; } else { assert BASE36[d] == 'a' as int + (d - 10); }
  }

  function Digit(d: nat): Byte
    requires d < 36
  {
    DigitOfChar(d);
    BASE36[d]
  }

  /** The base-36 text of a number, without leading zeros. */
  function Base36(value: nat): (s: Text)
    ensures s != []
  {
    if value < 36 then [Digit(value)] else Base36(value / 36) + [Digit(value % 36)]
  }

  /** The digits are 0 to 9 and then a to z, the last one first. */
  lemma Base36Digits()
    ensures Base36(0) == ['0' as int] && Base36(9) == ['9' as int] && Base36(10) == ['a' as int]
    ensures Base36(35) == ['z' as int] && Base36(36) == ['1' as int, '0' as int]
    ensures Base36(36 * 35 + 10) == ['z' as int, 'a' as int]
  {
  }

  /** Reading base-36 text back. */
  function Read36(s: Text): nat {
    if s == [] then 0 else 36 * Read36(s[..|s| - 1]) + DigitOf(s[|s| - 1])
  }

  /** Base-36 text reads back to its number, so distinct timestamps print differently. */
  lemma {:induction false} Base36ReadsBack(value: nat)
    ensures Read36(Base36(value)) == value
  {
    DigitOfChar(value % 36);
    assert DigitOf(Digit(value % 36)) == value % 36;
    hide Digit, DigitOf;
    if value < 36 {
      assert Read36([Digit(value)]) == 36 * Read36([]) + DigitOf(Digit(value));
    } else {
      Base36ReadsBack(value / 36);
      assert Base36(value)[..|Base36(value)| - 1] == Base36(value / 36);
    }
  }

  lemma {:induction false} Base36Characters(value: nat, k: nat)
    requires k < |Base36(value)|
    ensures SegmentChar(Base36(value)[k]) && Base36(value)[k] != UNDERSCORE
  {
    DigitOfChar(value % 36);
    if value >= 36 && k < |Base36(value)| - 1 { Base36Characters(value / 36, k); }
  }

  /** The name of a finished run is usable as a path segment, with the class digit or with another first
      character exactly if that character is. */
  lemma RunNamesAreUsable(class_: nat, timeMs: nat, sid: Text, value: nat, prefix: Byte)
    requires class_ < 10 && ValidSegment(sid)
    ensures ValidSegment(RunUid(class_, timeMs, sid, Base36(value)))
    ensures ValidSegment(RunUid(class_, timeMs, sid, Base36(value))[0 := prefix]) <==> SegmentChar(prefix)
  {
    var uid, d, ts := RunUid(class_, timeMs, sid, Base36(value)), Decimal8(timeMs), Base36(value);
    forall k | 0 <= k < |ts| ensures SegmentChar(ts[k]) { Base36Characters(value, k); }
    hide SegmentChar, Decimal8, Base36;
    assert SegmentChar(ZERO + class_) && SegmentChar(UNDERSCORE) by { DigitsAreUsable(class_); }
    forall k | 0 <= k < |d| ensures SegmentChar(d[k]) { assert IsDigit(d[k]); DigitsAreUsable(d[k] - ZERO); }
    forall k | 0 <= k < |uid| ensures SegmentChar(uid[k]) {}
    var other := uid[0 := prefix];
    assert other[0] == prefix;
    forall k | 1 <= k < |other| ensures SegmentChar(other[k]) { assert other[k] == uid[k]; }
  }

  lemma DigitsAreUsable(n: nat)
    requires n < 10
    ensures SegmentChar(ZERO + n) && SegmentChar(UNDERSCORE)
  {
  }

  /** A name determines its run: runs of another class or time, of another player, or that started at another
      moment, have other names. */
  lemma StampsTellRunsApart(c: nat, t: nat, sid: Text, a: nat, c': nat, t': nat, sid': Text, b: nat)
    requires c < 10 && c' < 10 && RunUid(c, t, sid, Base36(a)) == RunUid(c', t', sid', Base36(b))
    ensures a == b && c == c' && t == t' && sid == sid'
  {
    UidSeparators(c, t, sid, Base36(a));
    UidSeparators(c', t', sid', Base36(b));
    Decimal8Value(t);
    Decimal8Value(t');
    StampsAreLast(c, t, sid, a, c', t', sid', b);
    hide Base36, Decimal8;
    var uid, d, x := RunUid(c, t, sid, Base36(a)), Decimal8(t), Base36(a);
    assert sid == uid[|d| + 3..|uid| - |x| - 1];
  }

  lemma StampsAreLast(c: nat, t: nat, sid: Text, a: nat, c': nat, t': nat, sid': Text, b: nat)
    requires c < 10 && c' < 10 && RunUid(c, t, sid, Base36(a)) == RunUid(c', t', sid', Base36(b))
    ensures a == b
  {
    var uid, x, y := RunUid(c, t, sid, Base36(a)), Base36(a), Base36(b);
    forall k | 0 <= k < |x| ensures x[k] != UNDERSCORE { Base36Characters(a, k); }
    forall k | 0 <= k < |y| ensures y[k] != UNDERSCORE { Base36Characters(b, k); }
    Base36ReadsBack(a);
    Base36ReadsBack(b);
    hide Base36, Read36, Decimal8;
    var n := |uid|;
    assert uid[n - |x|..] == x && uid[n - |x| - 1] == UNDERSCORE;
    assert uid[n - |y|..] == y && uid[n - |y| - 1] == UNDERSCORE;
    forall i | n - |x| <= i < n ensures uid[i] != UNDERSCORE { assert uid[i] == x[i - (n - |x|)]; }
    forall i | n - |y| <= i < n ensures uid[i] != UNDERSCORE { assert uid[i] == y[i - (n - |y|)]; }
  }

  function Pow36(k: nat): (p: nat)
    ensures p > 0
  {
    if k == 0 then 1 else 36 * Pow36(k - 1)
  }

  const U64: nat := 0x1_0000_0000_0000_0000

  lemma SixtyFourBitsFit()
    ensures U64 <= Pow36(13)
  {
    assert Pow36(3) == 46656;
    assert Pow36(6) == 46656 * 46656 by { assert Pow36(6) == 36 * (36 * (36 * Pow36(3))); }
    assert Pow36(9) == 36 * (36 * (36 * Pow36(6)));
    assert Pow36(12) == 36 * (36 * (36 * Pow36(9)));
  }

  /** The text of what is left of the value: nothing once the loop is done. */
  function Rest(value: nat): Text {
    if value == 0 then [] else Base36(value)
  }

  /** The characters from buffer position `p` on end the text of the whole value, what is left of the
      value begins it, and fits in the positions above 1. */
  ghost predicate Printing(low: Text, p: nat, value: nat, whole: nat) {
    && 2 <= p <= 15 && |low| == 15 - p && value < Pow36(p - 2)
    && if low == [] then value == whole else Base36(whole) == Rest(value) + low
  }

  lemma PrintDigit(low: Text, p: nat, value: nat, whole: nat)
    requires Printing(low, p, value, whole) && p > 2 && (low == [] || value > 0)
    ensures Printing([Digit(value % 36)] + low, p - 1, value / 36, whole)
  {
    hide Digit, Base36, Rest, Pow36;
    OneDigitLess(value, p - 2);
    PrintText(low, value, whole);
  }

  lemma PrintText(low: Text, value: nat, whole: nat)
    requires low == [] || value > 0
    requires if low == [] then value == whole else Base36(whole) == Rest(value) + low
    ensures Base36(whole) == Rest(value / 36) + ([Digit(value % 36)] + low)
  {
    hide Digit, Base36, Rest;
    var d, front := [Digit(value % 36)], Rest(value / 36);
    PrintOne(value);
    if low == [] {
      assert d + low == d;
    } else {
      NotDone(value);
      assert (front + d) + low == front + (d + low);
    }
  }

  lemma PrintOne(value: nat)
    ensures Base36(value) == Rest(value / 36) + [Digit(value % 36)]
  {
    hide Digit;
  }

  lemma NotDone(value: nat)
    requires value > 0
    ensures Rest(value) == Base36(value)
  {
  }

  lemma OneDigitLess(value: nat, k: nat)
    requires value < Pow36(k) && k > 0
    ensures value / 36 < Pow36(k - 1)
  {
  }

  lemma RoomLeft(low: Text, p: nat, value: nat, whole: nat)
    requires Printing(low, p, value, whole) && value > 0
    ensures p > 2
  {
  }

  method PutDigit(buff: array<Byte>, p: nat, value: nat, ghost whole: nat)
    requires buff.Length == 16 && 2 < p <= 15 && Printing(buff[p..15], p, value, whole)
    requires p == 15 || value > 0
    modifies buff
    ensures Printing(buff[p - 1..15], p - 1, value / 36, whole)
  {
    PrintDigit(buff[p..15], p, value, whole);
    hide Printing, Digit;
    ghost var low := buff[p..15];
    buff[p - 1] := Digit(value % 36);
    assert buff[p - 1..15] == [Digit(value % 36)] + low;
  }

  /** Prints a 64-bit value into `dest`, whose length includes the terminator. The loop fills its
      16-byte buffer from the back with at most 13 digits, and a `dest` of 14 bytes or more takes
      them all. */
  method ToBase36(value0: nat, len: nat) returns (dest: Text)
    requires value0 < U64 && len > 0
    ensures |Base36(value0)| <= 13
    ensures dest == if |Base36(value0)| < len then Base36(value0) else Base36(value0)[..len - 1]
  {
    var buff := new Byte[16](_ => 0);
    var p, value := 15, value0;
    SixtyFourBitsFit();
    PutDigit(buff, p, value, value0);
    p, value := p - 1, value / 36;
    while value > 0
      invariant 0 <= p < 15 && Printing(buff[p..15], p, value, value0)
    {
      RoomLeft(buff[p..15], p, value, value0);
      PutDigit(buff, p, value, value0);
      p, value := p - 1, value / 36;
    }
    var text := buff[p..15];
    assert [] + text == text;
    dest := if |text| < len then text else text[..len - 1];
  }
}
