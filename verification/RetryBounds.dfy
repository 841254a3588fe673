/** What the retry pass guarantees over any run of the clock: who is attempted, how often, how far
    apart, and that a queue nobody adds to runs empty. */
module RetryBounds {
  import opened Options
  import opened RetryQueue

  // ---------------------------------------------------------------- one pass

  predicate Sendable(e: Entry, ts: int, lim: Limits) {
    Due(e, ts, lim) && !Dead(e, lim)
  }

  /** What a pass leaves of entries it does not attempt. */
  function Kept(q: seq<Entry>, ts: int, lim: Limits): seq<Entry> {
    if q == [] then [] else (if Due(q[0], ts, lim) then [] else [q[0]]) + Kept(q[1..], ts, lim)
  }

  lemma {:induction false} PassAttemptsNone(q: seq<Entry>, ts: int, lim: Limits)
    requires forall i | 0 <= i < |q| :: !Sendable(q[i], ts, lim)
    ensures Pass(q, ts, lim) == (Kept(q, ts, lim), None)
  {
    if q != [] {
      assert !Sendable(q[0], ts, lim);
      PassAttemptsNone(q[1..], ts, lim);
      assert [] + Kept(q[1..], ts, lim) == Kept(q[1..], ts, lim);
    }
  }

  lemma {:induction false} PassAttemptsTheFirst(q: seq<Entry>, ts: int, lim: Limits, k: nat)
    requires k < |q| && Sendable(q[k], ts, lim) && forall i | 0 <= i < k :: !Sendable(q[i], ts, lim)
    ensures Pass(q, ts, lim) == (Kept(q[..k], ts, lim) + ([Attempted(q[k], ts)] + q[k + 1..]), Some(q[k]))
  {
    if k == 0 {
      var tail := [Attempted(q[0], ts)] + q[1..];
      assert Kept(q[..0], ts, lim) == [] && [] + tail == tail;
    } else {
      assert !Sendable(q[0], ts, lim);
      PassAttemptsTheFirst(q[1..], ts, lim, k - 1);
      assert q[..k][1..] == q[1..][..k - 1] && q[k + 1..] == q[1..][k..];
      var kept, tail := Kept(q[1..][..k - 1], ts, lim), [Attempted(q[k], ts)] + q[k + 1..];
      assert [] + kept == kept && [q[0]] + (kept + tail) == ([q[0]] + kept) + tail;
    }
  }

  // ---------------------------------------------------------------- runs

  /** What can happen to the queue between two requeues. */
  datatype Event = Tick(ts: int) | Saved(e: Entry) | Deleted(id: int, table: Table)

  datatype Attempt = Attempt(table: Table, id: int, ts: int)

  function After(q: seq<Entry>, ev: Event, lim: Limits): seq<Entry> {
    match ev
    case Tick(ts) => Pass(q, ts, lim).0
    case Saved(e) => q + [e]
    case Deleted(id, table) => Without(q, id, table)
  }

  function Made(q: seq<Entry>, ev: Event, lim: Limits): seq<Attempt> {
    if ev.Tick? && Pass(q, ev.ts, lim).1.Some? then
      var e := Pass(q, ev.ts, lim).1.value;
      [Attempt(e.table, e.msgId, ev.ts)]
    else []
  }

  function Run(q: seq<Entry>, evs: seq<Event>, lim: Limits): seq<Entry>
    decreases |evs|
  {
    if evs == [] then q else Run(After(q, evs[0], lim), evs[1..], lim)
  }

  function Attempts(q: seq<Entry>, evs: seq<Event>, lim: Limits): seq<Attempt>
    decreases |evs|
  {
    if evs == [] then [] else Made(q, evs[0], lim) + Attempts(After(q, evs[0], lim), evs[1..], lim)
  }

  predicate Is(e: Entry, table: Table, id: int) {
    e.table == table && e.msgId == id
  }

  /** The times at which a message was attempted. */
  function Times(log: seq<Attempt>, table: Table, id: int): seq<int> {
    if log == [] then [] else
    (if log[0].table == table && log[0].id == id then [log[0].ts] else []) + Times(log[1..], table, id)
  }

  predicate NotSavedAgain(evs: seq<Event>, table: Table, id: int) {
    forall k | 0 <= k < |evs| :: evs[k].Saved? ==> !Is(evs[k].e, table, id)
  }

  // ---------------------------------------------------------------- how often

  function Allowance(e: Entry, lim: Limits): nat {
    if e.retryCount > lim.max then 0 else lim.max + 1 - e.retryCount
  }

  /** The attempts still allowed to a message. */
  function Budget(q: seq<Entry>, table: Table, id: int, lim: Limits): nat {
    if q == [] then 0 else
    (if Is(q[0], table, id) then Allowance(q[0], lim) else 0) + Budget(q[1..], table, id, lim)
  }

  lemma {:induction false} BudgetOfBoth(p: seq<Entry>, q: seq<Entry>, table: Table, id: int, lim: Limits)
    ensures Budget(p + q, table, id, lim) == Budget(p, table, id, lim) + Budget(q, table, id, lim)
  {
    if p == [] {
      assert p + q == q;
    } else {
      assert (p + q)[1..] == p[1..] + q;
      BudgetOfBoth(p[1..], q, table, id, lim);
    }
  }

  lemma {:induction false} PassSpends(q: seq<Entry>, ts: int, lim: Limits, table: Table, id: int)
    ensures var r := Pass(q, ts, lim);
      Budget(r.0, table, id, lim) + (if r.1.Some? && Is(r.1.value, table, id) then 1 else 0)
        <= Budget(q, table, id, lim)
  {
    if q != [] {
      var rest := Pass(q[1..], ts, lim);
      if !Due(q[0], ts, lim) {
        PassSpends(q[1..], ts, lim, table, id);
        assert ([q[0]] + rest.0)[1..] == rest.0;
      } else if Dead(q[0], lim) {
        PassSpends(q[1..], ts, lim, table, id);
      } else {
        assert ([Attempted(q[0], ts)] + q[1..])[1..] == q[1..];
      }
    }
  }

  lemma {:induction false} DeletionSpends(q: seq<Entry>, i: int, t: Table, table: Table, id: int, lim: Limits)
    ensures Budget(Without(q, i, t), table, id, lim) <= Budget(q, table, id, lim)
  {
    if q != [] {
      DeletionSpends(q[1..], i, t, table, id, lim);
      var rest := Without(q[1..], i, t);
      assert [] + rest == rest && ([q[0]] + rest)[1..] == rest;
    }
  }

  lemma EventSpends(q: seq<Entry>, ev: Event, lim: Limits, table: Table, id: int)
    requires ev.Saved? ==> !Is(ev.e, table, id)
    ensures |Times(Made(q, ev, lim), table, id)| + Budget(After(q, ev, lim), table, id, lim)
         <= Budget(q, table, id, lim)
  {
    match ev
    case Tick(ts) => PassSpends(q, ts, lim, table, id);
    case Saved(e) => BudgetOfBoth(q, [e], table, id, lim);
    case Deleted(i, t) => DeletionSpends(q, i, t, table, id, lim);
  }

  lemma {:induction false} TimesOfBoth(a: seq<Attempt>, b: seq<Attempt>, table: Table, id: int)
    ensures Times(a + b, table, id) == Times(a, table, id) + Times(b, table, id)
  {
    if a == [] {
      assert a + b == b;
    } else {
      assert (a + b)[1..] == a[1..] + b;
      TimesOfBoth(a[1..], b, table, id);
    }
  }

  /** Whatever the clock does, attempts are paid for from a budget that only a new save can refill. */
  lemma {:induction false} AttemptsAreBounded(q: seq<Entry>, evs: seq<Event>, lim: Limits, table: Table, id: int)
    requires NotSavedAgain(evs, table, id)
    ensures |Times(Attempts(q, evs, lim), table, id)| + Budget(Run(q, evs, lim), table, id, lim)
         <= Budget(q, table, id, lim)
    decreases |evs|
  {
    hide Budget, After, Made;
    if evs != [] {
      EventSpends(q, evs[0], lim, table, id);
      AttemptsAreBounded(After(q, evs[0], lim), evs[1..], lim, table, id);
      TimesOfBoth(Made(q, evs[0], lim), Attempts(After(q, evs[0], lim), evs[1..], lim), table, id);
    }
  }

  // ---------------------------------------------------------------- how far apart

  /** The timestamps of a message's entries. */
  function Stamps(q: seq<Entry>, table: Table, id: int): seq<int> {
    if q == [] then [] else (if Is(q[0], table, id) then [q[0].timestamp] else []) + Stamps(q[1..], table, id)
  }

  lemma {:induction false} StampsOfBoth(p: seq<Entry>, q: seq<Entry>, table: Table, id: int)
    ensures Stamps(p + q, table, id) == Stamps(p, table, id) + Stamps(q, table, id)
  {
    hide Is;
    if p == [] {
      assert p + q == q;
    } else {
      assert (p + q)[1..] == p[1..] + q && (p + q)[0] == p[0];
      StampsOfBoth(p[1..], q, table, id);
      var own := if Is(p[0], table, id) then [p[0].timestamp] else [];
      var front, back := Stamps(p[1..], table, id), Stamps(q, table, id);
      assert own + (front + back) == own + front + back;
    }
  }

  predicate Apart(last: int, times: seq<int>, delay: int)
    decreases |times|
  {
    times == [] || (times[0] - last > delay && Apart(times[0], times[1..], delay))
  }

  /** A message with a single entry keeps its timestamp, loses its entry, or was attempted just now. */
  predicate StampMoves(before: seq<int>, after: seq<int>, made: seq<int>, delay: int) {
    if made == [] then after == before || after == []
    else |before| == |made| == 1 && made[0] - before[0] > delay && after == made
  }

  lemma {:induction false} PassMovesStamp(q: seq<Entry>, ts: int, lim: Limits, table: Table, id: int)
    requires |Stamps(q, table, id)| <= 1
    ensures StampMoves(Stamps(q, table, id), Stamps(Pass(q, ts, lim).0, table, id),
                       Times(Made(q, Tick(ts), lim), table, id), lim.delay)
  {
    if q != [] {
      var rest := Pass(q[1..], ts, lim);
      if !Due(q[0], ts, lim) {
        PassMovesStamp(q[1..], ts, lim, table, id);
        assert ([q[0]] + rest.0)[1..] == rest.0;
        assert Made(q, Tick(ts), lim) == Made(q[1..], Tick(ts), lim);
      } else if Dead(q[0], lim) {
        PassMovesStamp(q[1..], ts, lim, table, id);
        assert Made(q, Tick(ts), lim) == Made(q[1..], Tick(ts), lim);
      } else {
        assert ([Attempted(q[0], ts)] + q[1..])[1..] == q[1..];
      }
    }
  }

  lemma {:induction false} DeletionMovesStamp(q: seq<Entry>, i: int, t: Table, table: Table, id: int)
    ensures Stamps(Without(q, i, t), table, id) == if i == id && t == table then [] else Stamps(q, table, id)
  {
    if q != [] {
      DeletionMovesStamp(q[1..], i, t, table, id);
      var rest := Without(q[1..], i, t);
      assert [] + rest == rest && ([q[0]] + rest)[1..] == rest;
    }
  }

  lemma EventMovesStamp(q: seq<Entry>, ev: Event, lim: Limits, table: Table, id: int)
    requires |Stamps(q, table, id)| <= 1 && (ev.Saved? ==> !Is(ev.e, table, id))
    ensures StampMoves(Stamps(q, table, id), Stamps(After(q, ev, lim), table, id),
                       Times(Made(q, ev, lim), table, id), lim.delay)
  {
    match ev
    case Tick(ts) => PassMovesStamp(q, ts, lim, table, id);
    case Saved(e) => StampsOfBoth(q, [e], table, id);
    case Deleted(i, t) => DeletionMovesStamp(q, i, t, table, id);
  }

  /** A message with one entry is attempted at times more than the delay apart, the first of them more
      than the delay after it was queued. */
  lemma {:induction false} AttemptsAreApart(q: seq<Entry>, evs: seq<Event>, lim: Limits, table: Table, id: int)
    requires NotSavedAgain(evs, table, id) && |Stamps(q, table, id)| <= 1
    ensures var times := Times(Attempts(q, evs, lim), table, id);
      if Stamps(q, table, id) == [] then times == [] else Apart(Stamps(q, table, id)[0], times, lim.delay)
    decreases |evs|
  {
    hide Stamps, After, Made;
    if evs != [] {
      var next := After(q, evs[0], lim);
      EventMovesStamp(q, evs[0], lim, table, id);
      AttemptsAreApart(next, evs[1..], lim, table, id);
      TimesOfBoth(Made(q, evs[0], lim), Attempts(next, evs[1..], lim), table, id);
      var made, later := Times(Made(q, evs[0], lim), table, id), Times(Attempts(next, evs[1..], lim), table, id);
      assert [] + later == later;
      if made != [] { assert (made + later)[1..] == later; }
    }
  }

  lemma {:induction false} BudgetOfOne(q: seq<Entry>, k: nat, lim: Limits)
    requires k < |q| && |Stamps(q, q[k].table, q[k].msgId)| <= 1
    ensures Stamps(q, q[k].table, q[k].msgId) == [q[k].timestamp]
    ensures Budget(q, q[k].table, q[k].msgId, lim) == Allowance(q[k], lim)
  {
    if k > 0 {
      BudgetOfOne(q[1..], k - 1, lim);
    } else {
      NoneLeft(q[1..], q[0].table, q[0].msgId, lim);
    }
  }

  lemma {:induction false} NoneLeft(q: seq<Entry>, table: Table, id: int, lim: Limits)
    requires Stamps(q, table, id) == []
    ensures Budget(q, table, id, lim) == 0
  {
    if q != [] { NoneLeft(q[1..], table, id, lim); }
  }

  /** A freshly saved or requeued message: at most `max + 1` attempts, more than `delay` apart. */
  lemma RetryBound(q: seq<Entry>, k: nat, evs: seq<Event>, lim: Limits)
    requires k < |q| && q[k].retryCount == 0
    requires |Stamps(q, q[k].table, q[k].msgId)| <= 1 && NotSavedAgain(evs, q[k].table, q[k].msgId)
    ensures var times := Times(Attempts(q, evs, lim), q[k].table, q[k].msgId);
      |times| <= (if lim.max < 0 then 0 else lim.max + 1) && Apart(q[k].timestamp, times, lim.delay)
  {
    BudgetOfOne(q, k, lim);
    AttemptsAreBounded(q, evs, lim, q[k].table, q[k].msgId);
    AttemptsAreApart(q, evs, lim, q[k].table, q[k].msgId);
  }

  // ---------------------------------------------------------------- progress

  function Measure(q: seq<Entry>, lim: Limits): nat {
    if q == [] then 0 else 1 + Allowance(q[0], lim) + Measure(q[1..], lim)
  }

  /** Every attempt and every removal makes the measure smaller. */
  lemma {:induction false} PassProgress(q: seq<Entry>, ts: int, lim: Limits)
    ensures var r := Pass(q, ts, lim);
      Measure(r.0, lim) + (if r.1.Some? then 1 else 0) + (|q| - |r.0|) <= Measure(q, lim)
  {
    if q != [] {
      PassProgress(q[1..], ts, lim);
      var rest := Pass(q[1..], ts, lim);
      if !Due(q[0], ts, lim) {
        assert ([q[0]] + rest.0)[1..] == rest.0;
      } else if !Dead(q[0], lim) {
        assert ([Attempted(q[0], ts)] + q[1..])[1..] == q[1..];
      }
    }
  }

  /** A due entry means an attempt or a removal. */
  lemma {:induction false} DueMeansProgress(q: seq<Entry>, ts: int, lim: Limits, k: nat)
    requires k < |q| && Due(q[k], ts, lim)
    ensures Pass(q, ts, lim).1.Some? || |Pass(q, ts, lim).0| < |q|
  {
    if k > 0 { DueMeansProgress(q[1..], ts, lim, k - 1); }
  }

  predicate NotLaterThan(q: seq<Entry>, ts: int) {
    forall e | e in q :: e.timestamp <= ts
  }

  lemma {:induction false} PassStamps(q: seq<Entry>, ts: int, lim: Limits, e: Entry)
    requires e in Pass(q, ts, lim).0
    ensures e in q || e.timestamp == ts
  {
    var rest := Pass(q[1..], ts, lim);
    assert q == [q[0]] + q[1..];
    if !Due(q[0], ts, lim) || Dead(q[0], lim) {
      if e in rest.0 { PassStamps(q[1..], ts, lim, e); }
    }
  }

  /** A pass that neither attempts nor removes anything leaves the queue as it is. */
  lemma {:induction false} IdlePassIsNothing(q: seq<Entry>, ts: int, lim: Limits)
    requires Pass(q, ts, lim).1.None? && |Pass(q, ts, lim).0| == |q|
    ensures Pass(q, ts, lim).0 == q
  {
    if q != [] && !Due(q[0], ts, lim) { IdlePassIsNothing(q[1..], ts, lim); }
  }

  // ---------------------------------------------------------------- passes of every frame

  function Later(a: int, b: int): int {
    if a < b then b else a
  }

  /** How many delays the passes span: how many of them come more than the delay after the latest time there had
      been when one was last counted, which is `base` at first. `latest` is the latest time so far. */
  function Spans(base: int, latest: int, clock: seq<int>, delay: int): nat
    decreases |clock|
  {
    if clock == [] then 0 else
      var now := Later(latest, clock[0]);
      if clock[0] - base > delay then 1 + Spans(now, now, clock[1..], delay)
      else Spans(base, now, clock[1..], delay)
  }

  /** The spans that are enough for a queue: its measure, and one more if it has entries later than `base`. */
  function Owed(q: seq<Entry>, base: int, lim: Limits): nat {
    Measure(q, lim) + if NotLaterThan(q, base) then 0 else 1
  }

  /** A counted pass pays for one span; any other pass that does something pays by what it does. */
  lemma PassPays(q: seq<Entry>, base: int, latest: int, ts: int, lim: Limits)
    requires base <= latest && NotLaterThan(q, latest)
    ensures var r, now := Pass(q, ts, lim).0, Later(latest, ts);
      && NotLaterThan(r, now)
      && if ts - base > lim.delay then Owed(q, base, lim) == 0 || Owed(r, now, lim) < Owed(q, base, lim)
         else Owed(r, base, lim) <= Owed(q, base, lim)
    ensures q == [] ==> Pass(q, ts, lim).0 == []
  {
    hide Measure, Due;
    var r := Pass(q, ts, lim);
    PassProgress(q, ts, lim);
    forall e | e in r.0 ensures e.timestamp <= Later(latest, ts) { PassStamps(q, ts, lim, e); }
    NothingToPay(q, lim);
    if r.1.None? && |r.0| == |q| { IdlePassIsNothing(q, ts, lim); }
    if ts - base > lim.delay && NotLaterThan(q, base) && q != [] { LateMeansProgress(q, base, ts, lim); }
  }

  lemma LateMeansProgress(q: seq<Entry>, base: int, ts: int, lim: Limits)
    requires NotLaterThan(q, base) && ts - base > lim.delay && q != []
    ensures Pass(q, ts, lim).1.Some? || |Pass(q, ts, lim).0| < |q|
  {
    assert q[0] in q;
    DueMeansProgress(q, ts, lim, 0);
  }

  lemma NothingToPay(q: seq<Entry>, lim: Limits)
    ensures Measure(q, lim) == 0 <==> q == []
  {
  }

  function Ticks(clock: seq<int>): (evs: seq<Event>)
    ensures |evs| == |clock| && forall k | 0 <= k < |evs| :: evs[k] == Tick(clock[k])
  {
    seq(|clock|, k requires 0 <= k < |clock| => Tick(clock[k]))
  }

  /** Without new saves the queue drains, whatever the clock does and however many passes there are: entries no
      later than `latest` are gone once the passes span as many delays as the queue is owed. */
  lemma {:induction false} SpansDrain(q: seq<Entry>, base: int, latest: int, clock: seq<int>, lim: Limits)
    requires base <= latest && NotLaterThan(q, latest)
    requires Spans(base, latest, clock, lim.delay) >= Owed(q, base, lim)
    ensures Run(q, Ticks(clock), lim) == []
    decreases |clock|
  {
    hide Measure, NotLaterThan;
    NothingToPay(q, lim);
    if clock != [] {
      var now := Later(latest, clock[0]);
      PassPays(q, base, latest, clock[0], lim);
      NothingToPay(Pass(q, clock[0], lim).0, lim);
      assert Ticks(clock)[1..] == Ticks(clock[1..]);
      SpansDrain(Pass(q, clock[0], lim).0, if clock[0] - base > lim.delay then now else base, now, clock[1..], lim);
    }
  }

  /** So entries no later than `ts` are gone once the passes after `ts` span as many delays as their measure. */
  lemma QueueDrains(q: seq<Entry>, ts: int, clock: seq<int>, lim: Limits)
    requires NotLaterThan(q, ts) && Spans(ts, ts, clock, lim.delay) >= Measure(q, lim)
    ensures Run(q, Ticks(clock), lim) == []
  {
    SpansDrain(q, ts, ts, clock, lim);
  }

  /** The clock of the frames: it does not go back, and no frame takes longer than `step`. */
  predicate Frames(last: int, clock: seq<int>, step: int)
    decreases |clock|
  {
    clock == [] || (last <= clock[0] <= last + step && Frames(clock[0], clock[1..], step))
  }

  function EndOf(last: int, clock: seq<int>): int {
    if clock == [] then last else clock[|clock| - 1]
  }

  /** Passes of every frame span a delay at least once in the delay and one frame. */
  lemma {:induction false} FramesSpan(base: int, latest: int, clock: seq<int>, delay: int, step: int)
    requires base <= latest <= base + delay && Frames(latest, clock, step)
    ensures EndOf(latest, clock) <= base + delay + Spans(base, latest, clock, delay) * (delay + step)
    decreases |clock|
  {
    if clock != [] {
      var counted := clock[0] - base > delay;
      FramesSpan(if counted then clock[0] else base, clock[0], clock[1..], delay, step);
      var n := Spans(if counted then clock[0] else base, clock[0], clock[1..], delay);
      assert EndOf(latest, clock) == EndOf(clock[0], clock[1..]);
      assert (1 + n) * (delay + step) == delay + step + n * (delay + step);
    } else {
      assert EndOf(latest, clock) == latest;
    }
  }

  lemma EnoughFrames(ts: int, clock: seq<int>, step: int, delay: int, m: nat)
    requires delay >= 0 && step >= 0 && Frames(ts, clock, step)
    requires EndOf(ts, clock) - ts > delay + (m - 1) * (delay + step)
    ensures Spans(ts, ts, clock, delay) >= m
  {
    var n := Spans(ts, ts, clock, delay);
    FramesSpan(ts, ts, clock, delay, step);
    if n < m { NoMore(n, m - 1, delay + step); }
  }

  /** Hence the queue is empty after a time that depends on its measure, the delay and the longest frame alone. */
  lemma QueueDrainsInTime(q: seq<Entry>, ts: int, clock: seq<int>, step: int, lim: Limits)
    requires lim.delay >= 0 && step >= 0 && NotLaterThan(q, ts) && Frames(ts, clock, step)
    requires EndOf(ts, clock) - ts > lim.delay + (Measure(q, lim) - 1) * (lim.delay + step)
    ensures Run(q, Ticks(clock), lim) == []
  {
    EnoughFrames(ts, clock, step, lim.delay, Measure(q, lim));
    QueueDrains(q, ts, clock, lim);
  }

  lemma NoMore(n: nat, m: nat, k: nat)
    requires n <= m
    ensures n * k <= m * k
  {
    assert m * k == n * k + (m - n) * k;
  }

  // ---------------------------------------------------------------- the bound is met

  /** A message that is worth sending for as long as it has retries. */
  predicate Live(e: Entry) {
    !IsEmpty(e.message) && e.msgType != PLAYER_LEAVE && e.msgType != MAP_CHANGE
  }

  /** Exactly how often a message alone in the queue is attempted: once in every delay the passes span, until its
      allowance of `max + 1` attempts is spent. */
  lemma {:induction false} SoleEntryAttempts(e: Entry, clock: seq<int>, lim: Limits)
    requires Live(e) && lim.delay >= 0
    ensures var n, times := Spans(e.timestamp, e.timestamp, clock, lim.delay),
        Times(Attempts([e], Ticks(clock), lim), e.table, e.msgId);
      |times| == if n < Allowance(e, lim) then n else Allowance(e, lim)
    decreases |clock|
  {
    SoleEntrySpans(e, e.timestamp, clock, lim);
  }

  lemma {:induction false} SoleEntrySpans(e: Entry, latest: int, clock: seq<int>, lim: Limits)
    requires Live(e) && e.timestamp <= latest <= e.timestamp + lim.delay
    ensures var n, times := Spans(e.timestamp, latest, clock, lim.delay),
        Times(Attempts([e], Ticks(clock), lim), e.table, e.msgId);
      |times| == if n < Allowance(e, lim) then n else Allowance(e, lim)
    decreases |clock|
  {
    if clock != [] {
      var ts := clock[0];
      assert Ticks(clock)[1..] == Ticks(clock[1..]);
      SoleEntryPass(e, ts, lim);
      var rest := Attempts(After([e], Tick(ts), lim), Ticks(clock[1..]), lim);
      TimesOfBoth(Made([e], Tick(ts), lim), rest, e.table, e.msgId);
      if !Due(e, ts, lim) {
        SoleEntrySpans(e, Later(latest, ts), clock[1..], lim);
      } else if Dead(e, lim) {
        NothingAttempted(clock[1..], lim);
      } else {
        SoleEntrySpans(Attempted(e, ts), ts, clock[1..], lim);
      }
    }
  }

  lemma SoleEntryPass(e: Entry, ts: int, lim: Limits)
    ensures Pass([e], ts, lim) ==
      if !Due(e, ts, lim) then ([e], None) else if Dead(e, lim) then ([], None) else ([Attempted(e, ts)], Some(e))
  {
    hide Due, Dead, Attempted;
    assert [e][1..] == [] && Pass([], ts, lim) == ([], None);
    assert [e] + [] == [e] && [Attempted(e, ts)] + [] == [Attempted(e, ts)];
  }

  lemma {:induction false} NothingAttempted(clock: seq<int>, lim: Limits)
    ensures Attempts([], Ticks(clock), lim) == []
    decreases |clock|
  {
    if clock != [] {
      assert Ticks(clock)[1..] == Ticks(clock[1..]);
      NothingAttempted(clock[1..], lim);
    }
  }
}
