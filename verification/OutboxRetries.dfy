/** The bounds on retries hold of the outbox: in every state it can reach each message has at most one entry
    in the retry queue, and whatever else the outbox does between the passes only takes entries away. */
module OutboxRetries {
  import opened Options
  import opened ReplayNames
  import opened RetryQueue
  import opened RetryBounds
  import opened OutboxSpec
  import opened OutboxSafety

  function Entries(q: seq<Entry>, table: Table, id: int): nat {
    |Stamps(q, table, id)|
  }

  // ---------------------------------------------------------------- removals

  /** `r` is `q` with some entries taken out. */
  predicate Thins(r: seq<Entry>, q: seq<Entry>)
    decreases |q|
  {
    if r == [] then true else
    q != [] && ((r[0] == q[0] && Thins(r[1..], q[1..])) || Thins(r, q[1..]))
  }

  lemma {:induction false} ThinsItself(q: seq<Entry>)
    ensures Thins(q, q)
  {
    if q != [] { ThinsItself(q[1..]); }
  }

  lemma ThinsFront(e: Entry, keep: bool, r: seq<Entry>, q: seq<Entry>)
    requires Thins(r, q)
    ensures Thins((if keep then [e] else []) + r, [e] + q)
  {
    assert ([e] + q)[1..] == q && ([e] + r)[1..] == r && [] + r == r;
    if !keep && r != [] { assert Thins(r, ([e] + q)[1..]); }
  }

  lemma {:induction false} DurableThins(q: seq<Entry>)
    ensures Thins(Durable(q), q)
  {
    if q != [] {
      DurableThins(q[1..]);
      ThinsFront(q[0], !Ephemeral(q[0]), Durable(q[1..]), q[1..]);
      assert [q[0]] + q[1..] == q;
    }
  }

  lemma {:induction false} WithoutThins(q: seq<Entry>, id: int, table: Table)
    ensures Thins(Without(q, id, table), q)
  {
    if q != [] {
      WithoutThins(q[1..], id, table);
      ThinsFront(q[0], !(q[0].msgId == id && q[0].table == table), Without(q[1..], id, table), q[1..]);
      assert [q[0]] + q[1..] == q;
    }
  }

  lemma {:induction false} WithoutTableThins(q: seq<Entry>, table: Table)
    ensures Thins(WithoutTable(q, table), q)
  {
    if q != [] {
      WithoutTableThins(q[1..], table);
      ThinsFront(q[0], q[0].table != table, WithoutTable(q[1..], table), q[1..]);
      assert [q[0]] + q[1..] == q;
    }
  }

  lemma {:induction false} WithoutFirstUploadThins(q: seq<Entry>, uid: Text)
    ensures Thins(WithoutFirstUpload(q, uid), q)
  {
    if q != [] {
      assert [q[0]] + q[1..] == q;
      if UploadOf(q[0], uid) {
        ThinsItself(q[1..]);
        ThinsFront(q[0], false, q[1..], q[1..]);
        assert [] + q[1..] == q[1..];
      } else {
        WithoutFirstUploadThins(q[1..], uid);
        ThinsFront(q[0], true, WithoutFirstUpload(q[1..], uid), q[1..]);
      }
    }
  }

  lemma {:induction false} ThinsEntry(r: seq<Entry>, q: seq<Entry>, e: Entry)
    requires Thins(r, q) && e in r
    ensures e in q
    decreases |q|
  {
    assert q == [q[0]] + q[1..] && r == [r[0]] + r[1..];
    if Thins(r, q[1..]) { ThinsEntry(r, q[1..], e); } else if e != r[0] { ThinsEntry(r[1..], q[1..], e); }
  }

  /** Entries taken out leave budgets, measures and numbers of entries no larger. */
  lemma {:induction false} ThinsSpends(r: seq<Entry>, q: seq<Entry>, table: Table, id: int, lim: Limits)
    requires Thins(r, q)
    ensures Budget(r, table, id, lim) <= Budget(q, table, id, lim)
    ensures Measure(r, lim) <= Measure(q, lim)
    ensures Entries(r, table, id) <= Entries(q, table, id)
    decreases |q|
  {
    hide Allowance, Is;
    if r != [] {
      if Thins(r, q[1..]) {
        ThinsSpends(r, q[1..], table, id, lim);
      } else {
        ThinsSpends(r[1..], q[1..], table, id, lim);
      }
    }
  }

  /** A message with one entry keeps its timestamp or loses its entry. */
  lemma {:induction false} ThinsMovesStamp(r: seq<Entry>, q: seq<Entry>, table: Table, id: int)
    requires Thins(r, q) && Entries(q, table, id) <= 1
    ensures Stamps(r, table, id) == Stamps(q, table, id) || Stamps(r, table, id) == []
    decreases |q|
  {
    hide Is;
    if r != [] {
      if Thins(r, q[1..]) {
        ThinsMovesStamp(r, q[1..], table, id);
        ThinsSpends(r, q[1..], table, id, Limits(0, 0));
      } else {
        ThinsMovesStamp(r[1..], q[1..], table, id);
        ThinsSpends(r[1..], q[1..], table, id, Limits(0, 0));
      }
    }
  }

  // ---------------------------------------------------------------- what an input does to the queue

  /** The inputs that make entries new again: the connection opens, or the process starts over. */
  predicate Renews(i: Input) {
    i.Opened? || i.Restart? || i.Load?
  }

  function SeqOf(s: State, table: Table): nat {
    if table == Outgoing then s.outgoingSeq else s.uploadSeq
  }

  /** Apart from those and the retry pass, an input takes entries away, or saves one under a new id. */
  ghost predicate Moves(s: State, t: State) {
    || (Thins(t.retry, s.retry) && t.outgoingSeq == s.outgoingSeq && t.uploadSeq == s.uploadSeq)
    || (exists e: Entry ::
          && t.retry == s.retry + [e] && e.msgId == SeqOf(s, e.table) + 1 == SeqOf(t, e.table)
          && forall table | table != e.table :: SeqOf(t, table) == SeqOf(s, table))
  }

  lemma SaveMoves(s: State, table: Table, msgType: int, message: Payload, now: int)
    ensures Moves(s, Save(s, table, msgType, message, now))
  {
    var t := Save(s, table, msgType, message, now);
    var e := t.retry[|s.retry|];
    assert t.retry == s.retry + [e] && e.msgId == SeqOf(s, e.table) + 1 == SeqOf(t, e.table);
  }

  lemma DeleteMoves(s: State, id: int, table: Table)
    ensures Moves(s, Delete(s, id, table))
  {
    WithoutThins(s.retry, id, table);
  }

  lemma StayMoves(s: State, t: State)
    requires t.retry == s.retry && t.outgoingSeq == s.outgoingSeq && t.uploadSeq == s.uploadSeq
    ensures Moves(s, t)
  {
    ThinsItself(s.retry);
  }

  /** The parts of a state that `Moves` looks at. */
  predicate SameQueue(s: State, t: State) {
    t.retry == s.retry && t.outgoingSeq == s.outgoingSeq && t.uploadSeq == s.uploadSeq
  }

  lemma SameMoves(s: State, s': State, t: State, t': State)
    requires SameQueue(s, s') && SameQueue(t, t') && Moves(s', t')
    ensures Moves(s, t)
  {
    hide Thins;
    if !Thins(t'.retry, s'.retry) || t'.outgoingSeq != s'.outgoingSeq || t'.uploadSeq != s'.uploadSeq {
      var e: Entry :| t'.retry == s'.retry + [e] && e.msgId == SeqOf(s', e.table) + 1 == SeqOf(t', e.table)
        && forall table | table != e.table :: SeqOf(t', table) == SeqOf(s', table);
      assert t.retry == s.retry + [e];
      assert forall table :: SeqOf(t, table) == SeqOf(t', table) && SeqOf(s, table) == SeqOf(s', table);
    }
  }

  lemma MessageMoves(s: State, m: Message, now: int)
    ensures Moves(s, OnMessage(s, m, now))
  {
    hide Moves, ValidSegment, Save, WithoutFirstUpload, UploadsWithout, Thins;
    var t := OnMessage(s, m, now);
    match m
    case RecordAck(_, uid) =>
      var s' := s.(active := s.active + {uid});
      SaveMoves(s', Upload, 0, Replay(uid), now);
      if ValidSegment(uid) && uid in s.krpr {
        SameMoves(s, s', t, Save(s', Upload, 0, Replay(uid), now));
      } else {
        StayMoves(s, t);
      }
    case FileAck(_, uid, status, moved) =>
      if ValidSegment(uid) && status {
        CleanupMoves(s, t, uid);
      } else {
        StayMoves(s, t);
      }
    case _ => StayMoves(s, t);
  }

  lemma CleanupMoves(s: State, t: State, uid: Text)
    requires t.retry == WithoutFirstUpload(s.retry, uid) && t.outgoingSeq == s.outgoingSeq && t.uploadSeq == s.uploadSeq
    ensures Moves(s, t)
  {
    WithoutFirstUploadThins(s.retry, uid);
  }

  lemma TaskMoves(s: State, room: bool, now: int)
    requires s.tasks != []
    ensures Moves(s, OnTask(s, room, now))
  {
    hide Moves, Save, UploadsWithout;
    var t := OnTask(s, room, now);
    if SameQueue(s, t) {
      StayMoves(s, t);
    } else {
      var uid := s.tasks[0].uid;
      var s' := s.(tasks := s.tasks[1..], active := s.active + {uid});
      SaveMoves(s', Upload, 0, Replay(uid), now);
      SameMoves(s, s', t, Save(s', Upload, 0, Replay(uid), now));
    }
  }

  lemma InputMoves(s: State, i: Input)
    requires CanTake(s, i) && !Renews(i) && !i.RetryPass?
    ensures Moves(s, Take(s, i))
  {
    hide Moves, Thins, ValidSegment, Honest, Lists, OnMessage, OnTask, OnLoad, Save, Delete, Durable, EphemeralIds,
      WithoutTable, RunsIn, Pass;
    var t := Take(s, i);
    match i
    case Submit(uid, now) =>
      var s' := s.(krpr := s.krpr + {uid}, submitted := s.submitted + {uid});
      SaveMoves(s', Outgoing, ADD_RECORD, Record(uid), now);
      SameMoves(s, s', t, t);
    case OtherMessage(msgType, text, now) => SaveMoves(s, Outgoing, msgType, Other(text), now);
    case Received(m, now) => MessageMoves(s, m, now);
    case Handled(room) =>
      var p := s.pending.value;
      var u := s.(pending := None);
      var s' := if p.task.Some? then u.(tasks := s.tasks + [p.task.value]) else u;
      DeleteMoves(s', p.id, Outgoing);
      if SameQueue(s, t) { StayMoves(s, t); } else { SameMoves(s, s', t, t); }
    case RunTask(room, now) => TaskMoves(s, room, now);
    case ProcessUpload(readable) => StayMoves(s, t);
    case MapEnds => ClearMoves(s, t);
    case OperatorDelete(id, table) =>
      var rows := if table == Outgoing then s.outgoing else s.upload;
      var s' := if id in rows && !rows[id].message.Other? then s.(fates := End(s, rows[id].message.uid, Purged)) else s;
      DeleteMoves(s', id, table);
      SameMoves(s, s', t, t);
    case OperatorClear(table) => WipeMoves(s, t, table);
  }

  lemma ClearMoves(s: State, t: State)
    requires t.retry == Durable(s.retry) && t.outgoingSeq == s.outgoingSeq && t.uploadSeq == s.uploadSeq
    ensures Moves(s, t)
  {
    DurableThins(s.retry);
  }

  lemma WipeMoves(s: State, t: State, table: Table)
    requires t.retry == WithoutTable(s.retry, table) && t.outgoingSeq == s.outgoingSeq && t.uploadSeq == s.uploadSeq
    ensures Moves(s, t)
  {
    WithoutTableThins(s.retry, table);
  }

  // ---------------------------------------------------------------- one entry a message

  lemma {:induction false} RequeuedHasAsMany(q: seq<Entry>, table: Table, id: int)
    ensures Entries(Requeued(q), table, id) == Entries(q, table, id)
  {
    if q != [] {
      RequeuedHasAsMany(q[1..], table, id);
      assert Requeued(q)[1..] == Requeued(q[1..]);
    }
  }

  lemma {:induction false} NoEntry(q: seq<Entry>, table: Table, id: int)
    requires forall e | e in q :: !Is(e, table, id)
    ensures Entries(q, table, id) == 0
  {
    if q != [] {
      assert q == [q[0]] + q[1..];
      assert q[0] in q;
      NoEntry(q[1..], table, id);
    }
  }

  lemma {:induction false} LoadedOnce(rows: Rows, order: seq<int>, t: Table, table: Table, id: int)
    requires forall k | 0 <= k < |order| :: order[k] in rows
    requires forall i, j | 0 <= i < j < |order| :: order[i] != order[j]
    ensures Entries(Loaded(rows, order, t), table, id) <= 1
    ensures t != table || id !in order ==> Entries(Loaded(rows, order, t), table, id) == 0
  {
    if order != [] {
      assert order == [order[0]] + order[1..];
      assert order[0] !in order[1..];
      LoadedOnce(rows, order[1..], t, table, id);
      assert Loaded(rows, order, t)[1..] == Loaded(rows, order[1..], t);
    }
  }

  /** Entries have distinct keys, and the ids of rows that were once saved. */
  ghost predicate Unique(s: State) {
    && (forall table, id :: Entries(s.retry, table, id) <= 1)
    && (forall e | e in s.retry :: e.msgId <= SeqOf(s, e.table))
  }

  lemma MovesStaysUnique(s: State, t: State)
    requires Unique(s) && Moves(s, t)
    ensures Unique(t) && t.outgoingSeq >= s.outgoingSeq && t.uploadSeq >= s.uploadSeq
  {
    if Thins(t.retry, s.retry) && t.outgoingSeq == s.outgoingSeq && t.uploadSeq == s.uploadSeq {
      forall table, id ensures Entries(t.retry, table, id) <= 1 {
        assert Entries(s.retry, table, id) <= 1;
        ThinsSpends(t.retry, s.retry, table, id, Limits(0, 0));
      }
      forall e | e in t.retry ensures e.msgId <= SeqOf(t, e.table) { ThinsEntry(t.retry, s.retry, e); }
    } else {
      var e: Entry :| t.retry == s.retry + [e] && e.msgId == SeqOf(s, e.table) + 1 == SeqOf(t, e.table)
        && forall table | table != e.table :: SeqOf(t, table) == SeqOf(s, table);
      SavedStaysUnique(s, t, e);
    }
  }

  lemma SavedStaysUnique(s: State, t: State, e: Entry)
    requires Unique(s) && t.retry == s.retry + [e] && e.msgId == SeqOf(s, e.table) + 1 == SeqOf(t, e.table)
    requires forall table | table != e.table :: SeqOf(t, table) == SeqOf(s, table)
    ensures Unique(t) && t.outgoingSeq >= s.outgoingSeq && t.uploadSeq >= s.uploadSeq
  {
    NoEntry(s.retry, e.table, e.msgId);
    forall table, id ensures Entries(t.retry, table, id) <= 1 {
      StampsOfBoth(s.retry, [e], table, id);
      assert Entries(s.retry, table, id) <= 1 && [e][1..] == [];
    }
    assert SeqOf(t, Outgoing) >= SeqOf(s, Outgoing) && SeqOf(t, Upload) >= SeqOf(s, Upload);
    forall o: Entry | o in t.retry ensures o.msgId <= SeqOf(t, o.table) {
      assert o == e || o in s.retry;
    }
  }

  lemma PassStaysUnique(s: State, ts: int, lim: Limits, t: State)
    requires Unique(s) && t.retry == Pass(s.retry, ts, lim).0
    requires t.outgoingSeq == s.outgoingSeq && t.uploadSeq == s.uploadSeq
    ensures Unique(t)
  {
    forall table, id ensures Entries(t.retry, table, id) <= 1 {
      assert Entries(s.retry, table, id) <= 1;
      PassMovesStamp(s.retry, ts, lim, table, id);
    }
    forall e | e in t.retry ensures e.msgId <= SeqOf(t, e.table) { var o := PassMirrors(s.retry, ts, lim, e); }
  }

  lemma OpenStaysUnique(s: State)
    requires Unique(s)
    ensures Unique(OnOpen(s))
  {
    var t := OnOpen(s);
    forall table, id ensures Entries(t.retry, table, id) <= 1 {
      assert Entries(s.retry, table, id) <= 1;
      RequeuedHasAsMany(s.retry, table, id);
    }
    forall e | e in t.retry ensures e.msgId <= SeqOf(t, e.table) {
      var k :| 0 <= k < |t.retry| && t.retry[k] == e;
      assert s.retry[k] in s.retry;
    }
  }

  lemma LoadIsUnique(s: State, outs: seq<int>, ups: seq<int>)
    requires Lists(outs, s.outgoing) && Lists(ups, s.upload)
    requires Numbered(s.outgoing, s.outgoingSeq) && Numbered(s.upload, s.uploadSeq)
    ensures Unique(OnLoad(s, outs, ups))
  {
    var a, b := Loaded(s.outgoing, outs, Outgoing), Loaded(s.upload, ups, Upload);
    forall table, id ensures Entries(a + b, table, id) <= 1 {
      LoadedOnce(s.outgoing, outs, Outgoing, table, id);
      LoadedOnce(s.upload, ups, Upload, table, id);
      StampsOfBoth(a, b, table, id);
    }
    forall e: Entry | e in a + b ensures e.msgId <= SeqOf(s, e.table) {
      assert e in a || e in b;
    }
  }

  lemma EmptyIsUnique(s: State)
    requires s.retry == []
    ensures Unique(s)
  {
  }

  lemma TakeStaysUnique(s: State, i: Input)
    requires Safe(s) && Unique(s) && CanTake(s, i)
    ensures Unique(Take(s, i))
  {
    assert Numbered(s.outgoing, s.outgoingSeq) && Numbered(s.upload, s.uploadSeq);
    hide Safe, Unique, Moves, Numbered, ValidSegment, Honest, Lists, OnMessage, OnHandled, OnTask, OnLoad, OnOpen,
        OnClear,
      OnOperatorClear, OnOperatorDelete, OnSubmit, Save, Pass;
    if i.RetryPass? {
      PassStaysUnique(s, i.ts, i.lim, Take(s, i));
    } else if !Renews(i) {
      InputMoves(s, i);
      MovesStaysUnique(s, Take(s, i));
    } else if i.Opened? {
      OpenStaysUnique(s);
    } else if i.Restart? {
      EmptyIsUnique(Take(s, i));
    } else {
      LoadIsUnique(s, i.outs, i.ups);
    }
  }

  /** In every state the outbox can reach, each message has at most one entry in the retry queue. */
  lemma {:induction false} EntriesAreUnique(inputs: seq<Input>, s: State)
    requires Reached(inputs, s)
    ensures Unique(s)
    decreases |inputs|
  {
    hide Take, CanTake, Unique;
    if inputs == [] {
      EmptyIsUnique(s);
    } else {
      var last := |inputs| - 1;
      var before :| Reached(inputs[..last], before) && CanTake(before, inputs[last]) && s == Take(before, inputs[last]);
      EntriesAreUnique(inputs[..last], before);
      EveryStateIsSafe(inputs[..last], before);
      TakeStaysUnique(before, inputs[last]);
    }
  }

  // ---------------------------------------------------------------- attempts in a continuation

  /** Nothing is renewed, and the limits stay as they are. */
  predicate Steady(more: seq<Input>, lim: Limits) {
    forall k | 0 <= k < |more| :: !Renews(more[k]) && (more[k].RetryPass? ==> more[k].lim == lim)
  }

  function MadeBy(s: State, i: Input): seq<Attempt> {
    if i.RetryPass? then Made(s.retry, Tick(i.ts), i.lim) else []
  }

  /** Every attempt the outbox makes while it takes its inputs. */
  function AllAttempts(s: State, more: seq<Input>): seq<Attempt>
    requires Takeable(s, more)
    decreases |more|
  {
    if more == [] then [] else MadeBy(s, more[0]) + AllAttempts(Take(s, more[0]), more[1..])
  }

  lemma MovesSpends(s: State, t: State, table: Table, id: int, lim: Limits)
    requires Unique(s) && Moves(s, t) && id <= SeqOf(s, table)
    ensures Budget(t.retry, table, id, lim) <= Budget(s.retry, table, id, lim)
    ensures StampMoves(Stamps(s.retry, table, id), Stamps(t.retry, table, id), [], lim.delay)
  {
    assert Entries(s.retry, table, id) <= 1;
    if Thins(t.retry, s.retry) {
      ThinsSpends(t.retry, s.retry, table, id, lim);
      ThinsMovesStamp(t.retry, s.retry, table, id);
    } else {
      var e: Entry :| t.retry == s.retry + [e] && e.msgId == SeqOf(s, e.table) + 1 == SeqOf(t, e.table);
      BudgetOfBoth(s.retry, [e], table, id, lim);
      StampsOfBoth(s.retry, [e], table, id);
      assert [e][1..] == [];
    }
  }

  lemma UniqueEntry(s: State, table: Table, id: int)
    requires Unique(s)
    ensures Entries(s.retry, table, id) <= 1
  {
  }

  /** All a pass does to the queue is the pass. */
  lemma PassTakes(s: State, i: Input)
    requires i.RetryPass?
    ensures Take(s, i).retry == Pass(s.retry, i.ts, i.lim).0
    ensures Take(s, i).outgoingSeq == s.outgoingSeq && Take(s, i).uploadSeq == s.uploadSeq
  {
    hide Pass;
  }

  lemma InputSpends(s: State, i: Input, table: Table, id: int, lim: Limits)
    requires Unique(s) && CanTake(s, i) && !Renews(i) && (i.RetryPass? ==> i.lim == lim) && id <= SeqOf(s, table)
    ensures var made, t := Times(MadeBy(s, i), table, id), Take(s, i);
      && |made| + Budget(t.retry, table, id, lim) <= Budget(s.retry, table, id, lim)
      && StampMoves(Stamps(s.retry, table, id), Stamps(t.retry, table, id), made, lim.delay)
      && id <= SeqOf(t, table)
  {
    hide Take, CanTake, Moves, Budget, Stamps, StampMoves, Unique, Pass;
    UniqueEntry(s, table, id);
    if i.RetryPass? {
      PassTakes(s, i);
      EventSpends(s.retry, Tick(i.ts), lim, table, id);
      PassMovesStamp(s.retry, i.ts, lim, table, id);
    } else {
      InputMoves(s, i);
      MovesStaysUnique(s, Take(s, i));
      MovesSpends(s, Take(s, i), table, id, lim);
    }
  }

  /** The two bounds at once, over any continuation that renews nothing. */
  lemma {:induction false} ContinuationBound(s: State, more: seq<Input>, table: Table, id: int, lim: Limits)
    requires Safe(s) && Unique(s) && Takeable(s, more) && Steady(more, lim) && id <= SeqOf(s, table)
    ensures var times := Times(AllAttempts(s, more), table, id);
      && |times| <= Budget(s.retry, table, id, lim)
      && if Stamps(s.retry, table, id) == [] then times == []
         else Apart(Stamps(s.retry, table, id)[0], times, lim.delay)
    decreases |more|
  {
    hide Safe, Unique, Take, CanTake, Stamps, Budget, MadeBy, SeqOf;
    if more != [] {
      var t := Take(s, more[0]);
      InputSpends(s, more[0], table, id, lim);
      TakeKeeps(s, more[0]);
      TakeStaysUnique(s, more[0]);
      ContinuationBound(t, more[1..], table, id, lim);
      var made, later := Times(MadeBy(s, more[0]), table, id), Times(AllAttempts(t, more[1..]), table, id);
      TimesOfBoth(MadeBy(s, more[0]), AllAttempts(t, more[1..]), table, id);
      assert [] + later == later;
      if made != [] { assert (made + later)[1..] == later; }
    }
  }

  /** A message that is new or was requeued, in any state the outbox can reach: in every continuation of its history
      that neither reconnects nor restarts, with saves, acknowledgements, ends of maps, operators and passes as
      they come and however the clock runs, it is attempted at most `max + 1` times, more than `delay` apart. */
  lemma OutboxRetryBound(inputs: seq<Input>, s: State, k: nat, more: seq<Input>, lim: Limits)
    requires Reached(inputs, s) && k < |s.retry| && s.retry[k].retryCount == 0
    requires Takeable(s, more) && Steady(more, lim)
    ensures Reached(inputs + more, TakeAll(s, more))
    ensures var times := Times(AllAttempts(s, more), s.retry[k].table, s.retry[k].msgId);
      |times| <= (if lim.max < 0 then 0 else lim.max + 1) && Apart(s.retry[k].timestamp, times, lim.delay)
  {
    ReachedOn(inputs, s, more);
    EntriesAreUnique(inputs, s);
    EveryStateIsSafe(inputs, s);
    var e := s.retry[k];
    assert e in s.retry && Entries(s.retry, e.table, e.msgId) <= 1;
    hide Reached, Unique, Safe, Takeable, Steady, AllAttempts;
    BudgetOfOne(s.retry, k, lim);
    ContinuationBound(s, more, e.table, e.msgId, lim);
  }

  // ---------------------------------------------------------------- draining

  /** The times of the passes among the inputs. */
  function PassTimes(more: seq<Input>): seq<int> {
    if more == [] then [] else (if more[0].RetryPass? then [more[0].ts] else []) + PassTimes(more[1..])
  }

  /** Entries taken out leave no more owed. */
  lemma ThinsOwes(r: seq<Entry>, q: seq<Entry>, base: int, lim: Limits)
    requires Thins(r, q)
    ensures Owed(r, base, lim) <= Owed(q, base, lim)
  {
    ThinsSpends(r, q, Outgoing, 0, lim);
    if NotLaterThan(q, base) { ThinsStamps(r, q, base); }
  }

  /** What a pass does to the front of the queue does not depend on what comes after it. */
  lemma {:induction false} PassSplits(f: seq<Entry>, b: seq<Entry>, ts: int, lim: Limits) returns (c: seq<Entry>)
    ensures Pass(f + b, ts, lim).0 == Pass(f, ts, lim).0 + c && (c == b || c == Pass(b, ts, lim).0)
  {
    hide Due, Dead, Attempted;
    if f == [] {
      c := Pass(b, ts, lim).0;
      assert f + b == b && [] + c == c;
    } else {
      assert (f + b)[0] == f[0] && (f + b)[1..] == f[1..] + b;
      c := PassSplits(f[1..], b, ts, lim);
      if Due(f[0], ts, lim) && !Dead(f[0], lim) {
        c := b;
        assert [Attempted(f[0], ts)] + (f[1..] + b) == [Attempted(f[0], ts)] + f[1..] + b;
      } else {
        assert [f[0]] + (Pass(f[1..], ts, lim).0 + c) == [f[0]] + Pass(f[1..], ts, lim).0 + c;
      }
    }
  }

  /** Neither does a removal. */
  lemma {:induction false} ThinsSplits(r: seq<Entry>, f: seq<Entry>, b: seq<Entry>)
    returns (g: seq<Entry>, c: seq<Entry>)
    requires Thins(r, f + b)
    ensures r == g + c && Thins(g, f) && Thins(c, b)
    decreases |f|
  {
    if f == [] {
      assert f + b == b;
      g, c := [], r;
    } else if r == [] {
      g, c := [], [];
    } else {
      assert (f + b)[0] == f[0] && (f + b)[1..] == f[1..] + b;
      if Thins(r, f[1..] + b) {
        g, c := ThinsSplits(r, f[1..], b);
      } else {
        g, c := ThinsSplits(r[1..], f[1..], b);
        g := [r[0]] + g;
        assert g[1..] + c == r[1..] && g[0] == r[0];
      }
    }
  }

  /** All entries are of messages saved after the state. */
  predicate Newer(q: seq<Entry>, s: State) {
    forall e | e in q :: e.msgId > SeqOf(s, e.table)
  }

  lemma ThinsNewer(r: seq<Entry>, q: seq<Entry>, s: State)
    requires Thins(r, q) && Newer(q, s)
    ensures Newer(r, s)
  {
    forall e | e in r ensures e.msgId > SeqOf(s, e.table) { ThinsEntry(r, q, e); }
  }

  lemma PassNewer(q: seq<Entry>, ts: int, lim: Limits, s: State)
    requires Newer(q, s)
    ensures Newer(Pass(q, ts, lim).0, s)
  {
    forall e | e in Pass(q, ts, lim).0 ensures e.msgId > SeqOf(s, e.table) { var o := PassMirrors(q, ts, lim, e); }
  }

  /** What is left of the messages of `s0` is the front `f` of the queue; behind it are messages saved since. */
  predicate Fronted(s: State, f: seq<Entry>, b: seq<Entry>, s0: State) {
    && s.retry == f + b && Newer(b, s0)
    && s.outgoingSeq >= s0.outgoingSeq && s.uploadSeq >= s0.uploadSeq
  }

  lemma PassFronts(s: State, i: Input, f: seq<Entry>, b: seq<Entry>, s0: State) returns (c: seq<Entry>)
    requires i.RetryPass? && Fronted(s, f, b, s0)
    ensures Fronted(Take(s, i), Pass(f, i.ts, i.lim).0, c, s0)
  {
    hide Take, Pass, Newer;
    PassTakes(s, i);
    PassNewer(b, i.ts, i.lim, s0);
    c := PassSplits(f, b, i.ts, i.lim);
  }

  lemma MovesFront(s: State, t: State, f: seq<Entry>, b: seq<Entry>, s0: State)
    returns (g: seq<Entry>, c: seq<Entry>)
    requires Moves(s, t) && Fronted(s, f, b, s0)
    ensures Fronted(t, g, c, s0) && Thins(g, f)
  {
    if Thins(t.retry, s.retry) && t.outgoingSeq == s.outgoingSeq && t.uploadSeq == s.uploadSeq {
      g, c := ThinsSplits(t.retry, f, b);
      hide Newer;
      ThinsNewer(c, b, s0);
    } else {
      hide Thins;
      var e: Entry :| t.retry == s.retry + [e] && e.msgId == SeqOf(s, e.table) + 1 == SeqOf(t, e.table)
        && forall table | table != e.table :: SeqOf(t, table) == SeqOf(s, table);
      assert SeqOf(t, Outgoing) >= SeqOf(s, Outgoing) && SeqOf(t, Upload) >= SeqOf(s, Upload);
      g, c := f, b + [e];
      assert f + b + [e] == g + c;
      ThinsItself(f);
    }
  }

  /** In any continuation that renews nothing, whatever is saved meanwhile, however many passes there are, whatever the
      clock does and whatever happens between them: once the passes span as many delays as the front is owed, only
      messages saved since are left. */
  lemma {:induction false} ContinuationDrains(s: State, f: seq<Entry>, b: seq<Entry>, s0: State, more: seq<Input>,
                                              base: int, latest: int, lim: Limits)
    requires Takeable(s, more) && Steady(more, lim) && Fronted(s, f, b, s0)
    requires base <= latest && NotLaterThan(f, latest)
    requires Spans(base, latest, PassTimes(more), lim.delay) >= Owed(f, base, lim)
    ensures Newer(TakeAll(s, more).retry, s0)
    decreases |more|
  {
    hide CanTake, Take, NotLaterThan, Measure, Fronted, Owed;
    if more == [] {
      NothingFronted(s, f, b, s0, base, lim);
    } else {
      var i, t := more[0], Take(s, more[0]);
      if i.RetryPass? {
        PassPays(f, base, latest, i.ts, lim);
        PassStaysPaid(f, base, Later(latest, i.ts), i.ts, lim);
        var c := PassFronts(s, i, f, b, s0);
        assert PassTimes(more)[1..] == PassTimes(more[1..]);
        var now := Later(latest, i.ts);
        ContinuationDrains(t, Pass(f, i.ts, lim).0, c, s0, more[1..], if i.ts - base > lim.delay then now else base,
          now, lim);
      } else {
        InputMoves(s, i);
        var g, c := MovesFront(s, t, f, b, s0);
        ThinsOwes(g, f, base, lim);
        ThinsStamps(g, f, latest);
        assert PassTimes(more) == PassTimes(more[1..]) by { assert [] + PassTimes(more[1..]) == PassTimes(more[1..]); }
        ContinuationDrains(t, g, c, s0, more[1..], base, latest, lim);
      }
    }
  }

  lemma NothingFronted(s: State, f: seq<Entry>, b: seq<Entry>, s0: State, base: int, lim: Limits)
    requires Fronted(s, f, b, s0) && Owed(f, base, lim) == 0
    ensures Newer(s.retry, s0)
  {
    NothingToPay(f, lim);
    assert f + b == b;
  }

  lemma PassStaysPaid(f: seq<Entry>, base: int, now: int, ts: int, lim: Limits)
    ensures Owed(f, base, lim) == 0 ==> Owed(Pass(f, ts, lim).0, now, lim) == 0
  {
    NothingToPay(f, lim);
  }

  lemma ThinsStamps(r: seq<Entry>, q: seq<Entry>, ts: int)
    requires Thins(r, q) && NotLaterThan(q, ts)
    ensures NotLaterThan(r, ts)
  {
    forall e | e in r ensures e.timestamp <= ts { ThinsEntry(r, q, e); }
  }

  /** The entries are no later than `last`, and the passes after it span as many delays as their measure. */
  predicate Outlasts(s: State, more: seq<Input>, last: int, lim: Limits) {
    NotLaterThan(s.retry, last) && Spans(last, last, PassTimes(more), lim.delay) >= Measure(s.retry, lim)
  }

  /** No message was saved on the way from `s` to `t`. */
  predicate SavesNothing(s: State, t: State) {
    t.outgoingSeq == s.outgoingSeq && t.uploadSeq == s.uploadSeq
  }

  /** The queue of any reachable state drains, however many passes there are, whatever the clock does and whatever is
      saved meanwhile: no message of it is left, and nothing at all if nothing is saved. */
  lemma OutboxDrains(inputs: seq<Input>, s: State, more: seq<Input>, last: int, lim: Limits)
    requires Reached(inputs, s) && Takeable(s, more) && Steady(more, lim) && Outlasts(s, more, last, lim)
    ensures Reached(inputs + more, TakeAll(s, more))
    ensures forall e | e in s.retry :: Entries(TakeAll(s, more).retry, e.table, e.msgId) == 0
    ensures SavesNothing(s, TakeAll(s, more)) ==> TakeAll(s, more).retry == []
  {
    hide Takeable, TakeAll, Steady, NotLaterThan, Spans, Measure, PassTimes;
    ReachedOn(inputs, s, more);
    assert s.retry + [] == s.retry && Newer([], s);
    ContinuationDrains(s, s.retry, [], s, more, last, last, lim);
    EntriesAreUnique(inputs, s);
    EntriesAreUnique(inputs + more, TakeAll(s, more));
    hide Reached;
    OnlyNewer(s, TakeAll(s, more));
  }

  lemma OnlyNewer(s: State, t: State)
    requires Unique(s) && Unique(t) && Newer(t.retry, s)
    ensures forall e | e in s.retry :: Entries(t.retry, e.table, e.msgId) == 0
    ensures SavesNothing(s, t) ==> t.retry == []
  {
    forall e | e in s.retry ensures Entries(t.retry, e.table, e.msgId) == 0 {
      NewerHasNone(t.retry, s, e.table, e.msgId);
    }
    if t.retry != [] { assert t.retry[0] in t.retry; }
  }

  lemma {:induction false} NewerHasNone(q: seq<Entry>, s: State, table: Table, id: int)
    requires Newer(q, s) && id <= SeqOf(s, table)
    ensures Entries(q, table, id) == 0
  {
    if q != [] {
      assert q[0] in q;
      NewerHasNone(q[1..], s, table, id);
    }
  }

  /** With a pass every frame, that takes a time that depends on the measure, the delay and the longest frame alone. */
  lemma OutboxDrainsInTime(inputs: seq<Input>, s: State, more: seq<Input>, last: int, step: int, lim: Limits)
    requires Reached(inputs, s) && Takeable(s, more) && Steady(more, lim)
    requires lim.delay >= 0 && step >= 0 && NotLaterThan(s.retry, last) && Frames(last, PassTimes(more), step)
    requires EndOf(last, PassTimes(more)) - last > lim.delay + (Measure(s.retry, lim) - 1) * (lim.delay + step)
    ensures Reached(inputs + more, TakeAll(s, more))
    ensures forall e | e in s.retry :: Entries(TakeAll(s, more).retry, e.table, e.msgId) == 0
  {
    hide Reached, Takeable, TakeAll, Steady, NotLaterThan, Spans, Measure, PassTimes, Frames, EndOf, Entries;
    EnoughFrames(last, PassTimes(more), step, lim.delay, Measure(s.retry, lim));
    OutboxDrains(inputs, s, more, last, lim);
  }

  /** A marked upload is given up: from any reachable state, in every continuation that neither renews nor releases
      it, its attempts are counted, at most `max + 1` and more than the delay apart, but none is carried out; and
      once the passes span as many delays as the measure of the queue, it has no entry left. */
  lemma MarkedUploadIsGivenUp(inputs: seq<Input>, s: State, k: nat, uid: Text, more: seq<Input>, last: int, lim: Limits)
    requires Reached(inputs, s) && k < |s.retry| && s.retry[k].retryCount == 0
    requires UploadOf(s.retry[k], uid) && uid in s.active
    requires Takeable(s, more) && Steady(more, lim) && NeverReleased(s, more, uid)
    ensures Reached(inputs + more, TakeAll(s, more))
    ensures PassesSendNothing(s, more, uid) && uid in TakeAll(s, more).active
    ensures var times := Times(AllAttempts(s, more), Upload, s.retry[k].msgId);
      |times| <= (if lim.max < 0 then 0 else lim.max + 1) && Apart(s.retry[k].timestamp, times, lim.delay)
    ensures Outlasts(s, more, last, lim) ==> Entries(TakeAll(s, more).retry, Upload, s.retry[k].msgId) == 0
  {
    hide Reached, Takeable, TakeAll, NeverReleased, PassesSendNothing, Steady, Outlasts, PassTimes, AllAttempts, Apart,
      Times;
    PassesOfActiveRunsSendNothing(s, more, uid);
    OutboxRetryBound(inputs, s, k, more, lim);
    if Outlasts(s, more, last, lim) { OutboxDrains(inputs, s, more, last, lim); }
  }
}
