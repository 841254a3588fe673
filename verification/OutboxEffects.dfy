/** What single steps of the outbox leave behind, told by what can be found in the tables, the queue and the files
    afterwards: each step's own effect and, where it matters, that there is no other. */
module OutboxEffects {
  import opened Options
  import opened ReplayNames
  import opened RetryQueue
  import opened RetryBounds
  import opened OutboxSpec
  import opened OutboxSafety

  function RowsOf(s: State, table: Table): Rows {
    if table == Outgoing then s.outgoing else s.upload
  }

  function OtherTable(table: Table): Table {
    if table == Outgoing then Upload else Outgoing
  }

  /** Everything but the queue and the tables. */
  predicate SameApart(s: State, t: State) {
    && t.krpr == s.krpr && t.krpz == s.krpz && t.active == s.active && t.tasks == s.tasks && t.uploads == s.uploads
    && t.pending == s.pending && t.submitted == s.submitted
  }

  // ---------------------------------------------------------------- saving and deleting

  /** A saved message is found in its table under an id no row had, and at the end of the queue as a new entry of that
      id; no other row or entry changes. */
  lemma SavedIsThere(s: State, table: Table, msgType: int, message: Payload, now: int)
    requires Numbered(s.outgoing, s.outgoingSeq) && Numbered(s.upload, s.uploadSeq)
    ensures var t, n := Save(s, table, msgType, message, now), |s.retry|;
      && |t.retry| == n + 1 && t.retry[..n] == s.retry
      && var e := t.retry[n];
        && e.table == table && e.msgType == msgType && e.message == message && e.retryCount == 0
        && e.msgId !in RowsOf(s, table) && e.msgId > 0
        && RowsOf(t, table).Keys == RowsOf(s, table).Keys + {e.msgId}
        && RowsOf(t, table)[e.msgId] == Row(msgType, message, now)
        && (forall id | id in RowsOf(s, table) :: RowsOf(t, table)[id] == RowsOf(s, table)[id])
        && RowsOf(t, OtherTable(table)) == RowsOf(s, OtherTable(table))
        && SameApart(s, t)
  {
    hide SaveStamp;
  }

  /** Messages saved in quick succession are spread out: a message becomes due for its first attempt no earlier than
      five seconds after the save before it would have, at most five seconds late, and on time if that save is five
      seconds past. */
  lemma SavesAreSpread(s: State, table: Table, msgType: int, message: Payload, now: int)
    ensures var t, n := Save(s, table, msgType, message, now), |s.retry|;
      && t.lastTs == now && now <= t.retry[n].timestamp <= now + 5
      && (now >= s.lastTs ==> t.retry[n].timestamp >= s.lastTs + 5)
      && (t.retry[n].timestamp == now <==> now - s.lastTs >= 5)
      && forall ts, lim: Limits :: Due(t.retry[n], ts, lim) ==> ts > now + lim.delay
  {
  }

  /** A deleted message is in its table and in the queue no more; everything else is. */
  lemma DeletedIsGone(s: State, id: int, table: Table)
    ensures var t := Delete(s, id, table);
      && RowsOf(t, table).Keys == RowsOf(s, table).Keys - {id}
      && (forall k | k in RowsOf(t, table) :: RowsOf(t, table)[k] == RowsOf(s, table)[k])
      && RowsOf(t, OtherTable(table)) == RowsOf(s, OtherTable(table))
      && (forall e :: e in t.retry <==> e in s.retry && !(e.msgId == id && e.table == table))
      && SameApart(s, t)
  {
    forall e ensures e in Without(s.retry, id, table) <==> e in s.retry && !(e.msgId == id && e.table == table) {
      WithoutEntries(s.retry, id, table, e);
    }
    hide Without;
  }

  // ---------------------------------------------------------------- ends of maps, operators, reconnects, restarts

  /** Map information wanted, players joining and leaving: what the next map has no use for. */
  predicate OfTheMap(e: Entry) {
    e.msgType in {3, 4, 5}
  }

  lemma {:induction false} ClearedId(q: seq<Entry>, table: Table, e: Entry)
    requires e in q && OfTheMap(e) && e.table == table
    ensures e.msgId in EphemeralIds(q, table)
  {
    assert q == [q[0]] + q[1..];
    if e != q[0] { ClearedId(q[1..], table, e); }
  }

  /** When a map ends, exactly its own messages go, from the queue and, where they are kept, from the outgoing table. */
  lemma MapEndClears(s: State)
    ensures var t := OnClear(s);
      && (forall e :: e in t.retry <==> e in s.retry && !OfTheMap(e))
      && (forall id :: id in t.outgoing <==>
            id in s.outgoing && !exists e :: e in s.retry && OfTheMap(e) && e.table == Outgoing && e.msgId == id)
      && (forall id | id in t.outgoing :: t.outgoing[id] == s.outgoing[id])
      && t.upload == s.upload && SameApart(s, t)
  {
    var t := OnClear(s);
    forall e ensures e in t.retry <==> e in s.retry && !OfTheMap(e) { DurableEntries(s.retry, e); }
    forall id ensures id in EphemeralIds(s.retry, Outgoing) <==>
      exists e :: e in s.retry && OfTheMap(e) && e.table == Outgoing && e.msgId == id
    {
      if id in EphemeralIds(s.retry, Outgoing) { var e := EphemeralIdOf(s.retry, Outgoing, id); }
      if e :| e in s.retry && OfTheMap(e) && e.table == Outgoing && e.msgId == id { ClearedId(s.retry, Outgoing, e); }
    }
    hide Durable, EphemeralIds;
  }

  /** An operator's deletion is a deletion, whatever it means for the run. */
  lemma OperatorDeletesOne(s: State, id: int, table: Table)
    ensures OnOperatorDelete(s, id, table).(fates := s.fates) == Delete(s, id, table)
  {
    hide Without;
  }

  /** An operator's clearing empties one table and takes its entries out of the queue. */
  lemma OperatorEmpties(s: State, table: Table)
    ensures var t := OnOperatorClear(s, table);
      && RowsOf(t, table) == map[] && RowsOf(t, OtherTable(table)) == RowsOf(s, OtherTable(table))
      && (forall e :: e in t.retry <==> e in s.retry && e.table != table)
      && SameApart(s, t)
  {
    forall e ensures e in WithoutTable(s.retry, table) <==> e in s.retry && e.table != table {
      WithoutTableEntries(s.retry, table, e);
    }
    hide WithoutTable, RunsIn;
  }

  /** When the connection opens, every entry is due as soon as the clock is past the delay, with all its attempts, and
      nothing else changes. */
  lemma OpeningMakesDue(s: State, k: nat, ts: int, lim: Limits)
    requires k < |s.retry| && ts > lim.delay
    ensures var t := OnOpen(s);
      && |t.retry| == |s.retry| && Due(t.retry[k], ts, lim)
      && Allowance(t.retry[k], lim) == (if lim.max < 0 then 0 else lim.max + 1)
      && t.retry[k].msgId == s.retry[k].msgId && t.retry[k].table == s.retry[k].table
      && t.retry[k].msgType == s.retry[k].msgType && t.retry[k].message == s.retry[k].message
      && t.outgoing == s.outgoing && t.upload == s.upload && SameApart(s, t)
  {
  }

  /** A process that starts over has the tables, the files and the ids it had, and nothing else. */
  lemma RestartKeepsTheTables(s: State)
    ensures var t := OnRestart(s);
      && t.outgoing == s.outgoing && t.outgoingSeq == s.outgoingSeq
      && t.upload == s.upload && t.uploadSeq == s.uploadSeq
      && t.krpr == s.krpr && t.krpz == s.krpz && t.submitted == s.submitted
      && t.retry == [] && t.active == {} && t.tasks == [] && t.uploads == [] && t.pending == None && t.lastTs == 0
  {
  }

  /** The entry of a row is due the delay after the row was made. */
  predicate EntryOf(e: Entry, rows: Rows) {
    && e.msgId in rows && e.retryCount == 0
    && rows[e.msgId] == Row(e.msgType, e.message, e.timestamp)
  }

  lemma {:induction false} LoadedEntry(rows: Rows, order: seq<int>, table: Table, e: Entry)
    requires forall k | 0 <= k < |order| :: order[k] in rows
    ensures e in Loaded(rows, order, table) <==> e.table == table && e.msgId in order && EntryOf(e, rows)
  {
    if order != [] {
      assert order == [order[0]] + order[1..];
      LoadedEntry(rows, order[1..], table, e);
      assert Loaded(rows, order, table)
        == [FromRow(order[0], rows[order[0]], table)] + Loaded(rows, order[1..], table);
    }
  }

  /** Loading makes the queue exactly the rows of both tables, each as a new entry that is due the delay after its row
      was made. */
  lemma LoadedIsTheTables(s: State, outs: seq<int>, ups: seq<int>, e: Entry)
    requires Lists(outs, s.outgoing) && Lists(ups, s.upload)
    ensures e in OnLoad(s, outs, ups).retry <==> EntryOf(e, RowsOf(s, e.table))
    ensures e in OnLoad(s, outs, ups).retry ==>
      forall ts, lim: Limits :: Due(e, ts, lim) <==> ts > RowsOf(s, e.table)[e.msgId].createdAt + lim.delay
  {
    LoadedEntry(s.outgoing, outs, Outgoing, e);
    LoadedEntry(s.upload, ups, Upload, e);
    hide Loaded, FromRow;
    var a, b := Loaded(s.outgoing, outs, Outgoing), Loaded(s.upload, ups, Upload);
    assert e in a + b <==> e in a || e in b;
  }

  // ---------------------------------------------------------------- answers

  /** An answered message leaves the outgoing table and the queue exactly when its answer hands nothing over or what
      it hands over finds room, and only then is the task queued. */
  lemma AnsweredIsGone(s: State, room: bool)
    requires s.pending.Some?
    ensures var p, t := s.pending.value, OnHandled(s, room);
      var through := p.task.None? || room;
      && t.pending == None && t.upload == s.upload && t.krpr == s.krpr && t.krpz == s.krpz && t.active == s.active
      && t.outgoing.Keys == s.outgoing.Keys - (if through && p.id > 0 then {p.id} else {})
      && (forall id | id in t.outgoing :: t.outgoing[id] == s.outgoing[id])
      && (forall e :: e in t.retry <==>
            e in s.retry && !(through && p.id > 0 && e.msgId == p.id && e.table == Outgoing))
      && t.tasks == s.tasks + (if p.task.Some? && room then [p.task.value] else [])
  {
    var p := s.pending.value;
    forall e ensures e in Without(s.retry, p.id, Outgoing) <==>
      e in s.retry && !(e.msgId == p.id && e.table == Outgoing)
    {
      WithoutEntries(s.retry, p.id, Outgoing, e);
    }
    hide Without;
    assert s.tasks + [] == s.tasks;
  }

  /** An acknowledgement counts exactly if its name is usable and the raw file is there; then the run is marked, its
      upload is saved and its raw file is to be sent. Otherwise nothing happens. */
  lemma AcknowledgementCounts(s: State, uid: Text, now: int)
    ensures var (t, task) := OnRecordAck(s, uid, now);
      if ValidSegment(uid) && uid in s.krpr then
        && task == Some(SendUpload(uid)) && t.active == s.active + {uid} && HasReplay(t.upload, uid)
        && |t.retry| == |s.retry| + 1 && UploadOf(t.retry[|s.retry|], uid)
        && t.outgoing == s.outgoing && t.krpr == s.krpr && t.krpz == s.krpz
      else t == s && task == None
  {
    hide ValidSegment, SaveStamp;
    if ValidSegment(uid) && uid in s.krpr {
      assert OnRecordAck(s, uid, now).0.upload[s.uploadSeq + 1].message == Replay(uid);
    }
  }

  /** An answer about a file under an unusable name is ignored; a rejection only asks for the upload to be requeued. */
  lemma RejectionAsks(s: State, uid: Text, status: bool, moved: bool)
    ensures !ValidSegment(uid) ==> OnFileAck(s, uid, status, moved) == (s, None)
    ensures ValidSegment(uid) && !status ==> OnFileAck(s, uid, status, moved) == (s, Some(RequeueUpload(uid)))
  {
    hide ValidSegment, WithoutFirstUpload, UploadsWithout;
  }

  /** An accepted upload's files leave their place exactly when both can be moved; other runs' files and rows stay. */
  lemma AcceptedFilesMove(s: State, uid: Text, moved: bool)
    requires ValidSegment(uid)
    ensures var t := OnFileAck(s, uid, true, moved).0;
      var moves := moved && uid in s.krpr && uid in s.krpz;
      && t.krpr == (if moves then s.krpr - {uid} else s.krpr) && t.krpz == (if moves then s.krpz - {uid} else s.krpz)
      && t.outgoing == s.outgoing && t.tasks == s.tasks && t.uploads == s.uploads
      && (forall other | other != uid :: other in t.active <==> other in s.active)
      && (forall id :: id in t.upload <==> id in s.upload && s.upload[id].message != Replay(uid))
      && (forall id | id in t.upload :: t.upload[id] == s.upload[id])
      && (OnFileAck(s, uid, true, moved).1.Some? <==> moves)
  {
    hide ValidSegment, WithoutFirstUpload;
  }

  /** A refused submission is to be discarded exactly when the answer is explained and names a stored submission. */
  lemma RefusedIsDiscarded(s: State, id: int, explained: bool, uid: Text)
    ensures OnErrorAck(s, id, explained).1 == Some(Discard(uid)) <==>
      && explained && id > 0 && id in s.outgoing
      && s.outgoing[id].msgType == ADD_RECORD && s.outgoing[id].message == Record(uid)
    ensures OnErrorAck(s, id, explained).0.(fates := s.fates) == s
  {
  }

  /** A rejected upload that is requeued has a row and an entry of its own again, and is marked exactly if there was
      room. */
  lemma RequeuedIsSaved(s: State, uid: Text, room: bool, now: int)
    requires Numbered(s.outgoing, s.outgoingSeq) && Numbered(s.upload, s.uploadSeq)
    requires (uid in s.krpr || uid in s.krpz) && uid !in s.active
    ensures var t, n := RequeuedUpload(s, uid, room, now), |s.retry|;
      && HasReplay(t.upload, uid) && |t.retry| == n + 1 && UploadOf(t.retry[n], uid) && t.retry[n].retryCount == 0
      && (uid in t.active <==> room) && t.krpr == s.krpr && t.krpz == s.krpz && t.outgoing == s.outgoing
  {
    hide SaveStamp;
    assert RequeuedUpload(s, uid, room, now).upload[s.uploadSeq + 1].message == Replay(uid);
  }

  /** An upload item is used up whatever comes of it; a raw file that is there and readable is compressed, and the
      raw file stays. */
  lemma ItemIsUsedUp(s: State, readable: bool)
    requires s.uploads != []
    ensures var t, item := OnUpload(s, readable), s.uploads[0];
      var sent := readable && FileThere(s, item);
      && t.uploads == s.uploads[1..] && t.krpr == s.krpr
      && (forall uid :: uid in t.krpz <==> uid in s.krpz || (sent && uid == item.uid))
      && (forall uid :: uid in t.active <==> uid in s.active && (sent || uid != item.uid))
      && t.outgoing == s.outgoing && t.upload == s.upload && t.retry == s.retry && t.tasks == s.tasks
  {
  }

  // ---------------------------------------------------------------- attempts

  /** A pass only attempts what is worth sending: due, with attempts left, not empty, and of a kind that is answered. */
  lemma {:induction false} AttemptIsWorthSending(q: seq<Entry>, ts: int, lim: Limits)
    requires Pass(q, ts, lim).1.Some?
    ensures var e := Pass(q, ts, lim).1.value;
      && e in q && ts - e.timestamp > lim.delay && e.retryCount <= lim.max
      && e.msgType != 2 && e.msgType != 4 && e.message != Replay([]) && e.message != Other([])
  {
    if !Due(q[0], ts, lim) || Dead(q[0], lim) {
      AttemptIsWorthSending(q[1..], ts, lim);
      assert q == [q[0]] + q[1..];
    }
  }
}
