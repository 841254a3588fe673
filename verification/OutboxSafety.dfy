/** The durable handoff: through every step, crash and restart, a submitted run is in one of the two
    tables until the server has accepted or refused it or an operator has deleted it. */
module OutboxSafety {
  import opened Options
  import opened ReplayNames
  import opened RetryQueue
  import opened OutboxSpec

  type Rows = map<int, Row>

  // ---------------------------------------------------------------- the invariant

  ghost predicate HasRecord(outgoing: Rows, uid: Text) {
    exists id :: id in outgoing && outgoing[id].message == Record(uid)
  }

  ghost predicate HasReplay(upload: Rows, uid: Text) {
    exists id :: id in upload && upload[id].message == Replay(uid)
  }

  /** Where a submitted run is. */
  ghost predicate Held(uid: Text, outgoing: Rows, upload: Rows, fates: map<Text, Fate>) {
    uid in fates || HasRecord(outgoing, uid) || HasReplay(upload, uid)
  }

  ghost predicate AllHeld(submitted: set<Text>, outgoing: Rows, upload: Rows, fates: map<Text, Fate>) {
    forall uid | uid in submitted :: Held(uid, outgoing, upload, fates)
  }

  /** The raw file of an unfinished run is there. */
  predicate OnDisk(submitted: set<Text>, fates: map<Text, Fate>, krpr: set<Text>) {
    forall uid | uid in submitted :: uid in fates || uid in krpr
  }

  predicate Numbered(rows: Rows, last: nat) {
    forall id | id in rows :: 0 < id <= last
  }

  /** Submissions are exactly the rows of type ADD_RECORD, each of a submitted run with a usable name. */
  predicate Typed(outgoing: Rows, submitted: set<Text>) {
    forall id | id in outgoing ::
      && (outgoing[id].message.Record? <==> outgoing[id].msgType == ADD_RECORD)
      && (outgoing[id].message.Record? ==>
        outgoing[id].message.uid in submitted && ValidSegment(outgoing[id].message.uid))
  }

  /** An entry in memory has the type of its row. */
  predicate Mirrors(retry: seq<Entry>, outgoing: Rows, last: nat) {
    forall e | e in retry && e.table == Outgoing :: EntryMirrors(e, outgoing, last)
  }

  predicate EntryMirrors(e: Entry, outgoing: Rows, last: nat) {
    e.msgId <= last && (e.msgId in outgoing ==> outgoing[e.msgId].msgType == e.msgType)
  }

  /** Only finished runs are waiting to be discarded. */
  predicate Discardable(tasks: seq<Task>, fates: map<Text, Fate>) {
    forall k | 0 <= k < |tasks| :: tasks[k].Discard? ==> tasks[k].uid in fates
  }

  /** An answered submission may lose its row: the run is finished, or already in the other table. */
  ghost predicate Deletable(outgoing: Rows, id: int, upload: Rows, fates: map<Text, Fate>) {
    id in outgoing && outgoing[id].message.Record? ==>
      outgoing[id].message.uid in fates || HasReplay(upload, outgoing[id].message.uid)
  }

  ghost predicate Answered(pending: Option<Pending>, outgoing: Rows, last: nat, upload: Rows, fates: map<Text, Fate>) {
    pending.Some? ==>
      var p := pending.value;
      && p.id <= last && Deletable(outgoing, p.id, upload, fates)
      && (p.task.Some? ==> Discardable([p.task.value], fates))
  }

  ghost predicate Safe(s: State) {
    && AllHeld(s.submitted, s.outgoing, s.upload, s.fates) && s.fates.Keys <= s.submitted
    && OnDisk(s.submitted, s.fates, s.krpr)
    && Numbered(s.outgoing, s.outgoingSeq) && Numbered(s.upload, s.uploadSeq)
    && Typed(s.outgoing, s.submitted)
    && Mirrors(s.retry, s.outgoing, s.outgoingSeq)
    && Discardable(s.tasks, s.fates)
    && Answered(s.pending, s.outgoing, s.outgoingSeq, s.upload, s.fates)
  }

  // ---------------------------------------------------------------- rows come

  lemma RowAdded(outgoing: Rows, last: nat, row: Row, submitted: set<Text>, retry: seq<Entry>, e: Entry)
    requires Numbered(outgoing, last) && Typed(outgoing, submitted) && Mirrors(retry, outgoing, last)
    requires row.message.Record? <==> row.msgType == ADD_RECORD
    requires row.message.Record? ==> row.message.uid in submitted && ValidSegment(row.message.uid)
    requires e.table == Outgoing && e.msgId == last + 1 && e.msgType == row.msgType
    ensures Numbered(outgoing[last + 1 := row], last + 1) && Typed(outgoing[last + 1 := row], submitted)
    ensures Mirrors(retry + [e], outgoing[last + 1 := row], last + 1)
  {
  }

  lemma StillHeld(submitted: set<Text>, outgoing: Rows, last: nat, row: Row, upload: Rows, fates: map<Text, Fate>)
    requires Numbered(outgoing, last) && AllHeld(submitted, outgoing, upload, fates)
    ensures AllHeld(submitted, outgoing[last + 1 := row], upload, fates)
  {
    var more := outgoing[last + 1 := row];
    forall uid | uid in submitted ensures Held(uid, more, upload, fates) {
      assert Held(uid, outgoing, upload, fates);
      if HasRecord(outgoing, uid) {
        var id :| id in outgoing && outgoing[id].message == Record(uid);
        assert id in more && more[id].message == Record(uid);
      }
    }
  }

  lemma ReplayAdded(upload: Rows, last: nat, row: Row, uid: Text)
    requires Numbered(upload, last)
    ensures Numbered(upload[last + 1 := row], last + 1)
    ensures HasReplay(upload, uid) ==> HasReplay(upload[last + 1 := row], uid)
    ensures row.message == Replay(uid) ==> HasReplay(upload[last + 1 := row], uid)
  {
    var more := upload[last + 1 := row];
    assert more[last + 1] == row;
    if HasReplay(upload, uid) {
      var id :| id in upload && upload[id].message == Replay(uid);
      assert more[id].message == Replay(uid);
    }
  }

  lemma StillAnswered(pending: Option<Pending>, outgoing: Rows, last: nat, upload: Rows, fates: map<Text, Fate>,
                      row: Row)
    requires Answered(pending, outgoing, last, upload, fates)
    ensures Answered(pending, outgoing[last + 1 := row], last + 1, upload, fates)
  {
  }

  // ---------------------------------------------------------------- less is needed

  /** Nothing that was held is let go of: rows that are gone belong to runs now finished or uploading. */
  ghost predicate Released(outgoing: Rows, more: Rows, upload: Rows, fates: map<Text, Fate>) {
    forall id | id in outgoing :: (id in more && more[id] == outgoing[id]) || Deletable(outgoing, id, upload, fates)
  }

  /** Upload rows of submitted runs that are gone belong to finished runs. */
  ghost predicate Finished(submitted: set<Text>, upload: Rows, more: Rows, fates: map<Text, Fate>) {
    forall id | id in upload && upload[id].message.Replay? && upload[id].message.uid in submitted ::
      (id in more && more[id] == upload[id]) || upload[id].message.uid in fates
  }

  lemma ReplayKept(submitted: set<Text>, upload: Rows, upload': Rows, fates: map<Text, Fate>, uid: Text)
    requires Finished(submitted, upload, upload', fates) && HasReplay(upload, uid) && uid in submitted
    ensures uid in fates || HasReplay(upload', uid)
  {
    var id :| id in upload && upload[id].message == Replay(uid);
    if uid !in fates { assert id in upload' && upload'[id].message == Replay(uid); }
  }

  lemma HeldAgain(submitted: set<Text>, outgoing: Rows, upload: Rows, fates: map<Text, Fate>,
                  outgoing': Rows, upload': Rows, fates': map<Text, Fate>)
    requires AllHeld(submitted, outgoing, upload, fates) && fates.Keys <= fates'.Keys
    requires Finished(submitted, upload, upload', fates') && Released(outgoing, outgoing', upload', fates')
    ensures AllHeld(submitted, outgoing', upload', fates')
  {
    forall uid | uid in submitted ensures Held(uid, outgoing', upload', fates') {
      assert Held(uid, outgoing, upload, fates);
      if uid in fates {
        assert uid in fates.Keys;
      } else if HasReplay(upload, uid) {
        ReplayKept(submitted, upload, upload', fates', uid);
      } else {
        RecordKept(outgoing, outgoing', upload', fates', uid);
      }
    }
  }

  lemma RecordKept(outgoing: Rows, outgoing': Rows, upload: Rows, fates: map<Text, Fate>, uid: Text)
    requires Released(outgoing, outgoing', upload, fates) && HasRecord(outgoing, uid)
    ensures Held(uid, outgoing', upload, fates)
  {
    hide HasReplay;
    var id :| id in outgoing && outgoing[id].message == Record(uid);
    if id in outgoing' && outgoing'[id] == outgoing[id] {
      assert outgoing'[id].message == Record(uid);
    } else {
      assert Deletable(outgoing, id, upload, fates);
    }
  }

  lemma AnsweredAgain(submitted: set<Text>, pending: Option<Pending>, last: nat, outgoing: Rows, upload: Rows,
      fates: map<Text, Fate>,
                      outgoing': Rows, upload': Rows, fates': map<Text, Fate>)
    requires Answered(pending, outgoing, last, upload, fates) && fates.Keys <= fates'.Keys && Typed(outgoing, submitted)
    requires Finished(submitted, upload, upload', fates')
    requires forall id | id in outgoing' :: id in outgoing && outgoing'[id] == outgoing[id]
    ensures Answered(pending, outgoing', last, upload', fates')
  {
    if pending.Some? {
      var p := pending.value;
      if p.id in outgoing' && outgoing'[p.id].message.Record? {
        var uid := outgoing'[p.id].message.uid;
        assert uid in fates ==> uid in fates.Keys;
        if HasReplay(upload, uid) { ReplayKept(submitted, upload, upload', fates', uid); }
      }
      if p.task.Some? { DiscardableLater([p.task.value], fates, fates'); }
    }
  }

  lemma DiscardableLater(tasks: seq<Task>, fates: map<Text, Fate>, fates': map<Text, Fate>)
    requires Discardable(tasks, fates) && fates.Keys <= fates'.Keys
    ensures Discardable(tasks, fates')
  {
    forall k | 0 <= k < |tasks| && tasks[k].Discard? ensures tasks[k].uid in fates' {
      assert tasks[k].uid in fates.Keys;
    }
  }

  lemma OnDiskLater(submitted: set<Text>, fates: map<Text, Fate>, krpr: set<Text>, fates': map<Text, Fate>,
      krpr': set<Text>)
    requires OnDisk(submitted, fates, krpr) && fates.Keys <= fates'.Keys
    requires forall uid | uid in krpr && uid in submitted :: uid in krpr' || uid in fates'
    ensures OnDisk(submitted, fates', krpr')
  {
    forall uid | uid in submitted ensures uid in fates' || uid in krpr' {
      assert uid in fates ==> uid in fates.Keys;
    }
  }

  lemma FewerRows(outgoing: Rows, outgoing': Rows, last: nat, submitted: set<Text>,
                  retry: seq<Entry>, retry': seq<Entry>)
    requires forall id | id in outgoing' :: id in outgoing && outgoing'[id] == outgoing[id]
    requires Numbered(outgoing, last) && Typed(outgoing, submitted) && Mirrors(retry, outgoing, last)
    requires forall e | e in retry' :: e in retry
    ensures Numbered(outgoing', last) && Typed(outgoing', submitted) && Mirrors(retry', outgoing', last)
  {
    forall e | e in retry' && e.table == Outgoing ensures EntryMirrors(e, outgoing', last) {
      assert EntryMirrors(e, outgoing, last);
    }
  }

  // ---------------------------------------------------------------- saving

  lemma SaveOutgoingKeeps(s: State, msgType: int, message: Payload, now: int)
    requires Safe(s) && (message.Record? <==> msgType == ADD_RECORD)
    requires message.Record? ==> message.uid in s.submitted && ValidSegment(message.uid)
    ensures Safe(Save(s, Outgoing, msgType, message, now))
  {
    hide AllHeld, OnDisk, Numbered, Typed, Mirrors, Discardable, Answered;
    var row := Row(msgType, message, now);
    var e := Entry(0, msgType, s.outgoingSeq + 1, SaveStamp(s.lastTs, now), Outgoing, message);
    RowAdded(s.outgoing, s.outgoingSeq, row, s.submitted, s.retry, e);
    StillHeld(s.submitted, s.outgoing, s.outgoingSeq, row, s.upload, s.fates);
    StillAnswered(s.pending, s.outgoing, s.outgoingSeq, s.upload, s.fates, row);
  }

  /** The new upload row holds its run, and lets go of nothing. */
  lemma SaveUploadKeeps(s: State, uid: Text, now: int)
    requires Safe(s)
    ensures Safe(Save(s, Upload, 0, Replay(uid), now))
    ensures HasReplay(Save(s, Upload, 0, Replay(uid), now).upload, uid)
  {
    hide AllHeld, OnDisk, Numbered, Typed, Mirrors, Discardable, Answered, HasReplay, Released, Finished;
    var row := Row(0, Replay(uid), now);
    var more := s.upload[s.uploadSeq + 1 := row];
    ReplayAdded(s.upload, s.uploadSeq, row, uid);
    MoreUploads(s.submitted, s.outgoing, s.upload, s.uploadSeq, row, s.fates);
    HeldAgain(s.submitted, s.outgoing, s.upload, s.fates, s.outgoing, more, s.fates);
    AnsweredAgain(s.submitted, s.pending, s.outgoingSeq, s.outgoing, s.upload, s.fates, s.outgoing, more, s.fates);
    var e := Entry(0, 0, s.uploadSeq + 1, SaveStamp(s.lastTs, now), Upload, Replay(uid));
    UploadEntry(s.retry, s.outgoing, s.outgoingSeq, e);
  }

  lemma MoreUploads(submitted: set<Text>, outgoing: Rows, upload: Rows, last: nat, row: Row, fates: map<Text, Fate>)
    requires Numbered(upload, last)
    ensures Finished(submitted, upload, upload[last + 1 := row], fates)
    ensures Released(outgoing, outgoing, upload[last + 1 := row], fates)
  {
  }

  lemma UploadEntry(retry: seq<Entry>, outgoing: Rows, last: nat, e: Entry)
    requires Mirrors(retry, outgoing, last) && e.table == Upload
    ensures Mirrors(retry + [e], outgoing, last)
  {
  }

  lemma RecordIsThere(outgoing: Rows, id: int, uid: Text)
    requires id in outgoing && outgoing[id].message == Record(uid)
    ensures HasRecord(outgoing, uid)
  {
  }

  lemma NewRun(s: State, uid: Text, more: Rows)
    requires Typed(s.outgoing, s.submitted) && OnDisk(s.submitted, s.fates, s.krpr)
    requires AllHeld(s.submitted, more, s.upload, s.fates) && HasRecord(more, uid)
    ensures Typed(s.outgoing, s.submitted + {uid}) && OnDisk(s.submitted + {uid}, s.fates, s.krpr + {uid})
    ensures AllHeld(s.submitted + {uid}, more, s.upload, s.fates)
  {
    hide HasRecord, HasReplay;
  }

  lemma SubmitKeeps(s: State, uid: Text, now: int)
    requires Safe(s) && ValidSegment(uid)
    ensures Safe(OnSubmit(s, uid, now))
  {
    hide AllHeld, OnDisk, Numbered, Typed, Mirrors, Discardable, Answered, HasRecord;
    var row := Row(ADD_RECORD, Record(uid), now);
    var more := s.outgoing[s.outgoingSeq + 1 := row];
    var e := Entry(0, ADD_RECORD, s.outgoingSeq + 1, SaveStamp(s.lastTs, now), Outgoing, Record(uid));
    assert HasRecord(more, uid) by { RecordIsThere(more, s.outgoingSeq + 1, uid); }
    StillHeld(s.submitted, s.outgoing, s.outgoingSeq, row, s.upload, s.fates);
    NewRun(s, uid, more);
    RowAdded(s.outgoing, s.outgoingSeq, row, s.submitted + {uid}, s.retry, e);
    StillAnswered(s.pending, s.outgoing, s.outgoingSeq, s.upload, s.fates, row);
  }

  // ---------------------------------------------------------------- shedding rows and entries

  /** A step that only removes rows and entries, and ends the runs it removes. */
  ghost predicate Sheds(s: State, t: State) {
    && t.submitted == s.submitted && t.outgoingSeq == s.outgoingSeq && t.uploadSeq == s.uploadSeq
    && t.tasks == s.tasks && t.pending == s.pending
    && s.fates.Keys <= t.fates.Keys <= s.submitted
    && (forall uid | uid in s.krpr && uid in s.submitted :: uid in t.krpr || uid in t.fates)
    && (forall e | e in t.retry :: e in s.retry)
    && (forall id | id in t.outgoing :: id in s.outgoing && t.outgoing[id] == s.outgoing[id])
    && (forall id | id in t.upload :: id in s.upload)
    && Finished(s.submitted, s.upload, t.upload, t.fates) && Released(s.outgoing, t.outgoing, t.upload, t.fates)
  }

  lemma SheddingKeeps(s: State, t: State)
    requires Safe(s) && Sheds(s, t)
    ensures Safe(t)
  {
    hide AllHeld, OnDisk, Typed, Mirrors, Discardable, Answered, HasReplay, Released, Finished;
    HeldAgain(s.submitted, s.outgoing, s.upload, s.fates, t.outgoing, t.upload, t.fates);
    OnDiskLater(s.submitted, s.fates, s.krpr, t.fates, t.krpr);
    AnsweredAgain(s.submitted, s.pending, s.outgoingSeq, s.outgoing, s.upload, s.fates, t.outgoing, t.upload, t.fates);
    DiscardableLater(s.tasks, s.fates, t.fates);
    FewerRows(s.outgoing, t.outgoing, s.outgoingSeq, s.submitted, s.retry, t.retry);
  }

  lemma FileAckKeeps(s: State, uid: Text, status: bool, moved: bool)
    requires Safe(s)
    ensures Safe(OnFileAck(s, uid, status, moved).0)
  {
    assert s.fates.Keys <= s.submitted;
    hide Safe;
    if ValidSegment(uid) && status {
      forall e | e in WithoutFirstUpload(s.retry, uid) ensures e in s.retry {
        WithoutFirstUploadEntries(s.retry, uid, e);
      }
      SheddingKeeps(s, OnFileAck(s, uid, status, moved).0);
    }
  }

  lemma ClearKeeps(s: State)
    requires Safe(s)
    ensures Safe(OnClear(s))
  {
    var t := OnClear(s);
    forall e | e in t.retry ensures e in s.retry { DurableEntries(s.retry, e); }
    forall id | id in s.outgoing && id !in t.outgoing ensures !s.outgoing[id].message.Record? {
      var e := EphemeralIdOf(s.retry, Outgoing, id);
      assert EntryMirrors(e, s.outgoing, s.outgoingSeq);
    }
    assert Sheds(s, t) by { hide Safe; }
    SheddingKeeps(s, t);
  }

  lemma DeleteKeeps(s: State, id: int)
    requires Safe(s) && Deletable(s.outgoing, id, s.upload, s.fates)
    ensures Safe(Delete(s, id, Outgoing))
  {
    assert s.fates.Keys <= s.submitted;
    hide Safe;
    forall e | e in Without(s.retry, id, Outgoing) ensures e in s.retry { WithoutEntries(s.retry, id, Outgoing, e); }
    SheddingKeeps(s, Delete(s, id, Outgoing));
  }

  lemma EndKeeps(s: State, uid: Text, fate: Fate)
    requires Safe(s)
    ensures Safe(s.(fates := End(s, uid, fate)))
  {
    assert s.fates.Keys <= s.submitted;
    hide Safe;
    SheddingKeeps(s, s.(fates := End(s, uid, fate)));
  }

  lemma DeleteUploadKeeps(s: State, id: int)
    requires Safe(s)
    requires id in s.upload && s.upload[id].message.Replay? && s.upload[id].message.uid in s.submitted ==>
      s.upload[id].message.uid in s.fates
    ensures Safe(Delete(s, id, Upload))
  {
    assert s.fates.Keys <= s.submitted;
    hide Safe;
    forall e | e in Without(s.retry, id, Upload) ensures e in s.retry { WithoutEntries(s.retry, id, Upload, e); }
    SheddingKeeps(s, Delete(s, id, Upload));
  }

  lemma OperatorDeleteKeeps(s: State, id: int, table: Table)
    requires Safe(s)
    ensures Safe(OnOperatorDelete(s, id, table))
  {
    var rows := if table == Outgoing then s.outgoing else s.upload;
    var t := s;
    if id in rows && !rows[id].message.Other? {
      t := s.(fates := End(s, rows[id].message.uid, Purged));
      EndKeeps(s, rows[id].message.uid, Purged);
      if table == Outgoing && rows[id].message.Record? { assert rows[id].message.uid in s.submitted; }
    }
    hide Safe, Delete;
    if table == Outgoing { DeleteKeeps(t, id); } else { DeleteUploadKeeps(t, id); }
  }

  lemma OperatorClearKeeps(s: State, table: Table)
    requires Safe(s)
    ensures Safe(OnOperatorClear(s, table))
  {
    assert s.fates.Keys <= s.submitted;
    hide Safe;
    forall e | e in WithoutTable(s.retry, table) ensures e in s.retry { WithoutTableEntries(s.retry, table, e); }
    SheddingKeeps(s, OnOperatorClear(s, table));
  }

  // ---------------------------------------------------------------- messages

  lemma RecordAckKeeps(s: State, uid: Text, now: int)
    requires Safe(s)
    ensures Safe(OnRecordAck(s, uid, now).0)
    ensures ValidSegment(uid) && uid in s.krpr ==> HasReplay(OnRecordAck(s, uid, now).0.upload, uid)
  {
    var t := s.(active := s.active + {uid});
    assert Safe(t);
    hide Safe, HasReplay, Save;
    SaveUploadKeeps(t, uid, now);
  }

  lemma ErrorAckKeeps(s: State, id: int, explained: bool)
    requires Safe(s)
    ensures Safe(OnErrorAck(s, id, explained).0)
  {
    assert s.fates.Keys <= s.submitted;
    hide Safe;
    SheddingKeeps(s, OnErrorAck(s, id, explained).0);
  }

  /** The handler of an honest answer leaves the answered row deletable. */
  lemma AnswerCovers(s: State, m: Message, now: int)
    requires Safe(s) && Honest(s, m)
    ensures var (t, task) := Handle(s, m, now);
      && Deletable(t.outgoing, m.id, t.upload, t.fates)
      && (task.Some? ==> Discardable([task.value], t.fates))
  {
    hide AllHeld, Mirrors, Answered, HasReplay, HasRecord, ValidSegment;
    if m.id in s.outgoing && s.outgoing[m.id].message.Record? {
      var uid := s.outgoing[m.id].message.uid;
      assert uid in s.submitted && ValidSegment(uid);
      if m.RecordAck? { RecordAckKeeps(s, uid, now); }
    } else if m.FileAck? {
    } else if m.RecordAck? {
      RecordAckKeeps(s, m.uid, now);
    }
  }

  lemma HandleKeeps(s: State, m: Message, now: int)
    requires Safe(s)
    ensures Safe(Handle(s, m, now).0) && Handle(s, m, now).0.outgoingSeq == s.outgoingSeq
  {
    match m
    case RecordAck(_, uid) => RecordAckKeeps(s, uid, now);
    case FileAck(_, uid, status, moved) => FileAckKeeps(s, uid, status, moved);
    case ErrorAck(id, explained) => ErrorAckKeeps(s, id, explained);
    case OtherAck(_) =>
  }

  lemma MessageKeeps(s: State, m: Message, now: int)
    requires Safe(s) && Honest(s, m)
    ensures Safe(OnMessage(s, m, now))
  {
    hide AllHeld, OnDisk, Numbered, Typed, Mirrors, Discardable, Deletable, HasReplay, Handle;
    HandleKeeps(s, m, now);
    AnswerCovers(s, m, now);
  }

  lemma HandledKeeps(s: State, room: bool)
    requires Safe(s) && s.pending.Some?
    ensures Safe(OnHandled(s, room))
  {
    hide AllHeld, OnDisk, Numbered, Typed, Mirrors, Deletable, HasReplay, Delete;
    var p := s.pending.value;
    var t := s.(pending := None);
    assert Safe(t);
    var u := if p.task.Some? then t.(tasks := s.tasks + [p.task.value]) else t;
    assert Safe(u) by {
      if p.task.Some? { assert [p.task.value][0].Discard? ==> p.task.value.uid in s.fates; }
    }
    DeleteKeeps(u, p.id);
  }

  // ---------------------------------------------------------------- the other steps

  lemma TaskKeeps(s: State, room: bool, now: int)
    requires Safe(s) && s.tasks != []
    ensures Safe(OnTask(s, room, now))
  {
    var t := s.(tasks := s.tasks[1..]);
    assert Discardable(t.tasks, t.fates);
    assert Safe(t) && (s.tasks[0].Discard? ==> s.tasks[0].uid in s.fates);
    hide AllHeld, OnDisk, Numbered, Typed, Mirrors, Discardable, Answered, Save;
    match s.tasks[0]
    case Discard(uid) =>
      assert Sheds(t, OnTask(s, room, now));
      SheddingKeeps(t, OnTask(s, room, now));
    case SendUpload(uid) =>
    case RequeueUpload(uid) =>
      var u := t.(active := s.active + {uid});
      assert Safe(u);
      SaveUploadKeeps(u, uid, now);
    case OtherTask =>
  }

  lemma {:induction false} PassMirrors(q: seq<Entry>, ts: int, lim: Limits, e: Entry) returns (o: Entry)
    requires e in Pass(q, ts, lim).0
    ensures o in q && o.msgId == e.msgId && o.table == e.table && o.msgType == e.msgType
  {
    var rest := Pass(q[1..], ts, lim);
    assert q == [q[0]] + q[1..];
    if e in q {
      o := e;
    } else if !Due(q[0], ts, lim) || Dead(q[0], lim) {
      o := PassMirrors(q[1..], ts, lim, e);
    } else {
      o := q[0];
    }
  }

  lemma RetryPassKeeps(s: State, ts: int, lim: Limits, room: bool)
    requires Safe(s)
    ensures Safe(OnRetryPass(s, ts, lim, room))
  {
    var q := Pass(s.retry, ts, lim).0;
    forall e | e in q && e.table == Outgoing ensures EntryMirrors(e, s.outgoing, s.outgoingSeq) {
      var o := PassMirrors(s.retry, ts, lim, e);
      assert EntryMirrors(o, s.outgoing, s.outgoingSeq);
    }
    assert Safe(s.(retry := q));
    hide AllHeld, OnDisk, Numbered, Typed, Mirrors, Discardable, Answered, Pass;
  }

  lemma LoadedMirrors(s: State, outs: seq<int>, ups: seq<int>)
    requires Lists(outs, s.outgoing) && Lists(ups, s.upload) && Numbered(s.outgoing, s.outgoingSeq)
    ensures Mirrors(OnLoad(s, outs, ups).retry, s.outgoing, s.outgoingSeq)
  {
    var a, b := Loaded(s.outgoing, outs, Outgoing), Loaded(s.upload, ups, Upload);
    assert forall e | e in a + b :: e in a || e in b;
    hide Loaded;
  }

  lemma LoadKeeps(s: State, outs: seq<int>, ups: seq<int>)
    requires Safe(s) && Lists(outs, s.outgoing) && Lists(ups, s.upload)
    ensures Safe(OnLoad(s, outs, ups))
  {
    hide AllHeld, OnDisk, Numbered, Typed, Mirrors, Discardable, Answered;
    LoadedMirrors(s, outs, ups);
  }

  lemma TakeKeeps(s: State, i: Input)
    requires Safe(s) && CanTake(s, i)
    ensures Safe(Take(s, i))
  {
    hide AllHeld, OnDisk, Numbered, Typed, Mirrors, Discardable, Answered, ValidSegment, Honest, Lists,
         OnMessage, OnHandled, OnTask, OnRetryPass, OnLoad, OnOperatorDelete, OnOperatorClear, OnClear, OnSubmit, Save;
    match i
    case Submit(uid, now) => SubmitKeeps(s, uid, now);
    case OtherMessage(msgType, text, now) => SaveOutgoingKeeps(s, msgType, Other(text), now);
    case Received(m, now) => MessageKeeps(s, m, now);
    case Handled(room) => HandledKeeps(s, room);
    case RunTask(room, now) => TaskKeeps(s, room, now);
    case RetryPass(ts, lim, room) => RetryPassKeeps(s, ts, lim, room);
    case ProcessUpload(readable) =>
    case Opened => OpenKeeps(s);
    case MapEnds => ClearKeeps(s);
    case Restart => RestartKeeps(s);
    case Load(outs, ups) => LoadKeeps(s, outs, ups);
    case OperatorDelete(id, table) => OperatorDeleteKeeps(s, id, table);
    case OperatorClear(table) => OperatorClearKeeps(s, table);
  }

  lemma OpenKeeps(s: State)
    requires Safe(s)
    ensures Safe(OnOpen(s))
  {
    hide AllHeld, OnDisk, Numbered, Typed, Discardable, Answered;
    var q := Requeued(s.retry);
    forall e | e in q && e.table == Outgoing ensures EntryMirrors(e, s.outgoing, s.outgoingSeq) {
      var k :| 0 <= k < |q| && q[k] == e;
      assert EntryMirrors(s.retry[k], s.outgoing, s.outgoingSeq);
    }
  }

  lemma RestartKeeps(s: State)
    requires Safe(s)
    ensures Safe(OnRestart(s))
  {
    hide AllHeld, OnDisk, Numbered, Typed;
  }

  // ---------------------------------------------------------------- runs

  /** The states the outbox can be in after a sequence of inputs. */
  ghost predicate Reached(inputs: seq<Input>, s: State) {
    if inputs == [] then s == FRESH else
    var last := |inputs| - 1;
    exists before :: Reached(inputs[..last], before) && CanTake(before, inputs[last]) && s == Take(before, inputs[last])
  }

  /** Inputs that can be taken one after another from `s` on. */
  predicate Takeable(s: State, more: seq<Input>)
    decreases |more|
  {
    more == [] || (CanTake(s, more[0]) && Takeable(Take(s, more[0]), more[1..]))
  }

  function TakeAll(s: State, more: seq<Input>): State
    requires Takeable(s, more)
    decreases |more|
  {
    if more == [] then s else TakeAll(Take(s, more[0]), more[1..])
  }

  lemma ReachedNext(inputs: seq<Input>, s: State, i: Input)
    requires Reached(inputs, s) && CanTake(s, i)
    ensures Reached(inputs + [i], Take(s, i))
  {
    hide CanTake, Take;
    var all := inputs + [i];
    assert all[..|all| - 1] == inputs && all[|all| - 1] == i;
  }

  /** A history goes on. */
  lemma {:induction false} ReachedOn(inputs: seq<Input>, s: State, more: seq<Input>)
    requires Reached(inputs, s) && Takeable(s, more)
    ensures Reached(inputs + more, TakeAll(s, more))
    decreases |more|
  {
    hide CanTake, Take, Reached;
    if more == [] {
      assert inputs + more == inputs;
    } else {
      ReachedNext(inputs, s, more[0]);
      ReachedOn(inputs + [more[0]], Take(s, more[0]), more[1..]);
      assert inputs + [more[0]] + more[1..] == inputs + more;
    }
  }

  lemma {:induction false} EveryStateIsSafe(inputs: seq<Input>, s: State)
    requires Reached(inputs, s)
    ensures Safe(s)
    decreases |inputs|
  {
    hide Take, CanTake;
    if inputs != [] {
      var last := |inputs| - 1;
      var before :| Reached(inputs[..last], before) && CanTake(before, inputs[last]) && s == Take(before, inputs[last]);
      EveryStateIsSafe(inputs[..last], before);
      TakeKeeps(before, inputs[last]);
    }
  }

  // ---------------------------------------------------------------- how a run ends

  predicate Names(row: Row, uid: Text) {
    row.message == Record(uid) || row.message == Replay(uid)
  }

  /** The inputs that end a run: its file is accepted, its submission refused, or an operator deletes a row of it. */
  predicate Ends(before: State, i: Input, uid: Text) {
    match i
    case Received(m, _) =>
      || (m.FileAck? && m.uid == uid && m.status)
      || (m.ErrorAck? && m.explained && m.id in before.outgoing && before.outgoing[m.id].message == Record(uid))
    case OperatorDelete(id, table) =>
      var rows := if table == Outgoing then before.outgoing else before.upload;
      id in rows && Names(rows[id], uid)
    case OperatorClear(table) =>
      var rows := if table == Outgoing then before.outgoing else before.upload;
      exists id | id in rows :: Names(rows[id], uid)
    case _ => false
  }

  lemma HandlersEnd(s: State, m: Message, now: int, uid: Text)
    requires uid in Handle(s, m, now).0.fates && uid !in s.fates
    ensures Ends(s, Received(m, now), uid) && uid in s.submitted
  {
    hide ValidSegment, WithoutFirstUpload, UploadsWithout;
  }

  predicate FromOutside(i: Input) {
    i.Received? || i.OperatorDelete? || i.OperatorClear?
  }

  lemma TasksEndNothing(s: State, room: bool, now: int)
    requires s.tasks != []
    ensures OnTask(s, room, now).fates == s.fates
  {
    hide UploadsWithout, SaveStamp;
  }

  lemma InnerStepsEndNothing(s: State, i: Input)
    requires CanTake(s, i) && !FromOutside(i)
    ensures Take(s, i).fates == s.fates
  {
    hide ValidSegment, Honest, Lists, Pass, Loaded, Without, Durable, EphemeralIds, Requeued, OnTask, SaveStamp;
    if i.RunTask? { TasksEndNothing(s, i.room, i.now); }
  }

  lemma OperatorEnds(s: State, i: Input, uid: Text)
    requires i.OperatorDelete? || i.OperatorClear?
    requires uid in Take(s, i).fates && uid !in s.fates
    ensures Ends(s, i, uid) && uid in s.submitted
  {
    hide Without, WithoutTable;
  }

  lemma OnlyEndsEnd(s: State, i: Input, uid: Text)
    requires CanTake(s, i) && uid in Take(s, i).fates && uid !in s.fates
    ensures Ends(s, i, uid) && uid in s.submitted
  {
    hide Ends, Honest, Handle, OnTask, OnHandled, OnRetryPass, OnLoad, OnOperatorDelete, OnOperatorClear, OnClear,
        OnSubmit, Save;
    if i.Received? {
      HandlersEnd(s, i.m, i.now, uid);
    } else if FromOutside(i) {
      OperatorEnds(s, i, uid);
    } else {
      InnerStepsEndNothing(s, i);
      assert false;
    }
  }

  lemma {:induction false} EndsOnce(inputs: seq<Input>, s: State, uid: Text) returns (j: nat, before: State)
    requires Reached(inputs, s) && uid in s.fates
    ensures j < |inputs| && Reached(inputs[..j], before)
    ensures uid in before.submitted && Ends(before, inputs[j], uid)
    decreases |inputs|
  {
    hide Take, CanTake, Ends;
    j := |inputs| - 1;
    before :| Reached(inputs[..j], before) && CanTake(before, inputs[j]) && s == Take(before, inputs[j]);
    if uid in before.fates {
      var n := j;
      j, before := EndsOnce(inputs[..n], before, uid);
      assert inputs[..n][..j] == inputs[..j];
    } else {
      OnlyEndsEnd(before, inputs[j], uid);
    }
  }

  /** An end of the run among the inputs, while it was submitted. */
  ghost predicate EndedBy(inputs: seq<Input>, uid: Text, j: nat, before: State) {
    j < |inputs| && Reached(inputs[..j], before) && uid in before.submitted && Ends(before, inputs[j], uid)
  }

  /** After any run of the outbox, crashes and restarts included, a submitted run is in one of the two
      tables with its raw file on disk, unless one of the inputs since its submission ended it. */
  lemma NoRunIsLost(inputs: seq<Input>, s: State, uid: Text)
    requires Reached(inputs, s) && uid in s.submitted
    ensures || ((HasRecord(s.outgoing, uid) || HasReplay(s.upload, uid)) && uid in s.krpr)
            || exists j, before :: EndedBy(inputs, uid, j, before)
  {
    hide Reached, Ends, HasRecord, HasReplay, Numbered, Typed, Mirrors, Discardable, Answered;
    EveryStateIsSafe(inputs, s);
    assert Held(uid, s.outgoing, s.upload, s.fates);
    if uid in s.fates {
      var j, before := EndsOnce(inputs, s, uid);
      assert EndedBy(inputs, uid, j, before);
    }
  }

  // ---------------------------------------------------------------- after a crash

  /** An entry that will be sent again, as often as a new one. */
  predicate Resumes(e: Entry, uid: Text) {
    && e.retryCount == 0
    && ((e.table == Outgoing && e.message == Record(uid)) || (e.table == Upload && e.message == Replay(uid)))
  }

  lemma LoadedRow(rows: Rows, order: seq<int>, table: Table, id: int)
    requires Lists(order, rows) && id in rows
    ensures FromRow(id, rows[id], table) in Loaded(rows, order, table)
  {
    var k :| 0 <= k < |order| && order[k] == id;
    assert Loaded(rows, order, table)[k] == FromRow(id, rows[id], table);
  }

  /** Whatever was lost from memory, loading the tables puts every unfinished run back into the retry queue. */
  lemma LoadingResumesEveryRun(inputs: seq<Input>, s: State, outs: seq<int>, ups: seq<int>, uid: Text)
    requires Reached(inputs, s) && uid in s.submitted && uid !in s.fates
    requires Lists(outs, s.outgoing) && Lists(ups, s.upload)
    ensures exists e :: e in OnLoad(OnRestart(s), outs, ups).retry && Resumes(e, uid)
  {
    hide Reached, Numbered, Typed, Mirrors, Discardable, Answered, OnDisk, Loaded;
    EveryStateIsSafe(inputs, s);
    assert Held(uid, s.outgoing, s.upload, s.fates);
    var a, b := Loaded(s.outgoing, outs, Outgoing), Loaded(s.upload, ups, Upload);
    if HasRecord(s.outgoing, uid) {
      var id :| id in s.outgoing && s.outgoing[id].message == Record(uid);
      LoadedRow(s.outgoing, outs, Outgoing, id);
      var e := FromRow(id, s.outgoing[id], Outgoing);
      assert e in a + b && Resumes(e, uid);
    } else {
      var id :| id in s.upload && s.upload[id].message == Replay(uid);
      LoadedRow(s.upload, ups, Upload, id);
      var e := FromRow(id, s.upload[id], Upload);
      assert e in a + b && Resumes(e, uid);
    }
  }

  // ---------------------------------------------------------------- what the server must not do

  /** The run has one row, its submission. */
  ghost predicate OnlyRow(s: State, id: int, uid: Text) {
    && id in s.outgoing && s.outgoing[id].message == Record(uid)
    && (forall k | k in s.outgoing && k != id :: s.outgoing[k].message != Record(uid))
    && !HasReplay(s.upload, uid) && uid in s.submitted && uid !in s.fates
  }

  /** The acknowledgements whose handler hands a task to the game thread. */
  predicate HandsOver(s: State, m: Message) {
    match m
    case RecordAck(_, uid) => ValidSegment(uid) && uid in s.krpr
    case FileAck(_, uid, status, moved) => ValidSegment(uid) && (status ==> moved && uid in s.krpr && uid in s.krpz)
    case _ => false
  }

  /** The answers that do not lose a run: its own acknowledgement, its acceptance, an explained refusal,
      or an acknowledgement whose task finds no room. */
  predicate Harmless(s: State, m: Message, uid: Text, room: bool) {
    || (m.RecordAck? && m.uid == uid)
    || (m.FileAck? && m.uid == uid && m.status)
    || (m.ErrorAck? && m.explained)
    || (HandsOver(s, m) && !room)
  }

  lemma TasksExactly(s: State, m: Message, now: int)
    ensures !m.ErrorAck? ==> (Handle(s, m, now).1.Some? <==> HandsOver(s, m))
    ensures m.ErrorAck? && !m.explained ==> Handle(s, m, now).1.None?
  {
    hide ValidSegment, Save, WithoutFirstUpload, UploadsWithout;
  }

  lemma AnswerKeepsOrAdds(s: State, m: Message, now: int, uid: Text)
    requires Safe(s) && OnlyRow(s, m.id, uid)
    ensures var t := Handle(s, m, now).0;
      && t.outgoing == s.outgoing
      && (HasReplay(t.upload, uid) <==> m.RecordAck? && m.uid == uid)
      && (uid in t.fates <==> (m.FileAck? && m.uid == uid && m.status) || (m.ErrorAck? && m.explained))
  {
    assert ValidSegment(uid) && uid in s.krpr && m.id > 0;
    hide ValidSegment, AllHeld, OnDisk, Numbered, Typed, Mirrors, Discardable, Answered, WithoutFirstUpload;
    if m.RecordAck? && m.uid == uid {
      RecordAckKeeps(s, uid, now);
    }
  }

  /** Exactly which answers to a submission lose the run: an unexplained error is one of them. */
  lemma AnswersThatLoseARun(s: State, m: Message, now: int, room: bool, uid: Text)
    requires Safe(s) && OnlyRow(s, m.id, uid)
    ensures var t := OnHandled(OnMessage(s, m, now), room);
      Held(uid, t.outgoing, t.upload, t.fates) <==> Harmless(s, m, uid, room)
  {
    AnswerKeepsOrAdds(s, m, now, uid);
    TasksExactly(s, m, now);
    assert m.id > 0;
    hide HandsOver, Safe, Handle, HasReplay, Without;
    var h := Handle(s, m, now).0;
    var t := OnHandled(OnMessage(s, m, now), room);
    if Handle(s, m, now).1.Some? && !room {
      assert t.outgoing[m.id].message == Record(uid);
    } else {
      assert t.outgoing == s.outgoing - {m.id} && t.upload == h.upload && t.fates == h.fates;
    }
  }

  // ---------------------------------------------------------------- why ids must not be shared

  /** `Save` is what the two calls do when nothing is saved between them. */
  lemma SaveIsAtomic(s: State, msgType: int, message: Payload, now: int)
    requires Numbered(s.outgoing, s.outgoingSeq)
    ensures Save(s, Outgoing, msgType, message, now) == SaveAs(s, s.outgoingSeq + 1, msgType, message, now)
  {
  }

  /** A submission reaches the table exactly if its id is still free. */
  lemma SubmissionNeedsAFreeId(s: State, id: nat, uid: Text, now: int)
    requires !HasRecord(s.outgoing, uid)
    ensures HasRecord(SaveAs(s, id, ADD_RECORD, Record(uid), now).outgoing, uid) <==> id !in s.outgoing
  {
    if id !in s.outgoing { RecordIsThere(s.outgoing[id := Row(ADD_RECORD, Record(uid), now)], id, uid); }
  }

  /** Two threads that ask for an id before either saves get the same one, and the later submission is not stored. */
  lemma SharedIdLosesASubmission(s: State, uid: Text, msgType: int, text: Text, now: int)
    requires Numbered(s.outgoing, s.outgoingSeq) && !HasRecord(s.outgoing, uid)
    ensures var id := s.outgoingSeq + 1;
      !HasRecord(SaveAs(SaveAs(s, id, msgType, Other(text), now), id, ADD_RECORD, Record(uid), now).outgoing, uid)
  {
    var id := s.outgoingSeq + 1;
    var t := SaveAs(s, id, msgType, Other(text), now);
    assert !HasRecord(t.outgoing, uid) by {
      if k :| k in t.outgoing && t.outgoing[k].message == Record(uid) {
        RecordIsThere(s.outgoing, k, uid);
      }
    }
    SubmissionNeedsAFreeId(t, id, uid, now);
  }

  // ---------------------------------------------------------------- uploads

  /** A rejected upload whose run is marked active is not sent again: the rejection leaves everything as it was. */
  lemma RejectedUploadStays(s: State, m: Message, room: bool, now: int)
    requires m.FileAck? && !m.status && ValidSegment(m.uid) && m.id <= 0
    requires m.uid in s.active && s.tasks == [] && s.pending.None?
    ensures OnTask(OnHandled(OnMessage(s, m, now), true), room, now) == s
  {
    hide Save, ValidSegment;
  }

  /** What becomes of a rejection that finds nothing else to do. */
  function AfterRejection(s: State, m: Message, room: bool, now: int): State
    requires m.FileAck? && !m.status && ValidSegment(m.uid) && s.tasks == []
  {
    OnTask(OnHandled(OnMessage(s, m, now), true), room, now)
  }

  /** The item an upload is queued with: the compressed file if it is there. */
  function ItemFor(s: State, uid: Text): UploadItem {
    UploadItem(uid, uid in s.krpz)
  }

  /** The file an item names is in its place. */
  predicate FileThere(s: State, item: UploadItem) {
    item.uid in if item.compressed then s.krpz else s.krpr
  }

  /** Whichever file of a run is there, an item is queued for one that is; and the upload thread, when it comes to
      an item whose file is there and can be read, keeps the run marked and has a compressed file to send. */
  lemma ItemsCanBeSent(s: State, uid: Text, t: State)
    ensures uid in s.krpr || uid in s.krpz ==> FileThere(s, ItemFor(s, uid))
    ensures t.uploads != [] && FileThere(t, t.uploads[0]) && t.uploads[0].uid == uid ==>
      && uid in OnUpload(t, true).krpz && OnUpload(t, true).active == t.active
      && OnUpload(t, true).uploads == t.uploads[1..]
  {
  }

  /** Exactly when a rejected upload is queued again: it is not marked active, has a file, and finds room. */
  lemma RejectedUploadIsSentExactly(s: State, m: Message, room: bool, now: int)
    requires m.FileAck? && !m.status && ValidSegment(m.uid) && m.id <= 0 && s.tasks == [] && s.pending.None?
    ensures var t := AfterRejection(s, m, room, now);
      if m.uid !in s.active && (m.uid in s.krpr || m.uid in s.krpz) && room then
        t.uploads == s.uploads + [ItemFor(s, m.uid)] && FileThere(t, ItemFor(s, m.uid)) && m.uid in t.active
      else t.uploads == s.uploads
  {
    hide ValidSegment;
  }

  /** The inputs that clear a run's mark: its acceptance, its discard, an upload item of it that finds no room or
      cannot be read, and a restart. */
  predicate Releases(s: State, i: Input, uid: Text) {
    match i
    case Received(m, _) => m.FileAck? && m.status && m.uid == uid && ValidSegment(uid)
    case RunTask(room, _) => s.tasks != [] && (s.tasks[0] == Discard(uid) || (s.tasks[0] == SendUpload(uid) && !room))
    case ProcessUpload(readable) =>
      && s.uploads != [] && s.uploads[0].uid == uid
      && !(readable && uid in if s.uploads[0].compressed then s.krpz else s.krpr)
    case Restart => true
    case _ => false
  }

  /** An active run stays active exactly until one of those. */
  lemma ActiveUntilReleased(s: State, i: Input, uid: Text)
    requires CanTake(s, i) && uid in s.active
    ensures uid in Take(s, i).active <==> !Releases(s, i, uid)
  {
    hide ValidSegment, Honest, Lists, Pass, Loaded, Without, WithoutTable, WithoutFirstUpload, Durable, EphemeralIds,
      Requeued, UploadsWithout, SaveStamp, RunsIn, End;
    match i
    case Received(m, now) => ActiveAfterMessage(s, m, now, uid);
    case RunTask(room, now) => ActiveAfterTask(s, room, now, uid);
    case _ => hide OnMessage, OnTask;
  }

  lemma ActiveAfterMessage(s: State, m: Message, now: int, uid: Text)
    requires uid in s.active
    ensures uid in OnMessage(s, m, now).active <==> !Releases(s, Received(m, now), uid)
  {
    hide ValidSegment, WithoutFirstUpload, UploadsWithout, SaveStamp, End;
  }

  lemma ActiveAfterTask(s: State, room: bool, now: int, uid: Text)
    requires uid in s.active && s.tasks != []
    ensures uid in OnTask(s, room, now).active <==> !Releases(s, RunTask(room, now), uid)
  {
    hide UploadsWithout, Save;
    SaveKeepsActive(s.(tasks := s.tasks[1..]), s.tasks[0], now);
  }

  lemma SaveKeepsActive(s: State, task: Task, now: int)
    ensures task.RequeueUpload? ==>
      var t := s.(active := s.active + {task.uid});
      Save(t, Upload, 0, Replay(task.uid), now).active == t.active
  {
  }

  predicate NeverReleased(s: State, more: seq<Input>, uid: Text)
    requires Takeable(s, more)
    decreases |more|
  {
    more == [] || (!Releases(s, more[0], uid) && NeverReleased(Take(s, more[0]), more[1..], uid))
  }

  /** From the moment a run is marked until one of those inputs, a rejection of its upload leaves everything as it
      was, whatever else has happened in between. */
  lemma {:induction false} RejectionsOfActiveRunsDoNothing(s: State, more: seq<Input>, m: Message, room: bool, now: int)
    requires Takeable(s, more) && m.FileAck? && m.uid in s.active && NeverReleased(s, more, m.uid)
    requires !m.status && ValidSegment(m.uid) && m.id <= 0
    requires TakeAll(s, more).tasks == [] && TakeAll(s, more).pending.None?
    ensures AfterRejection(TakeAll(s, more), m, room, now) == TakeAll(s, more)
    decreases |more|
  {
    hide Take, CanTake, Releases, ValidSegment, OnTask, OnHandled, OnMessage;
    if more == [] {
      RejectedUploadStays(s, m, room, now);
    } else {
      ActiveUntilReleased(s, more[0], m.uid);
      RejectionsOfActiveRunsDoNothing(Take(s, more[0]), more[1..], m, room, now);
    }
  }

  /** An attempted upload is handed to the upload thread again exactly if it is not marked active, has a
      file, and finds room; being due, even right after a reconnect, is not enough. */
  lemma RetriedUploadIsSentExactly(s: State, ts: int, lim: Limits, room: bool, e: Entry)
    requires Pass(s.retry, ts, lim).1 == Some(e) && e.table == Upload && e.message.Replay?
    ensures var uid, t := e.message.uid, OnRetryPass(s, ts, lim, room);
      if uid !in s.active && (uid in s.krpr || uid in s.krpz) && room then
        t.uploads == s.uploads + [ItemFor(s, uid)] && FileThere(t, ItemFor(s, uid)) && uid in t.active
      else t.uploads == s.uploads
  {
    hide Pass;
  }

  /** An attempted upload that is queued is sent: when the upload thread comes to it, it has a compressed file to send,
      compressed just now if only the raw one was there. */
  lemma RetriedUploadIsSent(s: State, ts: int, lim: Limits, e: Entry)
    requires Pass(s.retry, ts, lim).1 == Some(e) && e.table == Upload && e.message.Replay? && s.uploads == []
    requires e.message.uid !in s.active && (e.message.uid in s.krpr || e.message.uid in s.krpz)
    ensures var uid, t := e.message.uid, OnRetryPass(s, ts, lim, true);
      && t.uploads != [] && t.uploads[0].uid == uid
      && uid in OnUpload(t, true).active && uid in OnUpload(t, true).krpz
  {
    hide Pass;
    RetriedUploadIsSentExactly(s, ts, lim, true, e);
    var uid, t := e.message.uid, OnRetryPass(s, ts, lim, true);
    hide OnRetryPass, OnUpload, FileThere;
    assert t.uploads == [ItemFor(s, uid)];
    ItemsCanBeSent(s, uid, t);
  }

  /** So is a rejected one. */
  lemma RejectedUploadIsSent(s: State, m: Message, now: int)
    requires m.FileAck? && !m.status && ValidSegment(m.uid) && m.id <= 0 && s.tasks == [] && s.pending.None?
    requires m.uid !in s.active && (m.uid in s.krpr || m.uid in s.krpz) && s.uploads == []
    ensures var t := AfterRejection(s, m, true, now);
      && t.uploads != [] && t.uploads[0].uid == m.uid
      && m.uid in OnUpload(t, true).active && m.uid in OnUpload(t, true).krpz
  {
    hide ValidSegment;
    RejectedUploadIsSentExactly(s, m, true, now);
    var t := AfterRejection(s, m, true, now);
    hide AfterRejection, OnUpload, FileThere;
    assert t.uploads == [ItemFor(s, m.uid)];
    ItemsCanBeSent(s, m.uid, t);
  }

  /** And one that was just acknowledged: its row is saved, and its raw file is compressed and sent. */
  lemma AcknowledgedUploadIsSent(s: State, uid: Text, now: int)
    requires ValidSegment(uid) && uid in s.krpr && s.uploads == []
    ensures var (t, task) := OnRecordAck(s, uid, now);
      && task == Some(SendUpload(uid)) && HasReplay(t.upload, uid) && uid in t.active
      && var u := OnTask(t.(tasks := [SendUpload(uid)]), true, now);
        && u.uploads != [] && u.uploads[0] == UploadItem(uid, false)
        && uid in OnUpload(u, true).active && uid in OnUpload(u, true).krpz
  {
    hide ValidSegment;
    var t := OnRecordAck(s, uid, now).0;
    assert t.upload[s.uploadSeq + 1].message == Replay(uid);
  }

  // ---------------------------------------------------------------- queued items

  predicate SendsSubmitted(task: Task, submitted: set<Text>) {
    task.SendUpload? ==> task.uid in submitted
  }

  /** Files, items and uploads to send are of submitted runs, and an item of an unfinished run has its file. */
  predicate Backed(s: State) {
    && s.krpr <= s.submitted && s.krpz <= s.submitted
    && (forall k | 0 <= k < |s.tasks| :: SendsSubmitted(s.tasks[k], s.submitted))
    && (s.pending.Some? && s.pending.value.task.Some? ==> SendsSubmitted(s.pending.value.task.value, s.submitted))
    && forall k | 0 <= k < |s.uploads| :: ItemBacked(s, s.uploads[k])
  }

  predicate ItemBacked(s: State, item: UploadItem) {
    item.uid in s.submitted && (item.uid in s.fates || FileThere(s, item))
  }

  /** Runs may be added and ended, and files of ended runs may go. */
  predicate KeepsFiles(s: State, t: State) {
    && s.submitted <= t.submitted && s.fates.Keys <= t.fates.Keys
    && (forall uid | uid in s.krpr && uid !in t.fates :: uid in t.krpr)
    && (forall uid | uid in s.krpz && uid !in t.fates :: uid in t.krpz)
    && t.krpr <= t.submitted && t.krpz <= t.submitted
  }

  lemma StaysBacked(s: State, t: State)
    requires Backed(s) && KeepsFiles(s, t) && t.uploads == s.uploads
    requires forall k | 0 <= k < |t.tasks| :: SendsSubmitted(t.tasks[k], t.submitted)
    requires t.pending.Some? && t.pending.value.task.Some? ==> SendsSubmitted(t.pending.value.task.value, t.submitted)
    ensures Backed(t)
  {
    forall k | 0 <= k < |t.uploads| ensures ItemBacked(t, t.uploads[k]) { assert ItemBacked(s, s.uploads[k]); }
  }

  /** One more item, whose file is there. */
  lemma QueuedBacked(s: State, t: State, item: UploadItem)
    requires Backed(s) && t == s.(uploads := t.uploads, active := t.active, retry := t.retry, lastTs := t.lastTs,
      upload := t.upload, uploadSeq := t.uploadSeq)
    requires t.uploads == s.uploads + [item] && ItemBacked(s, item)
    ensures Backed(t)
  {
    forall k | 0 <= k < |t.uploads| ensures ItemBacked(t, t.uploads[k]) {
      if k < |s.uploads| { assert t.uploads[k] == s.uploads[k] && ItemBacked(s, s.uploads[k]); }
    }
  }

  lemma MessageBacked(s: State, m: Message, now: int)
    requires Backed(s) && s.fates.Keys <= s.submitted
    ensures Backed(OnMessage(s, m, now))
  {
    hide ValidSegment, Backed, WithoutFirstUpload, UploadsWithout, SaveStamp;
    BackedParts(s);
    StaysBacked(s, OnMessage(s, m, now));
  }

  lemma BackedParts(s: State)
    requires Backed(s)
    ensures s.krpr <= s.submitted && s.krpz <= s.submitted
    ensures forall k | 0 <= k < |s.tasks| :: SendsSubmitted(s.tasks[k], s.submitted)
    ensures s.pending.Some? && s.pending.value.task.Some? ==> SendsSubmitted(s.pending.value.task.value, s.submitted)
  {
  }

  lemma TaskBacked(s: State, room: bool, now: int)
    requires Backed(s) && Safe(s) && s.tasks != []
    ensures Backed(OnTask(s, room, now))
  {
    assert OnDisk(s.submitted, s.fates, s.krpr) && Discardable(s.tasks, s.fates);
    hide Safe, Backed, Save, UploadsWithout;
    BackedParts(s);
    var t, u := s.(tasks := s.tasks[1..]), OnTask(s, room, now);
    StaysBacked(s, t);
    if u.uploads == s.uploads {
      TaskKeepsFiles(s, room, now);
      StaysBacked(s, u);
    } else {
      var item := u.uploads[|s.uploads|];
      TaskQueues(s, room, now, item);
      QueuedBacked(t, u, item);
    }
  }

  lemma TaskKeepsFiles(s: State, room: bool, now: int)
    requires s.tasks != [] && OnTask(s, room, now).uploads == s.uploads && Discardable(s.tasks, s.fates)
    requires s.krpr <= s.submitted && s.krpz <= s.submitted
    ensures var u := OnTask(s, room, now); KeepsFiles(s, u) && u.tasks == s.tasks[1..] && u.pending == s.pending
  {
    hide UploadsWithout, Save;
    var task := s.tasks[0];
    if task.RequeueUpload? {
      SaveElsewhere(s.(tasks := s.tasks[1..], active := s.active + {task.uid}), Upload, 0, Replay(task.uid), now);
    }
  }

  lemma TaskQueues(s: State, room: bool, now: int, item: UploadItem)
    requires s.tasks != [] && OnTask(s, room, now).uploads != s.uploads
    requires OnDisk(s.submitted, s.fates, s.krpr) && SendsSubmitted(s.tasks[0], s.submitted)
    requires s.krpr <= s.submitted && s.krpz <= s.submitted
    requires |OnTask(s, room, now).uploads| > |s.uploads| ==> item == OnTask(s, room, now).uploads[|s.uploads|]
    ensures var t, u := s.(tasks := s.tasks[1..]), OnTask(s, room, now);
      && u == t.(uploads := u.uploads, active := u.active, retry := u.retry, lastTs := u.lastTs, upload := u.upload,
                 uploadSeq := u.uploadSeq)
      && u.uploads == t.uploads + [item] && ItemBacked(t, item)
  {
    hide UploadsWithout;
  }

  lemma PassBacked(s: State, ts: int, lim: Limits, room: bool)
    requires Backed(s)
    ensures Backed(OnRetryPass(s, ts, lim, room))
  {
    hide Pass, Backed;
    BackedParts(s);
    var t := OnRetryPass(s, ts, lim, room);
    if t.uploads == s.uploads { StaysBacked(s, t); } else { QueuedBacked(s, t, t.uploads[|s.uploads|]); }
  }

  lemma UploadBacked(s: State, readable: bool)
    requires Backed(s) && s.uploads != []
    ensures Backed(OnUpload(s, readable))
  {
    var t := OnUpload(s, readable);
    forall k | 0 <= k < |t.uploads| ensures ItemBacked(t, t.uploads[k]) {
      assert t.uploads[k] == s.uploads[k + 1] && ItemBacked(s, s.uploads[k + 1]);
    }
  }

  lemma SavingBacked(s: State, i: Input)
    requires Backed(s) && s.fates.Keys <= s.submitted && CanTake(s, i) && (i.Submit? || i.OtherMessage?)
    ensures Backed(Take(s, i))
  {
    hide Backed, Save, ValidSegment;
    BackedParts(s);
    if i.Submit? {
      var t := s.(krpr := s.krpr + {i.uid}, submitted := s.submitted + {i.uid});
      SaveElsewhere(t, Outgoing, ADD_RECORD, Record(i.uid), i.now);
    } else {
      SaveElsewhere(s, Outgoing, i.msgType, Other(i.text), i.now);
    }
    StaysBacked(s, Take(s, i));
  }

  lemma HandledBacked(s: State, room: bool)
    requires Backed(s) && s.pending.Some?
    ensures Backed(OnHandled(s, room))
  {
    hide Backed, Without;
    BackedParts(s);
    StaysBacked(s, OnHandled(s, room));
  }

  /** Inputs that touch neither files nor items nor tasks. */
  lemma QuietBacked(s: State, i: Input)
    requires Backed(s) && CanTake(s, i)
    requires i.Opened? || i.MapEnds? || i.Load? || i.OperatorDelete? || i.OperatorClear?
    ensures Backed(Take(s, i))
  {
    hide Backed, Lists, Loaded, RunsIn, Without, WithoutTable, Durable, EphemeralIds, Requeued, Honest;
    BackedParts(s);
    StaysBacked(s, Take(s, i));
  }

  lemma TakeBacked(s: State, i: Input)
    requires Backed(s) && Safe(s) && CanTake(s, i)
    ensures Backed(Take(s, i))
  {
    assert s.fates.Keys <= s.submitted;
    hide Safe, Backed, OnMessage, OnTask, OnRetryPass, OnUpload, OnHandled, OnSubmit, OnOtherMessage, OnOpen, OnClear,
      OnLoad, OnOperatorDelete, OnOperatorClear, Honest, ValidSegment, Lists;
    BackedParts(s);
    match i
    case Received(m, now) => MessageBacked(s, m, now);
    case RunTask(room, now) => TaskBacked(s, room, now);
    case RetryPass(ts, lim, room) => PassBacked(s, ts, lim, room);
    case ProcessUpload(readable) => UploadBacked(s, readable);
    case Submit(_, _) => SavingBacked(s, i);
    case OtherMessage(_, _, _) => SavingBacked(s, i);
    case Handled(room) => HandledBacked(s, room);
    case Restart => NothingBacked(Take(s, i));
    case _ => QuietBacked(s, i);
  }

  lemma NothingBacked(s: State)
    requires s.krpr <= s.submitted && s.krpz <= s.submitted && s.tasks == [] && s.uploads == [] && s.pending.None?
    ensures Backed(s)
  {
  }

  lemma SaveElsewhere(s: State, table: Table, msgType: int, message: Payload, now: int)
    ensures var t := Save(s, table, msgType, message, now);
      && t.krpr == s.krpr && t.krpz == s.krpz && t.submitted == s.submitted && t.fates == s.fates
      && t.tasks == s.tasks && t.pending == s.pending && t.uploads == s.uploads && t.active == s.active
  {
  }

  /** In every reachable state, restarts included, a queued upload of an unfinished run has its file. So the upload
      thread never gives up an unfinished run for a missing file: reading it, it keeps the mark and has a compressed
      file to send. */
  lemma {:induction false} QueuedUploadsHaveTheirFiles(inputs: seq<Input>, s: State)
    requires Reached(inputs, s)
    ensures Backed(s)
    ensures s.uploads != [] && s.uploads[0].uid !in s.fates ==>
      var uid, t := s.uploads[0].uid, OnUpload(s, true);
      uid in s.submitted && uid in t.krpz && (uid in t.active <==> uid in s.active)
    decreases |inputs|
  {
    hide Take, CanTake, Backed;
    if inputs == [] {
      NothingBacked(s);
    } else {
      var last := |inputs| - 1;
      var before :| Reached(inputs[..last], before) && CanTake(before, inputs[last]) && s == Take(before, inputs[last]);
      QueuedUploadsHaveTheirFiles(inputs[..last], before);
      EveryStateIsSafe(inputs[..last], before);
      hide Reached, Safe;
      TakeBacked(before, inputs[last]);
    }
    HeadIsSent(s);
  }

  lemma HeadIsSent(s: State)
    requires Backed(s)
    ensures s.uploads != [] && s.uploads[0].uid !in s.fates ==>
      var uid, t := s.uploads[0].uid, OnUpload(s, true);
      uid in s.submitted && uid in t.krpz && (uid in t.active <==> uid in s.active)
  {
    if s.uploads != [] { assert ItemBacked(s, s.uploads[0]); }
  }

  // ---------------------------------------------------------------- discards

  /** A discard leaves nothing of the run, neither files nor upload rows nor its mark, and nothing else changes. */
  lemma DiscardLeavesNothing(s: State, room: bool, now: int, uid: Text)
    requires s.tasks != [] && s.tasks[0] == Discard(uid)
    ensures var t := OnTask(s, room, now);
      && uid !in t.krpr && uid !in t.krpz && uid !in t.active && !HasReplay(t.upload, uid)
      && (forall other | other != uid ::
            && (other in t.krpr <==> other in s.krpr) && (other in t.krpz <==> other in s.krpz)
            && (other in t.active <==> other in s.active))
      && (forall id | id in s.upload && s.upload[id].message != Replay(uid) ::
            id in t.upload && t.upload[id] == s.upload[id])
      && (forall id | id in t.upload :: id in s.upload)
      && t.outgoing == s.outgoing && t.retry == s.retry && t.uploads == s.uploads && t.tasks == s.tasks[1..]
  {
  }

  /** The upload queue did not get an item of the run. */
  predicate NothingQueued(before: seq<UploadItem>, after: seq<UploadItem>, uid: Text) {
    after == before || (|after| == |before| + 1 && after[..|before|] == before && after[|before|].uid != uid)
  }

  /** No retry pass among the inputs queues an upload of the run. */
  predicate PassesSendNothing(s: State, more: seq<Input>, uid: Text)
    requires Takeable(s, more)
    decreases |more|
  {
    more == [] ||
    (&& (more[0].RetryPass? ==> NothingQueued(s.uploads, Take(s, more[0]).uploads, uid))
     && PassesSendNothing(Take(s, more[0]), more[1..], uid))
  }

  lemma PassOfActiveRun(s: State, ts: int, lim: Limits, room: bool, uid: Text)
    requires uid in s.active
    ensures NothingQueued(s.uploads, OnRetryPass(s, ts, lim, room).uploads, uid)
  {
    hide Pass;
  }

  /** From the moment a run is marked until its release, no retry pass sends it, however often reconnects make it
      due again and whatever else happens in between. */
  lemma {:induction false} PassesOfActiveRunsSendNothing(s: State, more: seq<Input>, uid: Text)
    requires Takeable(s, more) && uid in s.active && NeverReleased(s, more, uid)
    ensures PassesSendNothing(s, more, uid) && uid in TakeAll(s, more).active
    decreases |more|
  {
    hide CanTake, Releases, NothingQueued, OnRetryPass;
    if more != [] {
      var i := more[0];
      if i.RetryPass? { PassOfActiveRun(s, i.ts, i.lim, i.room, uid); }
      hide Take;
      ActiveUntilReleased(s, i, uid);
      PassesOfActiveRunsSendNothing(Take(s, i), more[1..], uid);
    }
  }

  function UploadEntries(q: seq<Entry>, uid: Text): nat {
    if q == [] then 0 else (if UploadOf(q[0], uid) then 1 else 0) + UploadEntries(q[1..], uid)
  }

  lemma {:induction false} OneEntryGoes(q: seq<Entry>, uid: Text)
    ensures UploadEntries(WithoutFirstUpload(q, uid), uid)
         == if UploadEntries(q, uid) == 0 then 0 else UploadEntries(q, uid) - 1
  {
    if q != [] && !UploadOf(q[0], uid) {
      OneEntryGoes(q[1..], uid);
      assert ([q[0]] + WithoutFirstUpload(q[1..], uid))[1..] == WithoutFirstUpload(q[1..], uid);
    }
  }

  /** An accepted upload clears every row of the run but only one entry: memory and table agree afterwards
      exactly if there was at most one. */
  lemma AcceptanceClearsTheTable(s: State, uid: Text, moved: bool)
    requires ValidSegment(uid)
    ensures var t := OnFileAck(s, uid, true, moved).0;
      && !HasReplay(t.upload, uid) && uid !in t.active
      && (UploadEntries(t.retry, uid) == 0 <==> UploadEntries(s.retry, uid) <= 1)
  {
    hide ValidSegment, WithoutFirstUpload;
    OneEntryGoes(s.retry, uid);
  }

  lemma {:induction false} AttemptIsOneOf(q: seq<Entry>, ts: int, lim: Limits, uid: Text)
    requires Pass(q, ts, lim).1.Some? && UploadOf(Pass(q, ts, lim).1.value, uid)
    ensures UploadEntries(q, uid) > 0
  {
    if !UploadOf(q[0], uid) { AttemptIsOneOf(q[1..], ts, lim, uid); }
  }

  /** A file of the run is still in its place after the acceptance. */
  predicate FileLeft(s: State, uid: Text, moved: bool) {
    (uid in s.krpr || uid in s.krpz) && !(moved && uid in s.krpr && uid in s.krpz)
  }

  /** Exactly when the pass after an acceptance sends the accepted run again, which has no row any more and is not
      marked: the pass comes to an entry of it that was left, which takes two before, and there is a file and room. */
  lemma AcceptedUploadIsSentAgainExactly(s: State, uid: Text, moved: bool, ts: int, lim: Limits, room: bool)
    requires ValidSegment(uid)
    ensures var t := OnFileAck(s, uid, true, moved).0;
      var u, attempt := OnRetryPass(t, ts, lim, room), Pass(t.retry, ts, lim).1;
      && !HasReplay(t.upload, uid) && uid !in t.active
      && (u.uploads == t.uploads + [ItemFor(t, uid)] <==>
          attempt.Some? && UploadOf(attempt.value, uid) && FileLeft(s, uid, moved) && room)
      && (attempt.Some? && UploadOf(attempt.value, uid) ==> UploadEntries(s.retry, uid) >= 2)
  {
    AcceptanceClearsTheTable(s, uid, moved);
    var t := OnFileAck(s, uid, true, moved).0;
    var attempt := Pass(t.retry, ts, lim).1;
    if attempt.Some? && UploadOf(attempt.value, uid) { AttemptIsOneOf(t.retry, ts, lim, uid); }
    hide ValidSegment, WithoutFirstUpload, UploadsWithout, UploadEntries, HasReplay;
    assert FileLeft(s, uid, moved) <==> uid in t.krpr || uid in t.krpz by { FilesAfter(s, uid, moved); }
    PassSends(t, ts, lim, room, uid);
  }

  lemma FilesAfter(s: State, uid: Text, moved: bool)
    requires ValidSegment(uid)
    ensures var t := OnFileAck(s, uid, true, moved).0; FileLeft(s, uid, moved) <==> uid in t.krpr || uid in t.krpz
  {
    hide ValidSegment, WithoutFirstUpload, UploadsWithout;
  }

  /** Exactly when a pass queues the upload of a run. */
  lemma PassSends(s: State, ts: int, lim: Limits, room: bool, uid: Text)
    ensures var u, attempt := OnRetryPass(s, ts, lim, room), Pass(s.retry, ts, lim).1;
      u.uploads == s.uploads + [ItemFor(s, uid)] <==>
        && attempt.Some? && UploadOf(attempt.value, uid)
        && uid !in s.active && (uid in s.krpr || uid in s.krpz) && room
  {
    hide Pass;
    var attempt := Pass(s.retry, ts, lim).1;
    if attempt.Some? && attempt.value.table == Upload && attempt.value.message.Replay? {
      RetriedUploadIsSentExactly(s, ts, lim, room, attempt.value);
      if attempt.value.message.uid != uid { PassSendsItsOwn(s, ts, lim, room, uid, attempt.value); }
    }
  }

  lemma PassSendsItsOwn(s: State, ts: int, lim: Limits, room: bool, uid: Text, e: Entry)
    requires Pass(s.retry, ts, lim).1 == Some(e) && e.table == Upload && e.message.Replay? && e.message.uid != uid
    ensures OnRetryPass(s, ts, lim, room).uploads != s.uploads + [ItemFor(s, uid)]
  {
    hide Pass;
    assert (s.uploads + [ItemFor(s, uid)])[|s.uploads|].uid == uid;
  }
}
