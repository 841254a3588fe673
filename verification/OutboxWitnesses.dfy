/** Histories of the outbox in which a submission is lost, a rejection or a reconnect sends nothing, a queued upload
    is not marked, and an accepted one is sent again. */
module OutboxWitnesses {
  import opened Options
  import opened ReplayNames
  import opened RetryQueue
  import opened RetryBounds
  import opened OutboxSpec
  import opened OutboxSafety
  import opened OutboxRetries

  const UID: Text := ['a' as int]

  lemma UidIsUsable()
    ensures ValidSegment(UID)
  {
  }

  /** The outbox after the run was submitted. */
  function Submitted(now: int): State {
    OnSubmit(FRESH, UID, now)
  }

  lemma SubmittedIsReached(now: int)
    ensures Reached([Submit(UID, now)], Submitted(now))
    ensures OnlyRow(Submitted(now), 1, UID)
  {
    UidIsUsable();
    hide ValidSegment;
    ReachedNext([], FRESH, Submit(UID, now));
    assert [] + [Submit(UID, now)] == [Submit(UID, now)];
  }

  /** An ERROR without a message deletes the only row of a run, which then is in neither table. */
  lemma UnexplainedErrorLosesARun(now: int, room: bool)
    ensures Reached([Submit(UID, now)], Submitted(now))
    ensures var t := OnHandled(OnMessage(Submitted(now), ErrorAck(1, false), now), room);
      && UID in t.submitted && UID !in t.fates && UID in t.krpr
      && !HasRecord(t.outgoing, UID) && !HasReplay(t.upload, UID)
  {
    var s := Submitted(now);
    SubmittedIsReached(now);
    EveryStateIsSafe([Submit(UID, now)], s);
    hide Reached, Safe, Held, Harmless;
    AnswersThatLoseARun(s, ErrorAck(1, false), now, room, UID);
    assert !Harmless(s, ErrorAck(1, false), UID, room) by { NotHarmless(s, room); }
    NotHeld(s, now, room);
  }

  lemma NotHarmless(s: State, room: bool)
    ensures !Harmless(s, ErrorAck(1, false), UID, room)
  {
  }

  lemma NotHeld(s: State, now: int, room: bool)
    requires s == Submitted(now)
    requires var t := OnHandled(OnMessage(s, ErrorAck(1, false), now), room); !Held(UID, t.outgoing, t.upload, t.fates)
    ensures var t := OnHandled(OnMessage(s, ErrorAck(1, false), now), room);
      && UID in t.submitted && UID !in t.fates && UID in t.krpr
      && !HasRecord(t.outgoing, UID) && !HasReplay(t.upload, UID)
  {
    hide HasRecord, HasReplay, Without;
  }

  // ---------------------------------------------------------------- a refused run

  lemma Refused(now: int) returns (s: State)
    ensures Reached([Submit(UID, now)] + [Received(ErrorAck(1, true), now)] + [Handled(true)], s)
    ensures s.tasks == [Discard(UID)] && s.pending == None && s.outgoing == map[] && s.upload == map[]
    ensures s.krpr == {UID} && s.krpz == {} && UID in s.fates && s.fates[UID] == OutboxSpec.Refused
  {
    SubmittedIsReached(now);
    hide Reached, Without;
    var s1 := Submitted(now);
    var i := Received(ErrorAck(1, true), now);
    ReachedNext([Submit(UID, now)], s1, i);
    var s2 := Take(s1, i);
    ReachedNext([Submit(UID, now)] + [i], s2, Handled(true));
    s := Take(s2, Handled(true));
    assert s.outgoing == map[];
  }

  /** A submission is refused with a message: when the game thread has run the discard, neither a file nor a row of the
      run is left. */
  lemma RefusedRunIsGone(now: int) returns (s: State)
    ensures Reached([Submit(UID, now)] + [Received(ErrorAck(1, true), now)] + [Handled(true)] + [RunTask(true, now)], s)
    ensures UID in s.fates && s.fates[UID] == OutboxSpec.Refused && s.tasks == []
    ensures s.krpr == {} && s.krpz == {} && !HasRecord(s.outgoing, UID) && !HasReplay(s.upload, UID)
  {
    var s3 := Refused(now);
    hide Reached;
    ReachedNext([Submit(UID, now)] + [Received(ErrorAck(1, true), now)] + [Handled(true)], s3, RunTask(true, now));
    s := Take(s3, RunTask(true, now));
  }

  // ---------------------------------------------------------------- a rejection that does nothing

  /** The run is submitted, acknowledged and sent. */
  function SentInputs(now: int): seq<Input> {
    [Submit(UID, now), Received(RecordAck(1, UID), now), Handled(true), RunTask(true, now), ProcessUpload(true)]
  }

  /** The retry entry of the run's upload. */
  function Waiting(ts: int): Entry {
    Entry(0, 0, 1, ts, Upload, Replay(UID))
  }

  lemma OnlyUploadWaits(e: Entry, ts: int)
    requires e.msgId == 1 && e.table == Outgoing
    ensures Without([e] + [Waiting(ts)], 1, Outgoing) == [Waiting(ts)]
  {
    var w := Waiting(ts);
    var q := [e] + [w];
    assert q[0] == e && q[1..] == [w] && [w][1..] == [];
    assert Without([w], 1, Outgoing) == [w] + Without([], 1, Outgoing) == [w];
    assert Without(q, 1, Outgoing) == [] + Without([w], 1, Outgoing);
  }

  lemma Acknowledged(now: int) returns (s: State)
    ensures Reached([Submit(UID, now), Received(RecordAck(1, UID), now), Handled(true)], s)
    ensures s.krpr == {UID} && s.krpz == {} && s.active == {UID} && s.tasks == [SendUpload(UID)]
    ensures s.uploads == [] && s.pending == None && s.submitted == {UID} && s.fates == map[]
    ensures s.outgoing == map[] && s.outgoingSeq == 1 && HasReplay(s.upload, UID)
    ensures s.lastTs == now && exists ts :: s.retry == [Waiting(ts)]
  {
    UidIsUsable();
    SubmittedIsReached(now);
    hide Reached, ValidSegment, Without;
    var s1 := Submitted(now);
    var i1, i2 := Received(RecordAck(1, UID), now), Handled(true);
    ReachedNext([Submit(UID, now)], s1, i1);
    var s2 := Take(s1, i1);
    assert s2.pending == Some(Pending(1, Some(SendUpload(UID))));
    ReachedNext([Submit(UID, now)] + [i1], s2, i2);
    s := Take(s2, i2);
    assert [Submit(UID, now)] + [i1] + [i2] == [Submit(UID, now), i1, i2];
    assert s.outgoing == map[];
    assert s1.retry == [s1.retry[0]];
    assert s2.retry == [s1.retry[0]] + [Waiting(SaveStamp(now, now))];
    OnlyUploadWaits(s1.retry[0], SaveStamp(now, now));
    assert s.retry == Without(s2.retry, 1, Outgoing) == [Waiting(SaveStamp(now, now))];
    assert s.upload[1].message == Replay(UID);
  }

  /** The upload is sent and still wanted, and nothing is under way for it. */
  predicate SentAndWanted(s: State) {
    && UID in s.krpr && UID in s.krpz && UID !in s.fates && UID in s.active
    && s.tasks == [] && s.uploads == [] && s.pending == None
  }

  lemma RunIsSent(now: int) returns (s: State)
    ensures Reached(SentInputs(now), s) && SentAndWanted(s) && HasReplay(s.upload, UID)
    ensures exists ts :: s.retry == [Waiting(ts)]
  {
    var s3 := Acknowledged(now);
    hide Reached, ValidSegment;
    var h3 := [Submit(UID, now), Received(RecordAck(1, UID), now), Handled(true)];
    ReachedNext(h3, s3, RunTask(true, now));
    var s4 := Take(s3, RunTask(true, now));
    assert s4.uploads == [UploadItem(UID, false)];
    ReachedNext(h3 + [RunTask(true, now)], s4, ProcessUpload(true));
    s := Take(s4, ProcessUpload(true));
    assert h3 + [RunTask(true, now)] + [ProcessUpload(true)] == SentInputs(now);
  }

  /** It is rejected: the state stays exactly as it was, with the run in no upload and no task. */
  lemma RejectionThatDoesNothing(now: int, room: bool, moved: bool) returns (s: State)
    ensures Reached(SentInputs(now), s) && SentAndWanted(s)
    ensures ValidSegment(UID) && AfterRejection(s, FileAck(0, UID, false, moved), room, now) == s
  {
    UidIsUsable();
    s := RunIsSent(now);
    hide Reached, ValidSegment;
    RejectedUploadStays(s, FileAck(0, UID, false, moved), room, now);
  }

  // ---------------------------------------------------------------- a reconnect that sends nothing

  /** The connection opens again: the sent upload is due, and new. */
  lemma Reconnected(now: int) returns (s: State)
    ensures Reached(SentInputs(now) + [Opened], s) && SentAndWanted(s) && HasReplay(s.upload, UID)
    ensures s.retry == [Waiting(0)]
  {
    var s5 := RunIsSent(now);
    hide Reached, HasReplay;
    ReachedNext(SentInputs(now), s5, Opened);
    s := Take(s5, Opened);
    var ts :| s5.retry == [Waiting(ts)];
  }

  /** The pass after a reconnect attempts the upload, counts the attempt, and sends nothing. */
  lemma ReconnectThatSendsNothing(now: int, ts: int, lim: Limits) returns (s: State)
    requires ts > lim.delay && lim.max >= 0
    ensures Reached(SentInputs(now) + [Opened], s) && SentAndWanted(s)
    ensures Pass(s.retry, ts, lim) == ([Attempted(Waiting(0), ts)], Some(Waiting(0)))
    ensures OnRetryPass(s, ts, lim, true) == s.(retry := [Attempted(Waiting(0), ts)])
  {
    s := Reconnected(now);
    hide Reached, HasReplay;
    assert [Attempted(Waiting(0), ts)] + s.retry[1..] == [Attempted(Waiting(0), ts)];
  }

  function Passes(clock: seq<int>, lim: Limits): (more: seq<Input>)
    ensures |more| == |clock| && forall k | 0 <= k < |more| :: more[k] == RetryPass(clock[k], lim, true)
    ensures PassTimes(more) == clock
  {
    if clock == [] then [] else [RetryPass(clock[0], lim, true)] + Passes(clock[1..], lim)
  }

  predicate UploadsOnly(q: seq<Entry>) {
    forall k | 0 <= k < |q| :: UploadOf(q[k], UID)
  }

  /** All that passes do to a sent upload is to its entry. */
  lemma {:induction false} PassesOnly(s: State, clock: seq<int>, lim: Limits)
    requires SentAndWanted(s) && UploadsOnly(s.retry)
    ensures Takeable(s, Passes(clock, lim)) && NeverReleased(s, Passes(clock, lim), UID)
    ensures var t := TakeAll(s, Passes(clock, lim)); t == s.(retry := t.retry)
    decreases |clock|
  {
    if clock != [] {
      var t := Take(s, RetryPass(clock[0], lim, true));
      PassIsQuiet(s, clock[0], lim);
      hide Take, SentAndWanted;
      assert Passes(clock, lim)[1..] == Passes(clock[1..], lim);
      PassesOnly(t, clock[1..], lim);
    }
  }

  lemma PassIsQuiet(s: State, ts: int, lim: Limits)
    requires SentAndWanted(s) && UploadsOnly(s.retry)
    ensures var t := OnRetryPass(s, ts, lim, true);
      && t == s.(retry := t.retry) && SentAndWanted(t)
      && UploadsOnly(t.retry)
  {
    hide Pass, UploadsOnly;
    PassOverUploads(s.retry, ts, lim);
  }

  lemma {:induction false} PassOverUploads(q: seq<Entry>, ts: int, lim: Limits)
    requires UploadsOnly(q)
    ensures UploadsOnly(Pass(q, ts, lim).0)
    ensures Pass(q, ts, lim).1.Some? ==> UploadOf(Pass(q, ts, lim).1.value, UID)
  {
    if q != [] {
      assert UploadOf(q[0], UID);
      PassOverUploads(q[1..], ts, lim);
    }
  }

  /** Passes attempt what they attempt of the queue. */
  lemma {:induction false} AttemptsOfPasses(s: State, clock: seq<int>, lim: Limits)
    requires Takeable(s, Passes(clock, lim))
    ensures AllAttempts(s, Passes(clock, lim)) == Attempts(s.retry, Ticks(clock), lim)
    decreases |clock|
  {
    if clock != [] {
      var i := RetryPass(clock[0], lim, true);
      PassTakes(s, i);
      assert Passes(clock, lim)[1..] == Passes(clock[1..], lim) && Ticks(clock)[1..] == Ticks(clock[1..]);
      hide Take;
      AttemptsOfPasses(Take(s, i), clock[1..], lim);
    }
  }

  /** After a reconnect the passes use the upload's `max + 1` attempts up without sending it once: as soon as they
      have spanned `max + 2` delays, at whatever rate they come, it waits in the table with both files there, and
      nothing in memory will ever send it. */
  lemma ReconnectThatGivesUp(now: int, clock: seq<int>, lim: Limits) returns (s: State, t: State)
    requires lim.delay >= 0 && lim.max >= 0 && Spans(0, 0, clock, lim.delay) >= lim.max + 2
    ensures Reached(SentInputs(now) + [Opened], s) && Takeable(s, Passes(clock, lim))
    ensures t == TakeAll(s, Passes(clock, lim)) && Reached(SentInputs(now) + [Opened] + Passes(clock, lim), t)
    ensures PassesSendNothing(s, Passes(clock, lim), UID)
    ensures |Times(AllAttempts(s, Passes(clock, lim)), Upload, 1)| == lim.max + 1
    ensures SentAndWanted(t) && HasReplay(t.upload, UID) && t.retry == []
  {
    s := Reconnected(now);
    hide Reached, HasReplay, Takeable, NeverReleased, TakeAll, PassTimes, PassesSendNothing, AllAttempts, Spans,
      Attempts, Times;
    PassesOnly(s, clock, lim);
    t := TakeAll(s, Passes(clock, lim));
    assert Measure(s.retry, lim) == lim.max + 2;
    OutboxDrains(SentInputs(now) + [Opened], s, Passes(clock, lim), 0, lim);
    PassesOfActiveRunsSendNothing(s, Passes(clock, lim), UID);
    AttemptsOfPasses(s, clock, lim);
    SoleEntryAttempts(Waiting(0), clock, lim);
  }

  // ---------------------------------------------------------------- a queued upload that is not marked

  /** The retry entry of an upload acknowledged again. */
  function Again(id: int, ts: int): Entry {
    Entry(0, 0, id, ts, Upload, Replay(UID))
  }

  lemma AcknowledgedAgain(inputs: seq<Input>, s: State, now: int) returns (t: State)
    requires Reached(inputs, s) && s.krpr == {UID} && s.pending == None && s.outgoing == map[] &&
      s.tasks == [SendUpload(UID)]
    ensures Reached(inputs + [Received(RecordAck(0, UID), now)] + [Handled(true)], t)
    ensures t.krpr == s.krpr && t.krpz == s.krpz && t.active == s.active + {UID} && t.uploads == s.uploads
    ensures t.tasks == [SendUpload(UID), SendUpload(UID)] && t.pending == None && t.outgoing == map[]
    ensures t.submitted == s.submitted
    ensures exists id :: t.retry == s.retry + [Again(id, SaveStamp(s.lastTs, now))]
  {
    UidIsUsable();
    hide Reached, ValidSegment;
    var i1, i2 := Received(RecordAck(0, UID), now), Handled(true);
    ReachedNext(inputs, s, i1);
    var s2 := Take(s, i1);
    assert s2.pending == Some(Pending(0, Some(SendUpload(UID))));
    ReachedNext(inputs + [i1], s2, i2);
    t := Take(s2, i2);
    assert t.retry == s.retry + [Again(s.uploadSeq + 1, SaveStamp(s.lastTs, now))];
  }

  lemma SendQueues(inputs: seq<Input>, s: State, now: int) returns (t: State)
    requires Reached(inputs, s) && s.tasks != [] && s.tasks[0] == SendUpload(UID)
    ensures Reached(inputs + [RunTask(true, now)], t) && t.active == s.active
    ensures t.tasks == s.tasks[1..] && t.uploads == s.uploads + [UploadItem(UID, false)]
    ensures t.krpr == s.krpr && t.pending == s.pending && t.retry == s.retry && t.outgoing == s.outgoing
    ensures t.krpz == s.krpz && t.submitted == s.submitted
  {
    hide Reached;
    ReachedNext(inputs, s, RunTask(true, now));
    t := Take(s, RunTask(true, now));
  }

  /** Two acknowledgements queue two items; the first, unreadable, clears the mark of the second. */
  lemma QueuedIsNotAlwaysActive(now: int) returns (inputs: seq<Input>, s: State)
    ensures Reached(inputs, s) && s.uploads == [UploadItem(UID, false)] && UID !in s.active
    ensures s.krpr == {UID} && s.tasks == [] && s.pending == None
  {
    hide Reached;
    var s3 := Acknowledged(now);
    var h3 := [Submit(UID, now), Received(RecordAck(1, UID), now), Handled(true)];
    var s5 := AcknowledgedAgain(h3, s3, now);
    var h5 := h3 + [Received(RecordAck(0, UID), now)] + [Handled(true)];
    var s6 := SendQueues(h5, s5, now);
    var s7 := SendQueues(h5 + [RunTask(true, now)], s6, now);
    assert s7.uploads == [UploadItem(UID, false), UploadItem(UID, false)];
    var h7 := h5 + [RunTask(true, now)] + [RunTask(true, now)];
    inputs := h7 + [ProcessUpload(false)];
    s := FirstUnreadable(h7, s7);
  }

  lemma FirstUnreadable(inputs: seq<Input>, s: State) returns (t: State)
    requires Reached(inputs, s) && s.active <= {UID} && s.uploads == [UploadItem(UID, false), UploadItem(UID, false)]
    ensures Reached(inputs + [ProcessUpload(false)], t) && t.uploads == [UploadItem(UID, false)] && UID !in t.active
    ensures t.krpr == s.krpr && t.tasks == s.tasks && t.pending == s.pending
  {
    hide Reached;
    ReachedNext(inputs, s, ProcessUpload(false));
    t := Take(s, ProcessUpload(false));
  }

  /** The second is sent all the same, and then its rejection does send it again. */
  lemma UnmarkedIsSentAgain(now: int, moved: bool) returns (inputs: seq<Input>, s: State)
    ensures Reached(inputs + [ProcessUpload(true)], s)
    ensures UID in s.krpr && UID in s.krpz && UID !in s.active && s.uploads == [] && s.tasks == []
    ensures ValidSegment(UID)
    ensures AfterRejection(s, FileAck(0, UID, false, moved), true, now).uploads == [UploadItem(UID, true)]
  {
    UidIsUsable();
    var s8;
    inputs, s8 := QueuedIsNotAlwaysActive(now);
    hide Reached, ValidSegment;
    ReachedNext(inputs, s8, ProcessUpload(true));
    s := Take(s8, ProcessUpload(true));
    assert s.uploads == [] && [] + [UploadItem(UID, true)] == [UploadItem(UID, true)];
  }

  // ---------------------------------------------------------------- an accepted run that is sent again

  function AcceptedInputs(now: int): seq<Input> {
    [Submit(UID, now), Received(RecordAck(1, UID), now), Handled(true)] + [Received(RecordAck(0, UID), now)] +
    [Handled(true)] + [RunTask(true, now)] + [RunTask(true, now)] + [ProcessUpload(true)] + [ProcessUpload(true)] +
    [Received(FileAck(0, UID, true, false), now)] + [Handled(true)]
  }

  lemma ItemSent(inputs: seq<Input>, s: State) returns (t: State)
    requires Reached(inputs, s) && s.uploads != [] && s.uploads[0] == UploadItem(UID, false) && UID in s.krpr
    ensures Reached(inputs + [ProcessUpload(true)], t) && t == s.(uploads := s.uploads[1..], krpz := s.krpz + {UID})
  {
    hide Reached;
    ReachedNext(inputs, s, ProcessUpload(true));
    t := Take(s, ProcessUpload(true));
  }

  lemma Accepted(inputs: seq<Input>, s: State, now: int) returns (t: State)
    requires Reached(inputs, s) && s.pending == None && s.outgoing == map[]
    ensures Reached(inputs + [Received(FileAck(0, UID, true, false), now)] + [Handled(true)], t)
    ensures ValidSegment(UID) && t == OnFileAck(s, UID, true, false).0
  {
    UidIsUsable();
    hide Reached, ValidSegment, WithoutFirstUpload, UploadsWithout;
    var i := Received(FileAck(0, UID, true, false), now);
    ReachedNext(inputs, s, i);
    ReachedNext(inputs + [i], Take(s, i), Handled(true));
    t := Take(Take(s, i), Handled(true));
  }

  /** The entries of both acknowledgements. */
  predicate TwoWait(q: seq<Entry>, now: int) {
    |q| == 2 && UploadOf(q[0], UID) && q[1] == Again(q[1].msgId, now + 5)
  }

  lemma TwoUploadsWaiting(now: int) returns (inputs: seq<Input>, s: State)
    ensures Reached(inputs, s)
    ensures inputs + [Received(FileAck(0, UID, true, false), now)] + [Handled(true)] == AcceptedInputs(now)
    ensures s.krpr == {UID} && s.krpz == {UID} && s.pending == None && s.outgoing == map[] && s.uploads == []
    ensures s.submitted == {UID} && TwoWait(s.retry, now)
  {
    hide Reached;
    var s3 := Acknowledged(now);
    var h3 := [Submit(UID, now), Received(RecordAck(1, UID), now), Handled(true)];
    var s5 := AcknowledgedAgain(h3, s3, now);
    var h5 := h3 + [Received(RecordAck(0, UID), now)] + [Handled(true)];
    var s6 := SendQueues(h5, s5, now);
    var s7 := SendQueues(h5 + [RunTask(true, now)], s6, now);
    var h7 := h5 + [RunTask(true, now)] + [RunTask(true, now)];
    assert s7.uploads == [UploadItem(UID, false), UploadItem(UID, false)];
    var s8 := ItemSent(h7, s7);
    s := ItemSent(h7 + [ProcessUpload(true)], s8);
    inputs := h7 + [ProcessUpload(true)] + [ProcessUpload(true)];
  }

  lemma SecondIsLeft(w: Entry, e: Entry)
    requires UploadOf(w, UID)
    ensures WithoutFirstUpload([w] + [e], UID) == [e]
  {
    assert ([w] + [e])[0] == w && ([w] + [e])[1..] == [e];
  }

  /** A run acknowledged twice is uploaded and accepted, but its files cannot be moved. It has no row any more, and
      the next pass that is due sends it again. */
  lemma AcceptedRunIsSentAgain(now: int, ts: int, lim: Limits) returns (s: State)
    requires ts - (now + 5) > lim.delay && lim.max >= 0
    ensures Reached(AcceptedInputs(now), s) && UID in s.fates && s.fates[UID] == OutboxSpec.Accepted
    ensures !HasReplay(s.upload, UID) && !HasRecord(s.outgoing, UID) && s.uploads == []
    ensures OnRetryPass(s, ts, lim, true).uploads == [UploadItem(UID, true)]
  {
    hide Reached, HasReplay;
    var inputs, s9 := TwoUploadsWaiting(now);
    s := Accepted(inputs, s9, now);
    var e := s9.retry[1];
    assert s9.retry == [s9.retry[0]] + [e];
    SecondIsLeft(s9.retry[0], e);
    AcceptanceClearsTheTable(s9, UID, false);
    hide WithoutFirstUpload, UploadsWithout, ValidSegment;
    assert s.retry == [e];
    SoleEntryPass(e, ts, lim);
  }
}
