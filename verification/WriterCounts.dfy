/** Checkpoint and gocheck counters: over every history they are the numbers of records in the file less
    those that no stamp ever counted, and in an orderly life there are none of those. No modulus is left in
    this: an event takes two bytes, so a 32-bit counter cannot wrap in a file that `ftell` can measure, and
    FINISH publishes no other. */
module WriterCounts {
  import opened Options
  import opened Bytes
  import opened KrpFormat
  import opened KrpGrammar
  import opened ReplayNames
  import opened WriterSpec
  import opened WriterRuns

  /** How many events `e` a log holds. */
  function Count(log: seq<Callback>, e: Byte): (n: nat)
    ensures n <= |log|
  {
    if log == [] then 0 else
      var last := log[|log| - 1];
      Count(log[..|log| - 1], e) + if last.OnEvent? && last.id == e then 1 else 0
  }

  lemma CountOneMore(log: seq<Callback>, c: Callback, e: Byte)
    ensures Count(log + [c], e) == Count(log, e) + if c.OnEvent? && c.id == e then 1 else 0
  {
    assert (log + [c])[..|log|] == log;
  }

  /** The two counters are the counts of a log. */
  predicate Tally(checkpoints: nat, gochecks: nat, log: seq<Callback>) {
    checkpoints == Count(log, KRP_EVENT_CHECKPOINT) && gochecks == Count(log, KRP_EVENT_GOCHECK)
  }

  /** The counts in a file's header. */
  predicate HeaderTally(f: seq<Byte>, log: seq<Callback>) {
    |f| >= HEADER_SIZE && Tally(Field32(f, CHECKPOINTS_AT), Field32(f, TELEPORTS_AT), log)
  }

  predicate HasEvent(log: seq<Callback>, e: Byte) {
    exists i | 0 <= i < |log| :: log[i].OnEvent? && log[i].id == e
  }

  lemma {:induction false} CountPositive(log: seq<Callback>, e: Byte)
    ensures Count(log, e) > 0 <==> HasEvent(log, e)
  {
    if log != [] {
      var n := |log| - 1;
      CountPositive(log[..n], e);
      if i :| 0 <= i < n && log[i].OnEvent? && log[i].id == e { assert log[..n][i] == log[i]; }
    }
  }

  // ---------------------------------------------------------------- counters cannot wrap

  lemma {:induction false} EventsTakeBytes(rs: seq<Record>, e: Byte)
    requires AllWellFormed(rs)
    ensures 2 * Count(Replay(rs), e) <= |Serialise(rs)|
  {
    if rs != [] {
      EventsTakeBytes(rs[..|rs| - 1], e);
      assert Replay(rs)[..|rs| - 1] == Replay(rs[..|rs| - 1]);
    }
  }

  /** An event record takes two bytes of the file. */
  lemma EventsTakeRoom(f: seq<Byte>, log: seq<Callback>, e: Byte)
    requires Decodes(f, log)
    ensures HEADER_SIZE + 2 * Count(log, e) <= |f|
  {
    var rs :| DecodesBy(f, log, rs);
    EventsTakeBytes(rs, e);
    hide Count, Replay, CaptureHeader;
  }

  /** There is room for one more event of either kind in the counters. */
  predicate Fits(log: seq<Callback>) {
    Count(log, KRP_EVENT_CHECKPOINT) + 1 < U32 && Count(log, KRP_EVENT_GOCHECK) + 1 < U32
  }

  lemma MeasuredFits(f: seq<Byte>, log: seq<Callback>)
    requires Decodes(f, log)
    ensures Measured(f) ==> Fits(log)
  {
    hide Decodes, Count;
    EventsTakeRoom(f, log, KRP_EVENT_CHECKPOINT);
    EventsTakeRoom(f, log, KRP_EVENT_GOCHECK);
  }

  // ---------------------------------------------------------------- what the header does not count

  /** Of the events accepted for a file: `session`, those accepted since its header was last stamped, and
      `forgotten`, those that were in a session when UNPAUSE took the counters from the header instead. */
  datatype Ledger = Ledger(forgotten: multiset<Byte>, session: multiset<Byte>)

  type Books = map<Path, Ledger>

  const CLEAR := Ledger(multiset{}, multiset{})

  function LedgerOf(k: Books, p: Path): Ledger {
    if p in k then k[p] else CLEAR
  }

  /** The books after a signal. They follow what is accepted and when headers are stamped, not the counters. */
  function BooksStep(s: State, k: Books, id: nat, sig: Signal): Books
    requires Sound(s) && Admissible(s, id, sig)
  {
    match sig
    case RunStart(_, steamid, _) =>
      if !ValidSegment(steamid) || !ValidSegment(MapName(s.header)) then k
      else k[Temp(MapName(s.header), steamid) := CLEAR]
    case RunEvent(e) =>
      if !Open(s, id) then k
      else var l := LedgerOf(k, FileOf(s, id)); k[FileOf(s, id) := l.(session := l.session + multiset{e})]
    case RunPause =>
      if !Open(s, id) || !Measured(s.files[FileOf(s, id)]) then k
      else k[FileOf(s, id) := LedgerOf(k, FileOf(s, id)).(session := multiset{})]
    case RunUnpause(steamid) =>
      var p := Temp(MapName(s.header), steamid);
      if !ValidSegment(steamid) || !ValidSegment(MapName(s.header)) || p !in s.files || !Measured(s.files[p]) then k
      else var l := LedgerOf(k, p); k[p := Ledger(l.forgotten + l.session, multiset{})]
    case RunFinish(_, _, _, _, _, _) =>
      var dest := FinishPath(s, id, sig);
      if dest.None? then k else k[dest.value := LedgerOf(k, FileOf(s, id)).(session := multiset{})]
    case _ => k
  }

  /** A 32-bit counter that misses `missed` of `n` events. */
  predicate Short(counter: nat, missed: nat, n: nat) {
    counter < U32 && counter + missed == n
  }

  predicate BothShort(checkpoints: nat, gochecks: nat, missed: multiset<Byte>, log: seq<Callback>) {
    && Short(checkpoints, missed[KRP_EVENT_CHECKPOINT], Count(log, KRP_EVENT_CHECKPOINT))
    && Short(gochecks, missed[KRP_EVENT_GOCHECK], Count(log, KRP_EVENT_GOCHECK))
  }

  /** An open slot's counters miss exactly what was forgotten. */
  predicate SlotBalances(slot: Slot, l: LogSlot, files: map<Path, seq<Byte>>, logs: map<Path, seq<Callback>>,
                         k: Books)
  {
    l.path.Some? ==>
      && l.path.value in files && l.path.value in logs
      && (Measured(files[l.path.value]) ==>
        BothShort(slot.checkpoints, slot.gochecks, LedgerOf(k, l.path.value).forgotten, logs[l.path.value]))
  }

  /** A file's header misses that and what was accepted since it was stamped. */
  predicate FileBalances(f: seq<Byte>, log: seq<Callback>, l: Ledger) {
    && |f| >= HEADER_SIZE
    && (Measured(f) ==> BothShort(Field32(f, CHECKPOINTS_AT), Field32(f, TELEPORTS_AT), l.forgotten + l.session, log))
  }

  ghost predicate Balanced(s: State, a: Logs, k: Books) {
    && |s.slots| == |a.slots| == SLOTS
    && (forall id: nat | id < SLOTS :: SlotBalances(s.slots[id], a.slots[id], s.files, a.files, k))
    && forall p | p in s.files :: p in a.files && FileBalances(s.files[p], a.files[p], LedgerOf(k, p))
  }

  // ---------------------------------------------------------------- one signal: everything else

  lemma BooksElsewhere(s: State, k: Books, id: nat, sig: Signal, p: Path)
    requires Sound(s) && Admissible(s, id, sig) && Elsewhere(s, id, sig, p)
    ensures LedgerOf(BooksStep(s, k, id, sig), p) == LedgerOf(k, p)
  {
    hide ValidSegment, MapName, FinishPath;
  }

  lemma OtherSlotBalances(s: State, a: Logs, k: Books, id: nat, sig: Signal, j: nat)
    requires Agree(s, a) && Sound(s) && LogSound(a) && Admissible(s, id, sig) && Balanced(s, a, k)
    requires j < SLOTS && j != id
    ensures var t, b := Step(s, id, sig), LogStep(s, a, id, sig);
      && |t.slots| == |b.slots| == SLOTS
      && SlotBalances(t.slots[j], b.slots[j], t.files, b.files, BooksStep(s, k, id, sig))
  {
    assert SlotBalances(s.slots[j], a.slots[j], s.files, a.files, k);
    hide Agree, Sound, Admissible, Balanced, Step, LogStep, LogSound, BothShort, BooksStep, Elsewhere;
    OpenSlot(s, a, j);
    OtherSlotsUntouched(s, a, id, sig, j);
    if Open(s, j) {
      OtherSlotsElsewhere(s, id, sig, j);
      OtherFilesUntouched(s, a, id, sig, FileOf(s, j));
      BooksElsewhere(s, k, id, sig, FileOf(s, j));
    }
  }

  lemma OtherFileBalances(s: State, a: Logs, k: Books, id: nat, sig: Signal, p: Path)
    requires Agree(s, a) && Sound(s) && LogSound(a) && Admissible(s, id, sig) && Balanced(s, a, k)
    requires Elsewhere(s, id, sig, p) && p in Step(s, id, sig).files
    ensures var t, b := Step(s, id, sig), LogStep(s, a, id, sig);
      p in b.files && FileBalances(t.files[p], b.files[p], LedgerOf(BooksStep(s, k, id, sig), p))
  {
    hide Agree, Sound, Admissible, Step, LogStep, LogSound, FileBalances, BooksStep, Elsewhere;
    BooksElsewhere(s, k, id, sig, p);
    OtherFilesUntouched(s, a, id, sig, p);
  }

  // ---------------------------------------------------------------- one signal: arithmetic

  lemma CountedOneMore(counter: nat, missed: nat, n: nat)
    requires Short(counter, missed, n) && n + 1 < U32
    ensures Short((counter + 1) % U32, missed, n + 1)
  {
  }

  lemma MissedOneMore(counter: nat, missed: nat, n: nat)
    requires Short(counter, missed, n)
    ensures Short(counter, missed + 1, n + 1)
  {
  }

  lemma EventCounted(slot: Slot, missed: multiset<Byte>, log: seq<Callback>, e: Byte)
    requires BothShort(slot.checkpoints, slot.gochecks, missed, log) && Fits(log)
    ensures BothShort(CountEvent(slot, e).checkpoints, CountEvent(slot, e).gochecks, missed, WithEvent(log, e))
  {
    CountOneMore(log, OnEvent(|log|, e), KRP_EVENT_CHECKPOINT);
    CountOneMore(log, OnEvent(|log|, e), KRP_EVENT_GOCHECK);
    CountedOneMore(slot.checkpoints, missed[KRP_EVENT_CHECKPOINT], Count(log, KRP_EVENT_CHECKPOINT));
    CountedOneMore(slot.gochecks, missed[KRP_EVENT_GOCHECK], Count(log, KRP_EVENT_GOCHECK));
    hide Short, Count;
  }

  lemma EventMissed(checkpoints: nat, gochecks: nat, missed: multiset<Byte>, more: multiset<Byte>,
      log: seq<Callback>, e: Byte)
    requires BothShort(checkpoints, gochecks, missed, log) && more == missed + multiset{e}
    ensures BothShort(checkpoints, gochecks, more, WithEvent(log, e))
  {
    CountOneMore(log, OnEvent(|log|, e), KRP_EVENT_CHECKPOINT);
    CountOneMore(log, OnEvent(|log|, e), KRP_EVENT_GOCHECK);
    MissedOneMore(checkpoints, missed[KRP_EVENT_CHECKPOINT], Count(log, KRP_EVENT_CHECKPOINT));
    MissedOneMore(gochecks, missed[KRP_EVENT_GOCHECK], Count(log, KRP_EVENT_GOCHECK));
    hide Short, Count;
  }

  lemma FrameUncounted(checkpoints: nat, gochecks: nat, missed: multiset<Byte>, log: seq<Callback>, counter: nat,
      frame: seq<Byte>)
    requires BothShort(checkpoints, gochecks, missed, log)
    ensures BothShort(checkpoints, gochecks, missed, WithFrame(log, counter, frame))
  {
    var c := WithFrame(log, counter, frame)[|log|];
    CountOneMore(log, c, KRP_EVENT_CHECKPOINT);
    CountOneMore(log, c, KRP_EVENT_GOCHECK);
    hide Short, Count;
  }

  // ---------------------------------------------------------------- one signal: header fields

  lemma StampedFields(f: seq<Byte>, checkpoints: nat, gochecks: nat)
    requires |f| >= HEADER_SIZE && checkpoints < U32 && gochecks < U32
    ensures Field32(StampCounts(f, checkpoints, gochecks), CHECKPOINTS_AT) == checkpoints
    ensures Field32(StampCounts(f, checkpoints, gochecks), TELEPORTS_AT) == gochecks
  {
    var f1 := WriteAt(f, CHECKPOINTS_AT, Put32(checkpoints));
    var f2 := WriteAt(f1, TELEPORTS_AT, Put32(gochecks));
    Get32Put32(checkpoints);
    Get32Put32(gochecks);
    assert f2[..TELEPORTS_AT][CHECKPOINTS_AT..] == f1[..TELEPORTS_AT][CHECKPOINTS_AT..];
    assert f2[CHECKPOINTS_AT..CHECKPOINTS_AT + 4] == f1[CHECKPOINTS_AT..CHECKPOINTS_AT + 4] == Put32(checkpoints);
    assert f2[TELEPORTS_AT..TELEPORTS_AT + 4] == Put32(gochecks);
  }

  lemma StampedBalances(f: seq<Byte>, log: seq<Callback>, checkpoints: nat, gochecks: nat, l: Ledger)
    requires |f| >= HEADER_SIZE && (Measured(f) ==> BothShort(checkpoints, gochecks, l.forgotten, log))
    ensures FileBalances(StampCounts(f, checkpoints, gochecks), log, l.(session := multiset{}))
  {
    if Measured(f) { StampedFields(f, checkpoints, gochecks); }
    assert l.forgotten + multiset{} == l.forgotten;
  }

  lemma FinishedBalances(f: seq<Byte>, nick: Text, log: seq<Callback>, checkpoints: nat, gochecks: nat, l: Ledger)
    requires |f| >= HEADER_SIZE && (Measured(f) ==> BothShort(checkpoints, gochecks, l.forgotten, log))
    ensures FileBalances(FinishHeader(f, nick, checkpoints, gochecks), log, l.(session := multiset{}))
  {
    var name := if |nick| < 32 then nick + Zeroes(32 - |nick|) else nick[..31] + [0];
    StampedBalances(WriteAt(f, NAME_AT, name), log, checkpoints, gochecks, l);
  }

  predicate NoCounts(h: seq<Byte>) {
    |h| >= HEADER_SIZE && h[CHECKPOINTS_AT..TIMESTAMP_AT] == Zeroes(8)
  }

  lemma PatchKeepsCounts(h: seq<Byte>, at: nat, data: seq<Byte>)
    requires NoCounts(h) && at + |data| <= |h| && (at + |data| <= CHECKPOINTS_AT || TIMESTAMP_AT <= at)
    ensures NoCounts(WriteAt(h, at, data))
  {
    PatchKeeps(h, at, data, CHECKPOINTS_AT, TIMESTAMP_AT);
  }

  lemma StartedCounts(h: seq<Byte>, ts: nat, steamid: Text, nick: Text)
    requires |h| == HEADER_SIZE && NoCounts(h)
    ensures NoCounts(StartHeader(h, ts, steamid, nick))
  {
    hide FullSteamid, NoCounts;
    var h1 := WriteAt(h, TIMESTAMP_AT, Store(ts, 8));
    PatchKeepsCounts(h, TIMESTAMP_AT, Store(ts, 8));
    var n := (if |nick| < 32 then nick else nick[..31]) + [0];
    PatchKeepsCounts(h1, NAME_AT, n);
    var t := FullSteamid(steamid);
    PatchKeepsCounts(WriteAt(h1, NAME_AT, n), STEAMID_AT, (if |t| < 35 then t else t[..34]) + [0]);
  }

  lemma NoCountsBalance(h: seq<Byte>)
    requires NoCounts(h)
    ensures FileBalances(h, [], CLEAR) && BothShort(0, 0, multiset{}, [])
  {
    assert Zeroes(8)[..4] == Zeroes(4) && Zeroes(8)[4..] == Zeroes(4);
    assert h[CHECKPOINTS_AT..TIMESTAMP_AT][..4] == h[CHECKPOINTS_AT..CHECKPOINTS_AT + 4];
    assert h[CHECKPOINTS_AT..TIMESTAMP_AT][4..] == h[TELEPORTS_AT..TELEPORTS_AT + 4];
    LoadZeroes(4);
  }

  lemma {:induction false} LoadZeroes(n: nat)
    ensures Load(Zeroes(n)) == 0
  {
    if n > 0 {
      assert Zeroes(n)[1..] == Zeroes(n - 1);
      LoadZeroes(n - 1);
    }
  }

  // ---------------------------------------------------------------- one signal: its own slot and files

  ghost predicate OwnBalances(s: State, a: Logs, k: Books, id: nat, sig: Signal)
    requires Sound(s) && LogSound(a) && Admissible(s, id, sig)
  {
    var t, b, now := Step(s, id, sig), LogStep(s, a, id, sig), BooksStep(s, k, id, sig);
    && |t.slots| == |b.slots| == SLOTS
    && SlotBalances(t.slots[id], b.slots[id], t.files, b.files, now)
    && forall p | p in t.files && !Elsewhere(s, id, sig, p) ::
         p in b.files && FileBalances(t.files[p], b.files[p], LedgerOf(now, p))
  }

  lemma OwnSlot(s: State, a: Logs, k: Books, id: nat)
    requires Agree(s, a) && Balanced(s, a, k) && id < SLOTS
    ensures |s.slots| == |a.slots| == SLOTS && SlotBalances(s.slots[id], a.slots[id], s.files, a.files, k)
    ensures Open(s, id) ==>
      && FileOf(s, id) in s.files && FileOf(s, id) in a.files
      && FileBalances(s.files[FileOf(s, id)], a.files[FileOf(s, id)], LedgerOf(k, FileOf(s, id)))
  {
    hide Agree, Decodes, SlotBalances, FileBalances;
    OpenSlot(s, a, id);
  }

  lemma FileAt(s: State, a: Logs, k: Books, p: Path)
    requires Agree(s, a) && Balanced(s, a, k)
    ensures NoCounts(s.header) && s.files.Keys == a.files.Keys
    ensures p in s.files ==> p in a.files && FileBalances(s.files[p], a.files[p], LedgerOf(k, p))
  {
    hide Decodes, SlotBalances, FileBalances, SlotAgrees, ValidSegment;
  }

  lemma OwnStart(s: State, a: Logs, k: Books, id: nat, sig: Signal)
    requires Agree(s, a) && Sound(s) && LogSound(a) && Admissible(s, id, sig) && Balanced(s, a, k) && sig.RunStart?
    ensures OwnBalances(s, a, k, id, sig)
  {
    hide Agree, Balanced, Decodes, ValidSegment, MapName, StartHeader, LastFrame, NoCounts, FileBalances;
    OpenSlot(s, a, id);
    OwnSlot(s, a, k, id);
    FileAt(s, a, k, Temp(MapName(s.header), sig.steamid));
    StartedCounts(s.header, sig.ts, sig.steamid, sig.nick);
    NoCountsBalance(StartHeader(s.header, sig.ts, sig.steamid, sig.nick));
  }

  lemma OwnEvent(s: State, a: Logs, k: Books, id: nat, sig: Signal)
    requires Agree(s, a) && Sound(s) && LogSound(a) && Admissible(s, id, sig) && Balanced(s, a, k) && sig.RunEvent?
    ensures OwnBalances(s, a, k, id, sig)
  {
    hide Agree, Sound, LogSound, Balanced, Decodes, Encode, WriteAt, OnEventSignal, LogStep, BothShort, WithEvent,
      CountEvent, LastFrame;
    OpenSlot(s, a, id);
    OwnSlot(s, a, k, id);
    if Open(s, id) {
      var p, l := FileOf(s, id), LedgerOf(k, FileOf(s, id));
      EventShape(s, a, id, sig, p);
      MeasuredFits(s.files[p], a.files[p]);
      SameFields(s.files[p], Encode(KrpFormat.Event(sig.event)));
      if Measured(s.files[p]) {
        EventCounted(Moved(s.slots[id], |s.files[p]| + |Encode(KrpFormat.Event(sig.event))|), l.forgotten,
          a.files[p], sig.event);
      }
      EventInFile(s.files[p], Encode(KrpFormat.Event(sig.event)), a.files[p], l, sig.event);
    } else {
      EventIgnored(s, a, id, sig);
    }
  }

  lemma SameFields(f: seq<Byte>, e: seq<Byte>)
    requires |f| >= HEADER_SIZE
    ensures |WriteAt(f, |f|, e)| >= HEADER_SIZE && (Measured(WriteAt(f, |f|, e)) ==> Measured(f))
    ensures Field32(WriteAt(f, |f|, e), CHECKPOINTS_AT) == Field32(f, CHECKPOINTS_AT)
    ensures Field32(WriteAt(f, |f|, e), TELEPORTS_AT) == Field32(f, TELEPORTS_AT)
  {
    var g := WriteAt(f, |f|, e);
    assert g[..|f|] == f;
    assert g[CHECKPOINTS_AT..CHECKPOINTS_AT + 4] == f[CHECKPOINTS_AT..CHECKPOINTS_AT + 4];
    assert g[TELEPORTS_AT..TELEPORTS_AT + 4] == f[TELEPORTS_AT..TELEPORTS_AT + 4];
  }

  lemma EventInFile(f: seq<Byte>, bytes: seq<Byte>, log: seq<Callback>, l: Ledger, e: Byte)
    requires FileBalances(f, log, l)
    ensures FileBalances(WriteAt(f, |f|, bytes), WithEvent(log, e), l.(session := l.session + multiset{e}))
  {
    hide BothShort, WithEvent, Field32;
    SameFields(f, bytes);
    if Measured(f) {
      EventMissed(Field32(f, CHECKPOINTS_AT), Field32(f, TELEPORTS_AT), l.forgotten + l.session,
        l.forgotten + (l.session + multiset{e}), log, e);
    }
  }

  lemma FrameInFile(f: seq<Byte>, bytes: seq<Byte>, log: seq<Callback>, l: Ledger, counter: nat, frame: seq<Byte>)
    requires FileBalances(f, log, l)
    ensures FileBalances(WriteAt(f, |f|, bytes), WithFrame(log, counter, frame), l)
  {
    hide BothShort, WithFrame, Field32;
    SameFields(f, bytes);
    if Measured(f) {
      FrameUncounted(Field32(f, CHECKPOINTS_AT), Field32(f, TELEPORTS_AT), l.forgotten + l.session, log, counter,
        frame);
    }
  }

  lemma OwnFrame(s: State, a: Logs, k: Books, id: nat, sig: Signal)
    requires Agree(s, a) && Sound(s) && LogSound(a) && Admissible(s, id, sig) && Balanced(s, a, k) && sig.RunFrame?
    ensures OwnBalances(s, a, k, id, sig)
  {
    hide Agree, Sound, LogSound, Balanced, Decodes, Encode, WriteAt, OnFrameSignal, LogStep, BothShort, WithFrame,
      FrameRecord, LastFrame, FileBalances;
    OpenSlot(s, a, id);
    OwnSlot(s, a, k, id);
    if Open(s, id) {
      var p, slot, l := FileOf(s, id), s.slots[id], LedgerOf(k, FileOf(s, id));
      FrameShape(s, a, id, sig, p);
      SameFields(s.files[p], Encode(FrameRecord(slot, sig.frame)));
      if Measured(s.files[p]) {
        FrameUncounted(slot.checkpoints, slot.gochecks, l.forgotten, a.files[p], slot.counter, sig.frame);
      }
      FrameInFile(s.files[p], Encode(FrameRecord(slot, sig.frame)), a.files[p], l, slot.counter, sig.frame);
    } else {
      FrameIgnored(s, a, id, sig);
    }
  }

  lemma OwnPause(s: State, a: Logs, k: Books, id: nat, sig: Signal)
    requires Agree(s, a) && Sound(s) && LogSound(a) && Admissible(s, id, sig) && Balanced(s, a, k) && sig.RunPause?
    ensures OwnBalances(s, a, k, id, sig)
  {
    hide Agree, Balanced, Decodes, StampCounts, FileBalances, BothShort, LastFrame;
    OpenSlot(s, a, id);
    OwnSlot(s, a, k, id);
    if Open(s, id) {
      var p := FileOf(s, id);
      StampedBalances(s.files[p], a.files[p], s.slots[id].checkpoints, s.slots[id].gochecks, LedgerOf(k, p));
    }
  }

  /** Forgetting a session balances the slot with the header it was filled from. */
  lemma ResumedBalances(f: seq<Byte>, log: seq<Callback>, l: Ledger)
    requires FileBalances(f, log, l) && Measured(f)
    ensures var m := Ledger(l.forgotten + l.session, multiset{});
      && FileBalances(f, log, m)
      && BothShort(Field32(f, CHECKPOINTS_AT), Field32(f, TELEPORTS_AT), m.forgotten, log)
  {
    hide BothShort;
    assert l.forgotten + l.session + multiset{} == l.forgotten + l.session;
  }

  lemma OwnUnpause(s: State, a: Logs, k: Books, id: nat, sig: Signal)
    requires Agree(s, a) && Sound(s) && LogSound(a) && Admissible(s, id, sig) && Balanced(s, a, k) && sig.RunUnpause?
    ensures OwnBalances(s, a, k, id, sig)
  {
    hide Agree, Balanced, Decodes, ValidSegment, MapName, BothShort, LastFrame, FileBalances, Field32;
    OpenSlot(s, a, id);
    OwnSlot(s, a, k, id);
    var p := Temp(MapName(s.header), sig.steamid);
    FileAt(s, a, k, p);
    if p in s.files && Measured(s.files[p]) { ResumedBalances(s.files[p], a.files[p], LedgerOf(k, p)); }
  }

  lemma OwnReject(s: State, a: Logs, k: Books, id: nat, sig: Signal)
    requires Agree(s, a) && Sound(s) && LogSound(a) && Admissible(s, id, sig) && Balanced(s, a, k) && sig.RunReject?
    ensures OwnBalances(s, a, k, id, sig)
  {
    hide Agree, Balanced, Decodes, BothShort, LastFrame, FileBalances;
    OpenSlot(s, a, id);
    OwnSlot(s, a, k, id);
  }

  lemma OwnFinish(s: State, a: Logs, k: Books, id: nat, sig: Signal)
    requires Agree(s, a) && Sound(s) && LogSound(a) && Admissible(s, id, sig) && Balanced(s, a, k) && sig.RunFinish?
    ensures OwnBalances(s, a, k, id, sig)
  {
    hide Agree, Balanced, Decodes, FinishHeader, FileBalances, BothShort, LastFrame, ValidSegment, FileMap, FinalUid,
        Load;
    OpenSlot(s, a, id);
    OwnSlot(s, a, k, id);
    if Open(s, id) {
      var p, slot := FileOf(s, id), s.slots[id];
      FinishedBalances(s.files[p], sig.nick, a.files[p], slot.checkpoints, slot.gochecks, LedgerOf(k, p));
      var dest := FinishPath(s, id, sig);
      if dest.Some? {
        FinishShape(s, a, id, sig, dest.value, p);
        hide OnFinish, LogStep, Sound, LogSound;
      }
    }
  }

  lemma OwnSignal(s: State, a: Logs, k: Books, id: nat, sig: Signal)
    requires Agree(s, a) && Sound(s) && LogSound(a) && Admissible(s, id, sig) && Balanced(s, a, k)
    ensures OwnBalances(s, a, k, id, sig)
  {
    hide Agree, Sound, LogSound, Balanced, OwnBalances;
    match sig
    case RunStart(_, _, _) => OwnStart(s, a, k, id, sig);
    case RunEvent(_) => OwnEvent(s, a, k, id, sig);
    case RunFrame(_) => OwnFrame(s, a, k, id, sig);
    case RunPause => OwnPause(s, a, k, id, sig);
    case RunUnpause(_) => OwnUnpause(s, a, k, id, sig);
    case RunReject(_) => OwnReject(s, a, k, id, sig);
    case RunFinish(_, _, _, _, _, _) => OwnFinish(s, a, k, id, sig);
  }

  /** Every signal keeps the counters, the headers and the books in balance. */
  lemma StepBalances(s: State, a: Logs, k: Books, id: nat, sig: Signal)
    requires Agree(s, a) && Sound(s) && LogSound(a) && Admissible(s, id, sig) && Balanced(s, a, k)
    ensures Balanced(Step(s, id, sig), LogStep(s, a, id, sig), BooksStep(s, k, id, sig))
  {
    hide Agree, Sound, LogSound, Admissible, Step, LogStep, BooksStep, SlotBalances, FileBalances, Elsewhere;
    OwnSignal(s, a, k, id, sig);
    var t, b, now := Step(s, id, sig), LogStep(s, a, id, sig), BooksStep(s, k, id, sig);
    forall j: nat | j < SLOTS ensures SlotBalances(t.slots[j], b.slots[j], t.files, b.files, now) {
      if j != id { OtherSlotBalances(s, a, k, id, sig, j); }
    }
    forall p | p in t.files ensures p in b.files && FileBalances(t.files[p], b.files[p], LedgerOf(now, p)) {
      if Elsewhere(s, id, sig, p) { OtherFileBalances(s, a, k, id, sig, p); }
    }
  }

  // ---------------------------------------------------------------- whole histories

  ghost predicate BookedTake(s0: State, a0: Logs, k0: Books, i: Input, s: State, a: Logs, k: Books) {
    && TakesTo(s0, a0, i, s, a)
    && k == if i.Sent? then BooksStep(s0, k0, i.id, i.sig) else k0
  }

  lemma TakeBalances(s0: State, a0: Logs, k0: Books, i: Input, s: State, a: Logs, k: Books)
    requires BookedTake(s0, a0, k0, i, s, a, k) && Agree(s0, a0) && Balanced(s0, a0, k0)
    ensures Agree(s, a) && Balanced(s, a, k)
  {
    hide Agree, Sound, LogSound, Step, LogStep, BooksStep, FileBalances;
    TakeAgrees(s0, a0, i);
    if i.Sent? { StepBalances(s0, a0, k0, i.id, i.sig); }
  }

  /** A history, with the books of what was accepted and stamped in it. */
  ghost predicate Booked(inputs: seq<Input>, s: State, a: Logs, k: Books)
    decreases |inputs|
  {
    if inputs == [] then s == Booted() && a == NoLogs() && k == map[] else
      var i := inputs[|inputs| - 1];
      exists s0, a0, k0 :: Booked(inputs[..|inputs| - 1], s0, a0, k0) && BookedTake(s0, a0, k0, i, s, a, k)
  }

  /** Every history has its books. */
  lemma {:induction false} BooksOf(inputs: seq<Input>, s: State, a: Logs) returns (k: Books)
    requires Reached(inputs, s, a)
    ensures Booked(inputs, s, a, k)
    decreases |inputs|
  {
    hide Sound, LogSound, BooksStep, TakesTo;
    k := map[];
    if inputs != [] {
      var front, i := inputs[..|inputs| - 1], inputs[|inputs| - 1];
      var s0, a0 :| Reached(front, s0, a0) && TakesTo(s0, a0, i, s, a);
      var k0 := BooksOf(front, s0, a0);
      k := NextBooks(s0, a0, k0, i, s, a);
    }
  }

  lemma NextBooks(s0: State, a0: Logs, k0: Books, i: Input, s: State, a: Logs) returns (k: Books)
    requires TakesTo(s0, a0, i, s, a)
    ensures BookedTake(s0, a0, k0, i, s, a, k)
  {
    k := if i.Sent? then BooksStep(s0, k0, i.id, i.sig) else k0;
  }

  /** Event conservation, over every history, restarts included: of every file `ftell` can measure, an open slot's
      two counters, and the header counts, are the numbers of records in it less what the books say they miss. */
  lemma {:induction false} EveryHistoryBalances(inputs: seq<Input>, s: State, a: Logs, k: Books)
    requires Booked(inputs, s, a, k)
    ensures Reached(inputs, s, a) && Agree(s, a) && Sound(s) && LogSound(a) && Balanced(s, a, k)
    decreases |inputs|
  {
    hide Agree, Sound, LogSound, TakesTo, BooksStep;
    BootedAgrees();
    if inputs != [] {
      var front, i := inputs[..|inputs| - 1], inputs[|inputs| - 1];
      var s0, a0, k0 :| Booked(front, s0, a0, k0) && BookedTake(s0, a0, k0, i, s, a, k);
      EveryHistoryBalances(front, s0, a0, k0);
      TakeBalances(s0, a0, k0, i, s, a, k);
      EveryRunAgrees(inputs, s, a);
    }
  }

  predicate NoneMissed(missed: multiset<Byte>) {
    missed[KRP_EVENT_CHECKPOINT] == 0 && missed[KRP_EVENT_GOCHECK] == 0
  }

  lemma RightExactly(checkpoints: nat, gochecks: nat, missed: multiset<Byte>, log: seq<Callback>)
    requires BothShort(checkpoints, gochecks, missed, log)
    ensures Tally(checkpoints, gochecks, log) <==> NoneMissed(missed)
  {
    hide Count;
  }

  /** Exactly when an open slot's counters are right, after any history: no event of either kind was forgotten. */
  lemma CountersRightExactly(inputs: seq<Input>, s: State, a: Logs, k: Books, id: nat)
    requires Booked(inputs, s, a, k) && id < SLOTS && |s.slots| == SLOTS && Open(s, id)
    requires FileOf(s, id) in s.files && Measured(s.files[FileOf(s, id)])
    ensures FileOf(s, id) in a.files
    ensures Tally(s.slots[id].checkpoints, s.slots[id].gochecks, a.files[FileOf(s, id)]) <==>
            NoneMissed(LedgerOf(k, FileOf(s, id)).forgotten)
  {
    EveryHistoryBalances(inputs, s, a, k);
    hide Booked, Reached, Agree, Sound, LogSound, Balanced, Tally, NoneMissed, Decodes, LastFrame, BothShort;
    OpenSlot(s, a, id);
    OwnSlot(s, a, k, id);
    RightExactly(s.slots[id].checkpoints, s.slots[id].gochecks, LedgerOf(k, FileOf(s, id)).forgotten,
      a.files[FileOf(s, id)]);
  }

  /** UNPAUSE takes the counters from the header of the file it opens. */
  lemma UnpauseReads(s: State, id: nat, sig: Signal, p: Path)
    requires Sound(s) && Admissible(s, id, sig) && sig.RunUnpause? && p == Temp(MapName(s.header), sig.steamid)
    requires ValidSegment(sig.steamid) && ValidSegment(MapName(s.header)) && p in s.files && Measured(s.files[p])
    ensures var t := Step(s, id, sig);
      && Open(t, id) && FileOf(t, id) == p && |s.files[p]| >= HEADER_SIZE
      && t.slots[id].checkpoints == Field32(s.files[p], CHECKPOINTS_AT)
      && t.slots[id].gochecks == Field32(s.files[p], TELEPORTS_AT)
  {
    hide ValidSegment, MapName, Field32;
  }

  /** Exactly when UNPAUSE resumes a capture with the right counters, after any history: no event of either kind
      was accepted since its header was last stamped, and none was forgotten before. */
  lemma UnpauseCountsExactly(inputs: seq<Input>, s: State, a: Logs, k: Books, id: nat, sig: Signal)
    requires Booked(inputs, s, a, k) && Sound(s) && Admissible(s, id, sig) && sig.RunUnpause?
    requires ValidSegment(sig.steamid) && ValidSegment(MapName(s.header))
    requires var p := Temp(MapName(s.header), sig.steamid); p in s.files && Measured(s.files[p])
    ensures var p, t := Temp(MapName(s.header), sig.steamid), Step(s, id, sig);
      && p in a.files && Open(t, id) && FileOf(t, id) == p
      && (Tally(t.slots[id].checkpoints, t.slots[id].gochecks, a.files[p]) <==>
          NoneMissed(LedgerOf(k, p).forgotten + LedgerOf(k, p).session))
  {
    var p := Temp(MapName(s.header), sig.steamid);
    UnpauseReads(s, id, sig, p);
    hide Booked, Reached, Agree, Sound, Admissible, Balanced, Tally, NoneMissed, ValidSegment, MapName, BothShort,
      LogSound, Step;
    EveryHistoryBalances(inputs, s, a, k);
    FileAt(s, a, k, p);
    var l := LedgerOf(k, p);
    RightExactly(Field32(s.files[p], CHECKPOINTS_AT), Field32(s.files[p], TELEPORTS_AT), l.forgotten + l.session,
      a.files[p]);
  }

  /** An instance: REJECT keeps the file and stamps nothing, so UNPAUSE takes the counts START left in the header. */
  lemma RejectForgetsCounts(s: State, a: Logs, id: nat, steamid: Text)
    requires Agree(s, a) && Sound(s) && LogSound(a) && id < SLOTS && Open(s, id)
    requires ValidSegment(steamid) && ValidSegment(MapName(s.header))
    requires FileOf(s, id) == Temp(MapName(s.header), steamid)
    requires FileOf(s, id) in a.files && Field32(s.files[FileOf(s, id)], TELEPORTS_AT) == 0
    ensures Admissible(s, id, RunReject(false)) && Sound(Step(s, id, RunReject(false)))
    ensures Admissible(Step(s, id, RunReject(false)), id, RunUnpause(steamid))
    ensures var p, t := FileOf(s, id), Step(Step(s, id, RunReject(false)), id, RunUnpause(steamid));
      Open(t, id) && FileOf(t, id) == p && t.files == s.files && t.slots[id].gochecks == 0
  {
    hide Agree, ValidSegment, MapName, Field32;
  }

  // ---------------------------------------------------------------- what FINISH publishes

  /** FINISH publishes a capture exactly if both names are usable and `ftell` can measure it. */
  lemma PublishesExactly(s: State, id: nat, sig: Signal)
    requires Sound(s) && id < SLOTS && sig.RunFinish? && Open(s, id)
    ensures var f := s.files[FileOf(s, id)];
      FinishPath(s, id, sig).Some? <==>
        Measured(f) && ValidSegment(sig.steamid) && ValidSegment(CString(f[MAP_AT..MAP_AT + 63]))
  {
    hide FinalUid, Load, CString;
    assert !ValidSegment([]);
    hide ValidSegment;
  }

  /** What FINISH hands on, beside the file: one output under the file's name, a submission exactly if the run is to be
      submitted and its player is not banned, and in it the player, the map of the file, the time and the counters. */
  lemma FinishHandsOver(s: State, id: nat, sig: Signal)
    requires Sound(s) && Admissible(s, id, sig) && sig.RunFinish? && FinishPath(s, id, sig).Some?
    ensures Open(s, id) && FileOf(s, id) in s.files
    ensures var t, n, f := Step(s, id, sig), |s.out|, s.files[FileOf(s, id)];
      && |t.out| == n + 1 && t.out[..n] == s.out
      && FinishPath(s, id, sig).value == Final(t.out[n].uid)
      && (t.out[n].AddRecord? <==> sig.submit && !sig.noSubmit)
      && (t.out[n].AddRecord? ==>
           && t.out[n].steamid == Fitted(FullSteamid(sig.steamid), 35) && t.out[n].map_ == FileMap(f)
           && t.out[n].timeMs == sig.timeMs
           && t.out[n].checkpoints == s.slots[id].checkpoints && t.out[n].gochecks == s.slots[id].gochecks)
  {
    hide ValidSegment, FileMap, FinishHeader, FinalUid, FullSteamid, Load;
  }

  lemma FinishDigit(s: State, id: nat, sig: Signal)
    requires Sound(s) && Admissible(s, id, sig) && sig.RunFinish? && FinishPath(s, id, sig).Some?
    ensures Open(s, id) && Step(s, id, sig) == OnFinish(s, id, sig)
    ensures var dest := FinishPath(s, id, sig).value;
      sig.prefix == 0 && !sig.noSubmit ==>
        dest.Final? && dest.uid != [] && dest.uid[0] == ZERO + if s.slots[id].gochecks > 0 then 1 else 0
  {
    hide ValidSegment, FileMap, OnFinish, Base36, Load;
  }

  /** What FINISH publishes, after any history: header, submitted counts and, unless a prefix replaces it, the
      class digit of the name are those of the counters, which miss exactly what was forgotten. */
  lemma FinishPublishesCounters(inputs: seq<Input>, s: State, a: Logs, k: Books, id: nat, sig: Signal)
    requires Booked(inputs, s, a, k) && Sound(s) && LogSound(a)
    requires Admissible(s, id, sig) && sig.RunFinish? && Open(s, id) && FinishPath(s, id, sig).Some?
    ensures FileOf(s, id) in a.files && Measured(s.files[FileOf(s, id)])
    ensures var log, dest, l := a.files[FileOf(s, id)], FinishPath(s, id, sig).value, LedgerOf(k, FileOf(s, id));
      && dest in Step(s, id, sig).files && Measured(Step(s, id, sig).files[dest])
      && FileBalances(Step(s, id, sig).files[dest], log, l.(session := multiset{}))
      && BothShort(s.slots[id].checkpoints, s.slots[id].gochecks, l.forgotten, log)
      && (sig.prefix == 0 && !sig.noSubmit ==>
           && dest.Final? && dest.uid != []
           && dest.uid[0] == ZERO + if s.slots[id].gochecks > 0 then 1 else 0)
    ensures var t, n := Step(s, id, sig), |s.out|;
      && |t.out| == n + 1 && FinishPath(s, id, sig).value == Final(t.out[n].uid)
      && (t.out[n].AddRecord? ==>
           BothShort(t.out[n].checkpoints, t.out[n].gochecks, LedgerOf(k, FileOf(s, id)).forgotten,
             a.files[FileOf(s, id)]))
  {
    assert id < SLOTS;
    hide Booked, Reached, Agree, Sound, LogSound, Admissible, Balanced, Decodes, LastFrame, FinishHeader, FileBalances,
      BothShort, ValidSegment, FileMap, FinalUid, FinishPath;
    FinishHandsOver(s, id, sig);
    FinishDigit(s, id, sig);
    EveryHistoryBalances(inputs, s, a, k);
    OpenSlot(s, a, id);
    OwnSlot(s, a, k, id);
    PublishesExactly(s, id, sig);
    var p, slot := FileOf(s, id), s.slots[id];
    FinishedBalances(s.files[p], sig.nick, a.files[p], slot.checkpoints, slot.gochecks, LedgerOf(k, p));
    FinishShape(s, a, id, sig, FinishPath(s, id, sig).value, p);
  }

  lemma DigitExactly(counter: nat, missed: nat, log: seq<Callback>, e: Byte)
    requires Short(counter, missed, Count(log, e))
    ensures (counter > 0 <==> HasEvent(log, e)) <==> (HasEvent(log, e) ==> missed < Count(log, e))
    ensures missed == 0 ==> (counter > 0 <==> HasEvent(log, e))
  {
    CountPositive(log, e);
    hide Count, HasEvent;
  }

  /** Exactly when the class digit tells a run with gochecks from one without, after any history: not if the
      capture holds GOCHECK records and every one of them was forgotten. */
  lemma ClassDigitIsExact(inputs: seq<Input>, s: State, a: Logs, k: Books, id: nat, sig: Signal)
    requires Booked(inputs, s, a, k) && Sound(s) && LogSound(a)
    requires Admissible(s, id, sig) && sig.RunFinish? && Open(s, id) && FinishPath(s, id, sig).Some?
    requires sig.prefix == 0 && !sig.noSubmit
    ensures FileOf(s, id) in a.files
    ensures var log, dest, l := a.files[FileOf(s, id)], FinishPath(s, id, sig).value, LedgerOf(k, FileOf(s, id));
      && dest.Final? && dest.uid != []
      && (dest.uid[0] == ZERO + (if HasEvent(log, KRP_EVENT_GOCHECK) then 1 else 0) <==>
          (HasEvent(log, KRP_EVENT_GOCHECK) ==> l.forgotten[KRP_EVENT_GOCHECK] < Count(log, KRP_EVENT_GOCHECK)))
  {
    assert id < SLOTS;
    hide Booked, Admissible, Sound, LogSound, Step, FinishPath, FileBalances, Count, HasEvent;
    FinishPublishesCounters(inputs, s, a, k, id, sig);
    var l := LedgerOf(k, FileOf(s, id));
    DigitExactly(s.slots[id].gochecks, l.forgotten[KRP_EVENT_GOCHECK], a.files[FileOf(s, id)], KRP_EVENT_GOCHECK);
  }

  // ---------------------------------------------------------------- orderly histories

  /** UNPAUSE only resumes a capture to which nothing was added since its header was stamped, as after PAUSE. */
  predicate Orderly(s: State, k: Books, i: Input) {
    i.Sent? && i.sig.RunUnpause? && |s.header| >= HEADER_SIZE ==>
      var p := Temp(MapName(s.header), i.sig.steamid);
      p in s.files ==> LedgerOf(k, p).session == multiset{}
  }

  ghost predicate ReachedOrderly(inputs: seq<Input>, s: State, a: Logs, k: Books)
    decreases |inputs|
  {
    if inputs == [] then s == Booted() && a == NoLogs() && k == map[] else
      var i := inputs[|inputs| - 1];
      exists s0, a0, k0 ::
        && ReachedOrderly(inputs[..|inputs| - 1], s0, a0, k0)
        && BookedTake(s0, a0, k0, i, s, a, k) && Orderly(s0, k0, i)
  }

  predicate NothingForgotten(k: Books) {
    forall p | p in k :: k[p].forgotten == multiset{}
  }

  lemma OrderlyForgetsNothing(s: State, k: Books, id: nat, sig: Signal)
    requires Sound(s) && Admissible(s, id, sig) && NothingForgotten(k) && Orderly(s, k, Sent(id, sig))
    ensures NothingForgotten(BooksStep(s, k, id, sig))
  {
    hide ValidSegment, MapName, FinishPath;
  }

  /** Every open slot's counters and every stamped header are right, in files `ftell` can measure. */
  ghost predicate Conserved(s: State, a: Logs, k: Books) {
    && (forall id: nat | id < |s.slots| && Open(s, id) ::
      && FileOf(s, id) in s.files && FileOf(s, id) in a.files
      && (Measured(s.files[FileOf(s, id)]) ==>
        Tally(s.slots[id].checkpoints, s.slots[id].gochecks, a.files[FileOf(s, id)])))
    && forall p | p in s.files && LedgerOf(k, p).session == multiset{} && Measured(s.files[p]) ::
      p in a.files && HeaderTally(s.files[p], a.files[p])
  }

  lemma NothingShort(checkpoints: nat, gochecks: nat, missed: multiset<Byte>, log: seq<Callback>)
    requires BothShort(checkpoints, gochecks, missed, log) && missed == multiset{}
    ensures Tally(checkpoints, gochecks, log)
  {
    hide Count;
  }

  lemma BalancedIsConserved(s: State, a: Logs, k: Books)
    requires Agree(s, a) && Balanced(s, a, k) && NothingForgotten(k)
    ensures Conserved(s, a, k)
  {
    hide Agree, Balanced, Tally, BothShort, Decodes, LastFrame;
    SlotCount(s, a);
    forall id: nat | id < |s.slots| && Open(s, id)
      ensures FileOf(s, id) in s.files && FileOf(s, id) in a.files
      ensures Measured(s.files[FileOf(s, id)]) ==>
        Tally(s.slots[id].checkpoints, s.slots[id].gochecks, a.files[FileOf(s, id)])
    {
      OpenSlot(s, a, id);
      OwnSlot(s, a, k, id);
      if Measured(s.files[FileOf(s, id)]) {
        NothingShort(s.slots[id].checkpoints, s.slots[id].gochecks, LedgerOf(k, FileOf(s, id)).forgotten,
          a.files[FileOf(s, id)]);
      }
    }
    forall p | p in s.files && LedgerOf(k, p).session == multiset{} && Measured(s.files[p])
      ensures p in a.files && HeaderTally(s.files[p], a.files[p])
    {
      FileAt(s, a, k, p);
      NothingShort(Field32(s.files[p], CHECKPOINTS_AT), Field32(s.files[p], TELEPORTS_AT),
        LedgerOf(k, p).forgotten + LedgerOf(k, p).session, a.files[p]);
    }
  }

  lemma SlotCount(s: State, a: Logs)
    requires Agree(s, a)
    ensures |s.slots| == SLOTS
  {
    hide Decodes, SlotAgrees;
  }

  /** In an orderly history nothing is forgotten: of every capture `ftell` can measure, an open slot's counters
      are the numbers of CHECKPOINT and GOCHECK records in it, and so are the header counts of every file with
      nothing accepted since its stamp, as after PAUSE and FINISH. */
  lemma CountersAreConserved(inputs: seq<Input>, s: State, a: Logs, k: Books)
    requires ReachedOrderly(inputs, s, a, k)
    ensures Reached(inputs, s, a) && Agree(s, a) && Conserved(s, a, k)
  {
    hide ReachedOrderly, Booked, Reached, Agree, Sound, LogSound, Balanced, Conserved, NothingForgotten;
    OrderlyIsBooked(inputs, s, a, k);
    EveryHistoryBalances(inputs, s, a, k);
    BalancedIsConserved(s, a, k);
  }

  lemma {:induction false} OrderlyIsBooked(inputs: seq<Input>, s: State, a: Logs, k: Books)
    requires ReachedOrderly(inputs, s, a, k)
    ensures Booked(inputs, s, a, k) && NothingForgotten(k)
    decreases |inputs|
  {
    hide TakesTo, BooksStep, Orderly;
    if inputs != [] {
      var front, i := inputs[..|inputs| - 1], inputs[|inputs| - 1];
      var s0, a0, k0 :| ReachedOrderly(front, s0, a0, k0) && BookedTake(s0, a0, k0, i, s, a, k) && Orderly(s0, k0, i);
      OrderlyIsBooked(front, s0, a0, k0);
      if i.Sent? { SentForgetsNothing(s0, a0, k0, i, s, a, k); }
    }
  }

  lemma SentForgetsNothing(s0: State, a0: Logs, k0: Books, i: Input, s: State, a: Logs, k: Books)
    requires BookedTake(s0, a0, k0, i, s, a, k) && Orderly(s0, k0, i) && i.Sent? && NothingForgotten(k0)
    ensures NothingForgotten(k)
  {
    hide BooksStep, Orderly, NothingForgotten;
    OrderlyForgetsNothing(s0, k0, i.id, i.sig);
  }

  /** What FINISH publishes of an orderly run: the header of the final file and the submitted counts are the
      numbers of CHECKPOINT and GOCHECK records in it, and, unless a prefix replaces it, the class digit of the
      name is 1 exactly if the file holds a GOCHECK record. */
  lemma FinishPublishesCounts(inputs: seq<Input>, s: State, a: Logs, k: Books, id: nat, sig: Signal)
    requires ReachedOrderly(inputs, s, a, k) && Sound(s) && LogSound(a)
    requires Admissible(s, id, sig) && sig.RunFinish? && Open(s, id) && FinishPath(s, id, sig).Some?
    ensures FileOf(s, id) in a.files
    ensures var log, dest := a.files[FileOf(s, id)], FinishPath(s, id, sig).value;
      && dest in Step(s, id, sig).files && HeaderTally(Step(s, id, sig).files[dest], log)
      && Tally(s.slots[id].checkpoints, s.slots[id].gochecks, log)
      && (sig.prefix == 0 && !sig.noSubmit ==>
           && dest.Final? && dest.uid != []
           && dest.uid[0] == ZERO + if HasEvent(log, KRP_EVENT_GOCHECK) then 1 else 0)
    ensures var t, n := Step(s, id, sig), |s.out|;
      && |t.out| == n + 1 && FinishPath(s, id, sig).value == Final(t.out[n].uid)
      && (t.out[n].AddRecord? <==> sig.submit && !sig.noSubmit)
      && (t.out[n].AddRecord? ==> Tally(t.out[n].checkpoints, t.out[n].gochecks, a.files[FileOf(s, id)]))
  {
    FinishHandsOver(s, id, sig);
    assert id < SLOTS;
    hide ReachedOrderly, Booked, Admissible, Sound, LogSound, Step, FinishPath, BothShort, FileBalances, HeaderTally,
      Count, HasEvent;
    OrderlyIsBooked(inputs, s, a, k);
    FinishPublishesCounters(inputs, s, a, k, id, sig);
    var slot, p := s.slots[id], FileOf(s, id);
    var dest, l := FinishPath(s, id, sig).value, LedgerOf(k, p);
    NothingShort(slot.checkpoints, slot.gochecks, l.forgotten, a.files[p]);
    CountPositive(a.files[p], KRP_EVENT_GOCHECK);
    StampedIsRight(Step(s, id, sig).files[dest], a.files[p], l.(session := multiset{}));
  }

  lemma StampedIsRight(f: seq<Byte>, log: seq<Callback>, l: Ledger)
    requires FileBalances(f, log, l) && l == CLEAR && Measured(f)
    ensures HeaderTally(f, log)
  {
    hide BothShort, Tally, Field32;
    NothingShort(Field32(f, CHECKPOINTS_AT), Field32(f, TELEPORTS_AT), l.forgotten + l.session, log);
  }
}
