/** Histories of the writer whose replay is refused, or resumed with the wrong counters and misclassified. */
module CaptureWitnesses {
  import opened Options
  import opened Bytes
  import opened KrpFormat
  import opened KrpGrammar
  import opened KrpLayout
  import opened KrpCodec
  import opened ReplayNames
  import opened WriterSpec
  import opened WriterRuns
  import opened WriterCounts
  import opened WriterEffects
  import opened EndToEnd

  const MAP: Text := ['k' as int]
  const SID: Text := ['1' as int]
  const CAPTURE := Temp(MAP, SID)

  /** A header template for map "k". */
  function Template(): (h: seq<Byte>)
    ensures |h| == HEADER_SIZE
  {
    Store(KRP_MAGIC, 8) + Store(KRP_CURRENT_VERSION, 8) + Zeroes(67) + MAP + Zeroes(172)
  }

  lemma NamesAreUsable()
    ensures ValidSegment(MAP) && ValidSegment(SID)
  {
  }

  lemma TemplateParts()
    ensures var h := Template();
      && h[0..8] == Store(KRP_MAGIC, 8) && h[8..16] == Store(KRP_CURRENT_VERSION, 8)
      && h[SIZE_TYPES_AT..RESERVED_AT] == Zeroes(16) && h[CHECKPOINTS_AT..TIMESTAMP_AT] == Zeroes(8)
      && h[MAP_AT] == MAP[0] && h[MAP_AT + 1] == 0
  {
    hide Store;
  }

  lemma TemplateIsReady()
    ensures CaptureHeader(Template()) && TemplateReady(Template())
  {
    TemplateParts();
    Pow2Of64();
    LoadStore(KRP_MAGIC, 8);
    LoadStore(KRP_CURRENT_VERSION, 8);
    hide Template, Load, Store, Zeroes, Pow2, ValidSegment, MapName;
  }

  /** The map name is the text up to the first zero. */
  lemma NamedK(s: seq<Byte>)
    requires |s| >= 2 && s[0] == MAP[0] && s[1] == 0
    ensures CString(s) == MAP
  {
    assert CString(s) == [s[0]] + CString(s[1..]);
  }

  lemma TemplateMap()
    ensures MapName(Template()) == MAP
  {
    TemplateParts();
    hide Template;
    NamedK(Template()[MAP_AT..CHECKPOINTS_AT - 4]);
  }

  lemma StartKeepsMap(h: seq<Byte>, ts: nat, steamid: Text, nick: Text)
    requires |h| == HEADER_SIZE
    ensures StartHeader(h, ts, steamid, nick)[MAP_AT..MAP_AT + 63] == h[MAP_AT..MAP_AT + 63]
  {
    hide FullSteamid, WriteAt, Store;
    var h1 := WriteAt(h, TIMESTAMP_AT, Store(ts, 8));
    PatchKeeps(h, TIMESTAMP_AT, Store(ts, 8), MAP_AT, MAP_AT + 63);
    var n := (if |nick| < 32 then nick else nick[..31]) + [0];
    PatchKeeps(h1, NAME_AT, n, MAP_AT, MAP_AT + 63);
    var t := FullSteamid(steamid);
    PatchKeeps(WriteAt(h1, NAME_AT, n), STEAMID_AT, (if |t| < 35 then t else t[..34]) + [0], MAP_AT, MAP_AT + 63);
  }

  lemma StartedMap(ts: nat, steamid: Text, nick: Text)
    ensures FileMap(StartHeader(Template(), ts, steamid, nick)) == MAP
  {
    TemplateParts();
    hide Template, StartHeader, CString;
    StartKeepsMap(Template(), ts, steamid, nick);
    var m := Template()[MAP_AT..MAP_AT + 63];
    assert m[0] == Template()[MAP_AT] && m[1] == Template()[MAP_AT + 1];
    NamedK(m);
  }

  // ---------------------------------------------------------------- a capture under way

  lemma OrderlyNext(inputs: seq<Input>, s: State, a: Logs, k: Books, i: Input) returns (k': Books)
    requires ReachedOrderly(inputs, s, a, k) && Sound(s) && LogSound(a) && CanTake(s, i) && Orderly(s, k, i)
    ensures ReachedOrderly(inputs + [i], Take(s, i), LogTake(s, a, i), k')
  {
    hide Sound, LogSound, CanTake, Take, LogTake, Orderly, BooksStep;
    k' := NextBooks(s, a, k, i, Take(s, i), LogTake(s, a, i));
    var all := inputs + [i];
    assert all[..|all| - 1] == inputs && all[|all| - 1] == i;
  }

  /** Slot 0 records run "1" on map "k", and `log` is what was accepted for it, `counter` frames among it. */
  predicate Recording(s: State, a: Logs, log: seq<Callback>, counter: nat, size: nat) {
    && |s.slots| == SLOTS && Open(s, 0) && FileOf(s, 0) == CAPTURE && s.slots[0].counter == counter
    && CAPTURE in s.files && CAPTURE in a.files && a.files[CAPTURE] == log
    && HEADER_SIZE <= |s.files[CAPTURE]| <= size && FileMap(s.files[CAPTURE]) == MAP
    && s.header == Template() && NoCounts(s.files[CAPTURE])
  }

  lemma Agreeing(inputs: seq<Input>, s: State, a: Logs, k: Books)
    requires ReachedOrderly(inputs, s, a, k)
    ensures Reached(inputs, s, a) && Agree(s, a) && Sound(s) && LogSound(a)
  {
    hide ReachedOrderly, Booked, Reached, Agree, Sound, LogSound, Balanced, NothingForgotten;
    OrderlyIsBooked(inputs, s, a, k);
    EveryHistoryBalances(inputs, s, a, k);
  }

  function StartInputs(): seq<Input> {
    [MapChanged(Template()), Sent(0, RunStart(0, SID, []))]
  }

  lemma BootedWithMap() returns (s: State, a: Logs, k: Books)
    ensures ReachedOrderly([MapChanged(Template())], s, a, k)
    ensures s == Booted().(header := Template()) && a == NoLogs()
  {
    BootedAgrees();
    TemplateIsReady();
    hide Sound, LogSound, TemplateReady;
    k := OrderlyNext([], Booted(), NoLogs(), map[], MapChanged(Template()));
    s, a := Booted().(header := Template()), NoLogs();
    assert [] + [MapChanged(Template())] == [MapChanged(Template())];
  }

  lemma StartTakes(s: State, a: Logs)
    requires Sound(s) && LogSound(a) && s == Booted().(header := Template())
    ensures var i := Sent(0, RunStart(0, SID, []));
      CanTake(s, i) && Recording(Take(s, i), LogTake(s, a, i), [], 0, HEADER_SIZE)
  {
    TemplateMap();
    NamesAreUsable();
    StartedMap(0, SID, []);
    TemplateParts();
    StartedCounts(Template(), 0, SID, []);
    hide Template, MapName, FileMap, ValidSegment, StartHeader, NoCounts, Sound, LogSound, FullSteamid, Step, LogStep;
    StartAdmissible(s, a);
    StartOpens(s, 0, RunStart(0, SID, []));
  }

  lemma StartAdmissible(s: State, a: Logs)
    requires Sound(s) && LogSound(a) && s == Booted().(header := Template()) && ValidSegment(MAP) && ValidSegment(SID)
    requires MapName(s.header) == MAP
    ensures var sig := RunStart(0, SID, []);
      && Admissible(s, 0, sig) && Step(s, 0, sig).header == Template()
      && CAPTURE in LogStep(s, a, 0, sig).files && LogStep(s, a, 0, sig).files[CAPTURE] == []
  {
    hide Template, MapName, ValidSegment, StartHeader;
  }

  lemma Started() returns (s: State, a: Logs, k: Books)
    ensures ReachedOrderly(StartInputs(), s, a, k) && Recording(s, a, [], 0, HEADER_SIZE)
  {
    hide ReachedOrderly, Recording, Template, Agree, Sound, LogSound, Reached, Take, LogTake, Booted, NoLogs;
    var s0, a0, k0 := BootedWithMap();
    Agreeing([MapChanged(Template())], s0, a0, k0);
    var i := Sent(0, RunStart(0, SID, []));
    StartTakes(s0, a0);
    k := OrderlyNext([MapChanged(Template())], s0, a0, k0, i);
    s, a := Take(s0, i), LogTake(s0, a0, i);
    assert [MapChanged(Template())] + [i] == StartInputs();
  }

  /** Appending keeps the header's map name and counts. */
  lemma AppendKeepsFields(f: seq<Byte>, e: seq<Byte>)
    requires |f| >= HEADER_SIZE && |f| + |e| < LONG_LIMIT
    ensures |WriteAt(f, |f|, e)| == |f| + |e| && FileMap(WriteAt(f, |f|, e)) == FileMap(f)
    ensures NoCounts(f) ==> NoCounts(WriteAt(f, |f|, e))
  {
    var g := WriteAt(f, |f|, e);
    assert g[..|f|] == f;
    assert g[MAP_AT..MAP_AT + 63] == f[MAP_AT..MAP_AT + 63];
    assert g[CHECKPOINTS_AT..TIMESTAMP_AT] == f[CHECKPOINTS_AT..TIMESTAMP_AT];
  }

  /** A record is appended and logged. */
  lemma AppendRecords(s: State, a: Logs, log: seq<Callback>, counter: nat, size: nat, e: seq<Byte>, slot: Slot,
                      t: State, b: Logs, log': seq<Callback>, size': nat)
    requires Recording(s, a, log, counter, size) && size + |e| <= size' < LONG_LIMIT
    requires t.files == s.files[CAPTURE := WriteAt(s.files[CAPTURE], |s.files[CAPTURE]|, e)]
    requires t.slots == s.slots[0 := slot] && t.header == s.header && b.files == a.files[CAPTURE := log']
    requires slot.fd.Some? && slot.fd.value.path == CAPTURE
    ensures Recording(t, b, log', slot.counter, size')
  {
    hide FileMap, NoCounts, Template, WriteAt;
    AppendKeepsFields(s.files[CAPTURE], e);
  }

  lemma RecordingFacts(s: State, a: Logs, log: seq<Callback>, counter: nat, size: nat)
    requires Recording(s, a, log, counter, size)
    ensures |s.slots| == SLOTS && Open(s, 0) && FileOf(s, 0) == CAPTURE && s.slots[0].counter == counter
    ensures CAPTURE in s.files && CAPTURE in a.files && a.files[CAPTURE] == log
  {
    hide FileMap, NoCounts, Template;
  }

  /** Events and whole frames for slot 0 are always admissible, and do what their case of the step says. */
  lemma EventStep(s: State, a: Logs, e: Byte)
    requires Sound(s) && LogSound(a)
    ensures var i := Sent(0, RunEvent(e));
      && Admissible(s, 0, i.sig) && CanTake(s, i)
      && Take(s, i) == OnEventSignal(s, 0, e) && LogTake(s, a, i) == LogStep(s, a, 0, i.sig)
  {
    hide OnEventSignal, LogStep, MapName;
  }

  lemma FrameStep(s: State, a: Logs, frame: seq<Byte>)
    requires Sound(s) && LogSound(a) && |frame| == FRAME_SIZE
    ensures var i := Sent(0, RunFrame(frame));
      && Admissible(s, 0, i.sig) && CanTake(s, i)
      && Take(s, i) == OnFrameSignal(s, 0, frame) && LogTake(s, a, i) == LogStep(s, a, 0, i.sig)
  {
    hide OnFrameSignal, LogStep, MapName;
  }

  lemma EventTakes(s: State, a: Logs, log: seq<Callback>, counter: nat, size: nat, e: Byte)
    requires Agree(s, a) && Sound(s) && LogSound(a) && Recording(s, a, log, counter, size) && size + 2 < LONG_LIMIT
    ensures var i := Sent(0, RunEvent(e));
      CanTake(s, i) && Recording(Take(s, i), LogTake(s, a, i), WithEvent(log, e), counter, size + 2)
  {
    hide Recording, Agree, Sound, LogSound, Admissible, CanTake, Take, LogTake, WriteAt, WithEvent, Decodes, LastFrame,
      OnEventSignal, LogStep, Encode;
    RecordingFacts(s, a, log, counter, size);
    EventStep(s, a, e);
    OpenSlot(s, a, 0);
    EventShape(s, a, 0, RunEvent(e), CAPTURE);
    EventSize(e);
    var bytes := Encode(KrpFormat.Event(e));
    var slot := CountEvent(Moved(s.slots[0], |s.files[CAPTURE]| + |bytes|), e);
    AppendRecords(s, a, log, counter, size, bytes, slot, OnEventSignal(s, 0, e), LogStep(s, a, 0, RunEvent(e)),
                  WithEvent(log, e), size + 2);
  }

  lemma EventSize(e: Byte)
    ensures |Encode(KrpFormat.Event(e))| == 2
  {
  }

  lemma EventRecorded(inputs: seq<Input>, s: State, a: Logs, k: Books, log: seq<Callback>, counter: nat, size: nat,
      e: Byte)
    returns (t: State, b: Logs, k': Books)
    requires ReachedOrderly(inputs, s, a, k) && Recording(s, a, log, counter, size) && size + 2 < LONG_LIMIT
    ensures ReachedOrderly(inputs + [Sent(0, RunEvent(e))], t, b, k')
    ensures Recording(t, b, WithEvent(log, e), counter, size + 2)
  {
    hide ReachedOrderly, Recording, Agree, Sound, LogSound, Reached, Take, LogTake, CanTake, WithEvent;
    Agreeing(inputs, s, a, k);
    EventTakes(s, a, log, counter, size, e);
    var i := Sent(0, RunEvent(e));
    k' := OrderlyNext(inputs, s, a, k, i);
    t, b := Take(s, i), LogTake(s, a, i);
  }

  lemma FrameSize(slot: Slot, frame: seq<Byte>)
    requires |slot.last| == |frame| == FRAME_SIZE
    ensures |Encode(FrameRecord(slot, frame))| <= 1 + MASK_SIZE + FRAME_SIZE
  {
    var r := FrameRecord(slot, frame);
    CellsBound(r.mask, r.vals, FRAME_SIZE);
  }

  lemma {:induction false} CellsBound(mask: seq<Byte>, vals: seq<Byte>, n: nat)
    requires |mask| == MASK_SIZE && n <= FRAME_SIZE && |vals| == FRAME_SIZE
    ensures |Cells(mask, vals, n)| <= n
  {
    if n > 0 { CellsBound(mask, vals, n - 1); }
  }

  lemma FrameTakes(s: State, a: Logs, log: seq<Callback>, counter: nat, size: nat, frame: seq<Byte>)
    requires Agree(s, a) && Sound(s) && LogSound(a) && Recording(s, a, log, counter, size)
    requires |frame| == FRAME_SIZE && size + 129 < LONG_LIMIT
    ensures var i := Sent(0, RunFrame(frame));
      && CanTake(s, i)
      && Recording(Take(s, i), LogTake(s, a, i), WithFrame(log, counter, frame), (counter + 1) % U32, size + 129)
  {
    hide Recording, Agree, Sound, LogSound, Admissible, CanTake, Take, LogTake, WriteAt, WithFrame, Decodes, LastFrame,
      OnFrameSignal, LogStep, Encode, FrameRecord;
    RecordingFacts(s, a, log, counter, size);
    FrameStep(s, a, frame);
    OpenSlot(s, a, 0);
    FrameShape(s, a, 0, RunFrame(frame), CAPTURE);
    FrameSize(s.slots[0], frame);
    var bytes := Encode(FrameRecord(s.slots[0], frame));
    var slot := Moved(s.slots[0], |s.files[CAPTURE]| + |bytes|).(last := frame, counter := (counter + 1) % U32);
    AppendRecords(s, a, log, counter, size, bytes, slot, OnFrameSignal(s, 0, frame), LogStep(s, a, 0, RunFrame(frame)),
                  WithFrame(log, counter, frame), size + 129);
  }

  lemma FrameRecorded(inputs: seq<Input>, s: State, a: Logs, k: Books, log: seq<Callback>, counter: nat, size: nat,
      frame: seq<Byte>)
    returns (t: State, b: Logs, k': Books)
    requires ReachedOrderly(inputs, s, a, k) && Recording(s, a, log, counter, size)
    requires |frame| == FRAME_SIZE && size + 129 < LONG_LIMIT
    ensures ReachedOrderly(inputs + [Sent(0, RunFrame(frame))], t, b, k')
    ensures Recording(t, b, WithFrame(log, counter, frame), (counter + 1) % U32, size + 129)
  {
    hide ReachedOrderly, Recording, Agree, Sound, LogSound, Reached, Take, LogTake, CanTake, WithFrame;
    Agreeing(inputs, s, a, k);
    FrameTakes(s, a, log, counter, size, frame);
    var i := Sent(0, RunFrame(frame));
    k' := OrderlyNext(inputs, s, a, k, i);
    t, b := Take(s, i), LogTake(s, a, i);
  }

  // ---------------------------------------------------------------- the capture is finished

  const FINISH: Signal := RunFinish(0, true, 0, SID, [], false)

  lemma DigitOfUid(slot: Slot, ts: nat)
    ensures var uid := FinalUid(slot, FINISH, ts); uid != [] && uid[0] == ZERO + if slot.gochecks > 0 then 1 else 0
  {
    hide Base36, Decimal8;
  }

  /** FINISH gives the file of the recording its final name. */
  lemma FinishTakes(s: State, a: Logs, log: seq<Callback>, counter: nat, size: nat) returns (dest: Path)
    requires Agree(s, a) && Sound(s) && LogSound(a) && Recording(s, a, log, counter, size)
    ensures Admissible(s, 0, FINISH) && FinishPath(s, 0, FINISH) == Some(dest) && dest.Final?
    ensures var t, b := Step(s, 0, FINISH), LogStep(s, a, 0, FINISH);
      dest in t.files && dest in b.files && b.files[dest] == log && |t.files[dest]| <= size
    ensures |s.slots| == SLOTS && dest.uid != [] && dest.uid[0] == ZERO + if s.slots[0].gochecks > 0 then 1 else 0
  {
    NamesAreUsable();
    hide Agree, FileMap, NoCounts, Template, ValidSegment, FinalUid, FinishHeader, Decodes, LastFrame, Load;
    OpenSlot(s, a, 0);
    dest := FinishPath(s, 0, FINISH).value;
    DigitOfUid(s.slots[0], Load(s.files[CAPTURE][TIMESTAMP_AT..TIMESTAMP_AT + 8]));
    FinishShape(s, a, 0, FINISH, dest, CAPTURE);
  }

  lemma Finished(inputs: seq<Input>, s: State, a: Logs, k: Books, log: seq<Callback>, counter: nat, size: nat)
    returns (t: State, b: Logs, k': Books, dest: Path)
    requires ReachedOrderly(inputs, s, a, k) && Recording(s, a, log, counter, size)
    ensures Sound(s) && LogSound(a) && Admissible(s, 0, FINISH) && t == Step(s, 0, FINISH)
    ensures ReachedOrderly(inputs + [Sent(0, FINISH)], t, b, k')
    ensures FinishPath(s, 0, FINISH) == Some(dest) && dest.Final?
    ensures dest in t.files && dest in b.files && b.files[dest] == log && |t.files[dest]| <= size
  {
    hide ReachedOrderly, Recording, Agree, Sound, LogSound, Reached, FinishPath, Admissible, Step, LogStep;
    Agreeing(inputs, s, a, k);
    dest := FinishTakes(s, a, log, counter, size);
    k' := OrderlyNext(inputs, s, a, k, Sent(0, FINISH));
    t, b := Step(s, 0, FINISH), LogStep(s, a, 0, FINISH);
  }

  // ---------------------------------------------------------------- an event before the first frame

  lemma RefusedWithoutFrame(f: seq<Byte>, log: seq<Callback>, z: Zstd, level: int, krpz: seq<Byte>, err: Error,
      played: seq<Callback>)
    requires Decodes(f, log) && log != [] && log[0].OnEvent? && |f| <= KRP_MAX_DECOMPRESSED_BYTES
    requires Lossless(z) && Compresses(z, f, level, Ok, krpz) && Plays(z, krpz, err, played)
    ensures err == FirstFrameNotKeyframe
  {
    hide Decodes, Lossless, Compresses, Plays, Splits, LeadingKeyframe, ZeroSizes, Replay, ValidateHeader;
    var rs := DecodedRecords(f, log);
    CompressionPlaysBack(z, f, level, krpz, rs, err, played);
  }

  function EventFirstInputs(frame: seq<Byte>): seq<Input> {
    StartInputs() + [Sent(0, RunEvent(KRP_EVENT_CHECKPOINT))] + [Sent(0, RunFrame(frame))] + [Sent(0, FINISH)]
  }

  lemma EventThenFrame(frame: seq<Byte>)
    requires |frame| == FRAME_SIZE
    ensures WithFrame(WithEvent([], KRP_EVENT_CHECKPOINT), 0, frame) ==
      [OnEvent(0, KRP_EVENT_CHECKPOINT), OnFrame(1, FRAMETYPE_KEYFRAME, frame)]
  {
  }

  lemma EventFirst(frame: seq<Byte>) returns (s: State, a: Logs, p: Path)
    requires |frame| == FRAME_SIZE
    ensures Reached(EventFirstInputs(frame), s, a) && p.Final? && p in s.files && p in a.files
    ensures a.files[p] == [OnEvent(0, KRP_EVENT_CHECKPOINT), OnFrame(1, FRAMETYPE_KEYFRAME, frame)]
    ensures |s.files[p]| <= 1000
  {
    hide ReachedOrderly, Recording, Agree, Sound, LogSound, Reached, Admissible, Step, FinishPath, WithEvent,
        WithFrame, Template;
    var s0, a0, k0 := Started();
    var s1, a1, k1 := EventRecorded(StartInputs(), s0, a0, k0, [], 0, HEADER_SIZE, KRP_EVENT_CHECKPOINT);
    var h1 := StartInputs() + [Sent(0, RunEvent(KRP_EVENT_CHECKPOINT))];
    var log := WithEvent([], KRP_EVENT_CHECKPOINT);
    var s2, a2, k2 := FrameRecorded(h1, s1, a1, k1, log, 0, HEADER_SIZE + 2, frame);
    var k;
    s, a, k, p := Finished(h1 + [Sent(0, RunFrame(frame))], s2, a2, k2, WithFrame(log, 0, frame), 1, HEADER_SIZE + 131);
    EventThenFrame(frame);
    Agreeing(EventFirstInputs(frame), s, a, k);
  }

  /** START, EVENT, FRAME, FINISH: a finished replay of the writer that no playback accepts, whatever zstd does. */
  lemma EventFirstIsRefused(frame: seq<Byte>) returns (s: State, a: Logs, p: Path)
    requires |frame| == FRAME_SIZE
    ensures Reached(EventFirstInputs(frame), s, a) && p.Final? && p in s.files && p in a.files
    ensures a.files[p] == [OnEvent(0, KRP_EVENT_CHECKPOINT), OnFrame(1, FRAMETYPE_KEYFRAME, frame)]
    ensures forall z, level, krpz, err, played ::
      Lossless(z) && Compresses(z, s.files[p], level, Ok, krpz) && Plays(z, krpz, err, played) ==>
        err == FirstFrameNotKeyframe
  {
    s, a, p := EventFirst(frame);
    hide Reached, Agree, Sound, LogSound, Decodes, Lossless, Compresses, Plays;
    EveryRunAgrees(EventFirstInputs(frame), s, a);
    FileDecodes(s, a, p);
    forall z, level, krpz, err, played | Lossless(z) && Compresses(z, s.files[p], level, Ok, krpz) &&
      Plays(z, krpz, err, played)
      ensures err == FirstFrameNotKeyframe
    {
      RefusedWithoutFrame(s.files[p], a.files[p], z, level, krpz, err, played);
    }
  }

  // ---------------------------------------------------------------- a rejected capture resumed

  function GocheckInputs(n: nat): seq<Input> {
    if n == 0 then StartInputs() else GocheckInputs(n - 1) + [Sent(0, RunEvent(KRP_EVENT_GOCHECK))]
  }

  function Gochecks(n: nat): (log: seq<Callback>)
    ensures |log| == n
  {
    seq(n, i requires 0 <= i < n => OnEvent(i, KRP_EVENT_GOCHECK))
  }

  lemma OneMoreGocheck(n: nat)
    ensures WithEvent(Gochecks(n), KRP_EVENT_GOCHECK) == Gochecks(n + 1)
  {
  }

  /** START and any number of gochecks. */
  lemma {:induction false} GochecksRecorded(n: nat) returns (s: State, a: Logs, k: Books)
    requires HEADER_SIZE + 2 * n < LONG_LIMIT
    ensures ReachedOrderly(GocheckInputs(n), s, a, k) && Recording(s, a, Gochecks(n), 0, HEADER_SIZE + 2 * n)
  {
    hide ReachedOrderly, Recording, WithEvent, Template, StartInputs;
    if n == 0 {
      s, a, k := Started();
    } else {
      var s0, a0, k0 := GochecksRecorded(n - 1);
      s, a, k := EventRecorded(GocheckInputs(n - 1), s0, a0, k0, Gochecks(n - 1), 0, HEADER_SIZE + 2 * (n - 1),
        KRP_EVENT_GOCHECK);
      OneMoreGocheck(n - 1);
    }
  }

  lemma NoGochecks(f: seq<Byte>)
    requires NoCounts(f) && Measured(f)
    ensures Field32(f, TELEPORTS_AT) == 0
  {
    NoCountsBalance(f);
    hide Field32;
  }

  function ResumedInputs(n: nat): seq<Input> {
    GocheckInputs(n) + [Sent(0, RunReject(false))] + [Sent(0, RunUnpause(SID))]
  }

  lemma RejectTakes(s: State, a: Logs, log: seq<Callback>, size: nat)
    requires Agree(s, a) && Sound(s) && LogSound(a) && Recording(s, a, log, 0, size)
    ensures var i := Sent(0, RunReject(false));
      && CanTake(s, i) && Take(s, i) == OnReject(s, 0, false) && LogTake(s, a, i) == LogClose(a, 0)
  {
    hide Agree, Template, FileMap, NoCounts;
  }

  lemma ResumeTakes(s: State, a: Logs, log: seq<Callback>, size: nat)
    requires Agree(s, a) && Sound(s) && LogSound(a) && Recording(s, a, log, 0, size) && size < LONG_LIMIT
    requires Sound(OnReject(s, 0, false)) && LogSound(LogClose(a, 0))
    ensures var i, s1, a1 := Sent(0, RunUnpause(SID)), OnReject(s, 0, false), LogClose(a, 0);
      && CanTake(s1, i) && Recording(Take(s1, i), LogTake(s1, a1, i), log, 0, size)
      && Take(s1, i).slots[0].gochecks == 0
  {
    hide Agree, Sound, LogSound, Template, FileMap, NoCounts, MapName, ValidSegment, Field32, Step, LogStep, OnReject,
      Admissible;
    NamesAreUsable();
    TemplateMap();
    NoGochecks(s.files[CAPTURE]);
    RejectForgetsCounts(s, a, 0, SID);
    RejectStep(s);
    ResumeSteps(s, a);
  }

  lemma RejectStep(s: State)
    requires Sound(s) && Admissible(s, 0, RunReject(false))
    ensures Step(s, 0, RunReject(false)) == OnReject(s, 0, false)
  {
  }

  lemma ResumeSteps(s: State, a: Logs)
    requires Sound(s) && LogSound(a) && Sound(OnReject(s, 0, false)) && LogSound(LogClose(a, 0))
    requires Admissible(OnReject(s, 0, false), 0, RunUnpause(SID))
    ensures OnReject(s, 0, false).header == s.header
    ensures var i, s1, a1 := RunUnpause(SID), OnReject(s, 0, false), LogClose(a, 0);
      && Step(s1, 0, i).header == s.header && LogStep(s1, a1, 0, i).files == a.files
      && |Step(s1, 0, i).slots| == SLOTS && (Open(Step(s1, 0, i), 0) ==> Step(s1, 0, i).slots[0].counter == 0)
  {
    hide Sound, LogSound, MapName, ValidSegment, Field32;
    assert Sound(s) ==> |s.slots| == SLOTS && |s.header| == HEADER_SIZE by { SizesOf(s); }
    SizesOf(OnReject(s, 0, false));
  }

  lemma SizesOf(s: State)
    ensures Sound(s) ==> |s.slots| == SLOTS && |s.header| == HEADER_SIZE
  {
  }

  /** START, `n` GOCHECKs, REJECT without deletion, UNPAUSE: the counter is 0 and the file holds `n` gochecks. */
  lemma RejectedCaptureMiscounts(n: nat) returns (s: State, a: Logs)
    requires HEADER_SIZE + 2 * n < LONG_LIMIT
    ensures Reached(ResumedInputs(n), s, a) && Recording(s, a, Gochecks(n), 0, HEADER_SIZE + 2 * n)
    ensures s.slots[0].gochecks == 0
  {
    var s0, a0, k0 := GochecksRecorded(n);
    hide ReachedOrderly, Agree, Reached, Sound, LogSound, Recording, CanTake, Take, LogTake, OnReject, GocheckInputs;
    var size := HEADER_SIZE + 2 * n;
    var h, i, j := GocheckInputs(n), Sent(0, RunReject(false)), Sent(0, RunUnpause(SID));
    Agreeing(h, s0, a0, k0);
    RejectTakes(s0, a0, Gochecks(n), size);
    ReachedNext(h, s0, a0, i);
    var s1, a1 := Take(s0, i), LogTake(s0, a0, i);
    EveryRunAgrees(h + [i], s1, a1);
    ResumeTakes(s0, a0, Gochecks(n), size);
    ReachedNext(h + [i], s1, a1, j);
    s, a := Take(s1, j), LogTake(s1, a1, j);
  }

  /** And FINISH then names a run with gochecks one without. */
  lemma ForgottenGochecksMisclassify(n: nat) returns (s: State, a: Logs, p: Path)
    requires 0 < n && HEADER_SIZE + 2 * n < LONG_LIMIT
    ensures Reached(ResumedInputs(n) + [Sent(0, FINISH)], s, a) && p.Final? && p in s.files && p in a.files
    ensures p.uid != [] && p.uid[0] == ZERO && a.files[p] == Gochecks(n) && HasEvent(a.files[p], KRP_EVENT_GOCHECK)
  {
    var s0, a0 := RejectedCaptureMiscounts(n);
    hide Agree, Reached, Sound, LogSound, Recording, ResumedInputs, Step, LogStep, FinishPath, Admissible;
    EveryRunAgrees(ResumedInputs(n), s0, a0);
    p := FinishTakes(s0, a0, Gochecks(n), 0, HEADER_SIZE + 2 * n);
    ReachedNext(ResumedInputs(n), s0, a0, Sent(0, FINISH));
    s, a := Step(s0, 0, FINISH), LogStep(s0, a0, 0, FINISH);
    assert a.files[p][0] == OnEvent(0, KRP_EVENT_GOCHECK);
  }
}
