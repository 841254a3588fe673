/** Every run of the writer, seen through a reader: whatever signals arrive, each file it has written
    decodes to exactly the frames and events that were accepted for it. */
module WriterRuns {
  import opened Options
  import opened Bytes
  import opened KrpFormat
  import opened KrpGrammar
  import opened KrpDelta
  import opened ReplayNames
  import opened WriterSpec

  // ---------------------------------------------------------------- the log machine

  /** The file a slot records into, and its frame counter. */
  datatype LogSlot = LogSlot(path: Option<Path>, counter: nat)

  /** The same state without bytes: each file is the list of what was accepted for it. */
  datatype Logs = Logs(files: map<Path, seq<Callback>>, slots: seq<LogSlot>)

  function LogClose(a: Logs, id: nat): Logs
    requires id < |a.slots|
  {
    a.(slots := a.slots[id := a.slots[id].(path := None)])
  }

  function LogAppend(a: Logs, p: Path, call: Callback): Logs
    requires p in a.files
  {
    a.(files := a.files[p := a.files[p] + [call]])
  }

  predicate LogSound(a: Logs) {
    |a.slots| == SLOTS && forall id: nat | id < SLOTS && a.slots[id].path.Some? :: a.slots[id].path.value in a.files
  }

  /** What a signal adds to the logs. Frames arrive whole; only the names of files are taken from the
      byte-level state `s`. */
  function LogStep(s: State, a: Logs, id: nat, sig: Signal): Logs
    requires Sound(s) && Admissible(s, id, sig) && LogSound(a)
  {
    var me := a.slots[id];
    match sig
    case RunStart(_, steamid, _) =>
      if !ValidSegment(steamid) || !ValidSegment(MapName(s.header)) then LogClose(a, id)
      else
        var p := Temp(MapName(s.header), steamid);
        Logs(a.files[p := []], a.slots[id := LogSlot(Some(p), 0)])
    case RunEvent(e) =>
      if me.path.None? then a
      else LogAppend(a, me.path.value, OnEvent(|a.files[me.path.value]|, e))
    case RunFrame(f) =>
      if me.path.None? then a
      else
        var kind := if me.counter == 0 then FRAMETYPE_KEYFRAME else FRAMETYPE_DELTA;
        LogAppend(a, me.path.value, OnFrame(|a.files[me.path.value]|, kind, f))
        .(slots := a.slots[id := me.(counter := (me.counter + 1) % U32)])
    case RunPause => LogClose(a, id)
    case RunUnpause(steamid) =>
      if !ValidSegment(steamid) || !ValidSegment(MapName(s.header)) then a
      else
        var p := Temp(MapName(s.header), steamid);
        a.(slots := a.slots[id := LogSlot(if p in a.files then Some(p) else None, 0)])
    case RunReject(deleteFile) =>
      var b := LogClose(a, id);
      if me.path.Some? && deleteFile then b.(files := b.files - {me.path.value}) else b
    case RunFinish(_, _, _, _, _, _) =>
      if me.path.None? then a
      else
        var b := LogClose(a, id);
        var dest := FinishPath(s, id, sig);
        if dest.None? then b.(files := b.files - {me.path.value})
        else b.(files := (b.files - {me.path.value})[dest.value := b.files[me.path.value]])
  }

  /** Where FINISH moves the slot's file; none when a name is invalid or the file too long to measure, and the
      file is deleted. */
  function FinishPath(s: State, id: nat, sig: Signal): Option<Path>
    requires Sound(s) && id < SLOTS && sig.RunFinish?
  {
    if !Open(s, id) then None else
      var file := s.files[FileOf(s, id)];
      if !ValidSegment(sig.steamid) || !ValidSegment(FileMap(file)) then None
      else Some(Final(FinalUid(s.slots[id], sig, Load(file[TIMESTAMP_AT..TIMESTAMP_AT + 8]))))
  }

  // ---------------------------------------------------------------- a file that decodes to a log

  /** A raw capture header: valid, with zero section sizes. */
  predicate CaptureHeader(f: seq<Byte>) {
    ValidateHeader(f) == Ok && f[SIZE_TYPES_AT..RESERVED_AT] == Zeroes(16)
  }

  predicate DecodesBy(f: seq<Byte>, log: seq<Callback>, rs: seq<Record>) {
    |f| >= HEADER_SIZE && Splits(f[HEADER_SIZE..], rs, []) && Replay(rs) == log
  }

  /** A log does not begin with a delta. */
  predicate KeyedStart(log: seq<Callback>) {
    log != [] && log[0].OnFrame? ==> log[0].kind == FRAMETYPE_KEYFRAME
  }

  /** `f` is a header followed by complete, well-formed records that replay to `log`. */
  ghost predicate Decodes(f: seq<Byte>, log: seq<Callback>) {
    CaptureHeader(f) && KeyedStart(log) && exists rs :: DecodesBy(f, log, rs)
  }

  /** The frame a reader holds at the end of a log. */
  function LastFrame(log: seq<Callback>): seq<Byte> {
    if log == [] then ZeroFrame()
    else if log[|log| - 1].OnFrame? then log[|log| - 1].frame
    else LastFrame(log[..|log| - 1])
  }

  lemma {:induction false} LastFrameOfReplay(rs: seq<Record>)
    requires AllWellFormed(rs)
    ensures LastFrame(Replay(rs)) == FrameAfter(rs)
  {
    if rs != [] {
      LastFrameOfReplay(rs[..|rs| - 1]);
      assert Replay(rs)[..|rs| - 1] == Replay(rs[..|rs| - 1]);
    }
  }

  lemma AppendReplay(rs: seq<Record>, r: Record)
    requires AllWellFormed(rs) && WellFormed(r)
    ensures AllWellFormed(rs + [r]) && Serialise(rs + [r]) == Serialise(rs) + Encode(r)
    ensures Replay(rs + [r]) == Replay(rs)
      + [if r.Event? then OnEvent(|rs|, r.id) else OnFrame(|rs|, TypeOf(r), Apply(FrameAfter(rs), r))]
  {
    assert (rs + [r])[..|rs|] == rs;
  }

  lemma AppendBytes(f: seq<Byte>, rs: seq<Record>, r: Record)
    requires |f| >= HEADER_SIZE && Splits(f[HEADER_SIZE..], rs, []) && WellFormed(r)
    ensures |WriteAt(f, |f|, Encode(r))| >= HEADER_SIZE
    ensures Splits(WriteAt(f, |f|, Encode(r))[HEADER_SIZE..], rs + [r], [])
  {
    AppendReplay(rs, r);
    WriteAtEnd(f, Encode(r), HEADER_SIZE);
    NoTail(Serialise(rs));
    NoTail(Serialise(rs + [r]));
  }

  lemma WriteAtEnd(f: seq<Byte>, e: seq<Byte>, n: nat)
    requires n <= |f|
    ensures WriteAt(f, |f|, e)[n..] == f[n..] + e
  {
    assert WriteAt(f, |f|, e) == f + e;
  }

  lemma NoTail(s: seq<Byte>)
    ensures s + [] == s
  {
  }

  lemma AppendKeepsHeader(f: seq<Byte>, data: seq<Byte>)
    requires CaptureHeader(f)
    ensures CaptureHeader(WriteAt(f, |f|, data))
  {
    var g := WriteAt(f, |f|, data);
    assert g == f + data;
    assert g[0..8] == f[0..8] && g[8..16] == f[8..16] && g[SIZE_TYPES_AT..RESERVED_AT] == f[SIZE_TYPES_AT..RESERVED_AT];
  }

  /** Appending an event record appends one event to what the file decodes to. */
  lemma AppendedEvent(f: seq<Byte>, log: seq<Callback>, id: Byte)
    requires Decodes(f, log)
    ensures Decodes(WriteAt(f, |f|, Encode(KrpFormat.Event(id))), log + [OnEvent(|log|, id)])
  {
    var r := KrpFormat.Event(id);
    var rs :| DecodesBy(f, log, rs);
    AppendBytes(f, rs, r);
    AppendReplay(rs, r);
    AppendKeepsHeader(f, Encode(r));
    assert DecodesBy(WriteAt(f, |f|, Encode(r)), log + [OnEvent(|log|, id)], rs + [r]);
  }

  /** Appending the record the writer chooses for `frame` appends exactly that frame. */
  lemma AppendedFrame(f: seq<Byte>, log: seq<Callback>, slot: Slot, frame: seq<Byte>)
    requires Decodes(f, log) && |slot.last| == FRAME_SIZE && |frame| == FRAME_SIZE
    requires slot.counter > 0 ==> log != [] && LastFrame(log) == slot.last
    ensures Decodes(WriteAt(f, |f|, Encode(FrameRecord(slot, frame))),
      log + [OnFrame(|log|, if slot.counter == 0 then FRAMETYPE_KEYFRAME else FRAMETYPE_DELTA, frame)])
  {
    var rs :| DecodesBy(f, log, rs);
    LastFrameOfReplay(rs);
    FrameRecordDecodes(slot, FrameAfter(rs), frame);
    AppendFrameRecord(f, log, rs, FrameRecord(slot, frame), frame);
  }

  lemma FrameRecordDecodes(slot: Slot, prev: seq<Byte>, frame: seq<Byte>)
    requires |slot.last| == FRAME_SIZE && |frame| == FRAME_SIZE && |prev| == FRAME_SIZE
    requires slot.counter > 0 ==> prev == slot.last
    ensures Apply(prev, FrameRecord(slot, frame)) == frame
  {
    if slot.counter == 0 { KeyframeDecodes(prev, frame); } else { DeltaDecodes(frame, slot.last); }
  }

  lemma AppendFrameRecord(f: seq<Byte>, log: seq<Callback>, rs: seq<Record>, r: Record, frame: seq<Byte>)
    requires CaptureHeader(f) && DecodesBy(f, log, rs) && WellFormed(r) && r.Frame?
    requires Apply(FrameAfter(rs), r) == frame && KeyedStart(log) && (log == [] ==> r.key)
    ensures Decodes(WriteAt(f, |f|, Encode(r)), log + [OnFrame(|log|, TypeOf(r), frame)])
  {
    hide Apply, Encode, Replay, Splits, WriteAt, CaptureHeader, FrameAfter, WellFormed;
    AppendFrameBytes(f, log, rs, r, frame);
    AppendKeepsHeader(f, Encode(r));
  }

  lemma AppendFrameBytes(f: seq<Byte>, log: seq<Callback>, rs: seq<Record>, r: Record, frame: seq<Byte>)
    requires DecodesBy(f, log, rs) && WellFormed(r) && r.Frame?
    requires Apply(FrameAfter(rs), r) == frame
    ensures DecodesBy(WriteAt(f, |f|, Encode(r)), log + [OnFrame(|log|, TypeOf(r), frame)], rs + [r])
    ensures |log| == |rs|
  {
    hide Apply, Encode, WriteAt, FrameAfter, WellFormed;
    AppendBytes(f, rs, r);
    AppendReplay(rs, r);
  }

  /** `g` differs from `f` at most in the header fields between the version and the section sizes. */
  predicate SameApartFromFields(f: seq<Byte>, g: seq<Byte>) {
    |f| == |g| >= HEADER_SIZE && f[..NAME_AT] == g[..NAME_AT] && f[SIZE_TYPES_AT..] == g[SIZE_TYPES_AT..]
  }

  lemma PatchField(f: seq<Byte>, at: nat, data: seq<Byte>)
    requires |f| >= HEADER_SIZE && NAME_AT <= at && at + |data| <= SIZE_TYPES_AT
    ensures SameApartFromFields(f, WriteAt(f, at, data))
  {
    var g := WriteAt(f, at, data);
    assert f[..at][..NAME_AT] == f[..NAME_AT] && g[..at][..NAME_AT] == g[..NAME_AT];
    var e := at + |data|;
    assert f[e..][SIZE_TYPES_AT - e..] == f[SIZE_TYPES_AT..] && g[e..][SIZE_TYPES_AT - e..] == g[SIZE_TYPES_AT..];
  }

  /** A write leaves the bytes beside it as they are. */
  lemma PatchKeeps(f: seq<Byte>, at: nat, data: seq<Byte>, i: nat, j: nat)
    requires i <= j <= |f| && at + |data| <= |f| && (at + |data| <= i || j <= at)
    ensures WriteAt(f, at, data)[i..j] == f[i..j]
  {
    var g := WriteAt(f, at, data);
    if j <= at {
      assert g[..at][i..j] == g[i..j] && f[..at][i..j] == f[i..j];
    } else {
      var e := at + |data|;
      assert g[e..][i - e..j - e] == g[i..j] && f[e..][i - e..j - e] == f[i..j];
    }
  }

  lemma PatchedDecodes(f: seq<Byte>, g: seq<Byte>, log: seq<Callback>)
    requires Decodes(f, log) && SameApartFromFields(f, g)
    ensures Decodes(g, log)
  {
    var rs :| DecodesBy(f, log, rs);
    var k := HEADER_SIZE - SIZE_TYPES_AT;
    assert f[HEADER_SIZE..] == f[SIZE_TYPES_AT..][k..] && g[HEADER_SIZE..] == g[SIZE_TYPES_AT..][k..];
    assert DecodesBy(g, log, rs);
    PatchedHeader(f, g);
  }

  lemma PatchedHeader(f: seq<Byte>, g: seq<Byte>)
    requires CaptureHeader(f) && SameApartFromFields(f, g)
    ensures CaptureHeader(g)
  {
    assert f[0..8] == f[..NAME_AT][0..8] && g[0..8] == g[..NAME_AT][0..8];
    assert f[8..16] == f[..NAME_AT][8..16] && g[8..16] == g[..NAME_AT][8..16];
    assert f[SIZE_TYPES_AT..RESERVED_AT] == f[SIZE_TYPES_AT..][..16] &&
        g[SIZE_TYPES_AT..RESERVED_AT] == g[SIZE_TYPES_AT..][..16];
  }

  lemma StampedSame(f: seq<Byte>, checkpoints: nat, gochecks: nat)
    requires |f| >= HEADER_SIZE
    ensures SameApartFromFields(f, StampCounts(f, checkpoints, gochecks))
  {
    PatchField(f, CHECKPOINTS_AT, Put32(checkpoints));
    PatchField(WriteAt(f, CHECKPOINTS_AT, Put32(checkpoints)), TELEPORTS_AT, Put32(gochecks));
  }

  lemma WrittenRunSame(f: seq<Byte>, checkpoints: nat, gochecks: nat)
    requires |f| >= HEADER_SIZE
    ensures SameApartFromFields(f, WriteRun(f, checkpoints, gochecks))
  {
    StampedSame(f, checkpoints, gochecks);
  }

  lemma FinishedSame(f: seq<Byte>, nick: Text, checkpoints: nat, gochecks: nat)
    requires |f| >= HEADER_SIZE
    ensures SameApartFromFields(f, FinishHeader(f, nick, checkpoints, gochecks))
  {
    var name := if |nick| < 32 then nick + Zeroes(32 - |nick|) else nick[..31] + [0];
    PatchField(f, NAME_AT, name);
    StampedSame(WriteAt(f, NAME_AT, name), checkpoints, gochecks);
  }

  lemma StartedSame(h: seq<Byte>, ts: nat, steamid: Text, nick: Text)
    requires |h| == HEADER_SIZE
    ensures SameApartFromFields(h, StartHeader(h, ts, steamid, nick))
  {
    hide FullSteamid;
    var h1 := WriteAt(h, TIMESTAMP_AT, Store(ts, 8));
    PatchField(h, TIMESTAMP_AT, Store(ts, 8));
    var n := (if |nick| < 32 then nick else nick[..31]) + [0];
    PatchField(h1, NAME_AT, n);
    var t := FullSteamid(steamid);
    PatchField(WriteAt(h1, NAME_AT, n), STEAMID_AT, (if |t| < 35 then t else t[..34]) + [0]);
  }

  lemma NewFileDecodes(h: seq<Byte>, ts: nat, steamid: Text, nick: Text)
    requires |h| == HEADER_SIZE && CaptureHeader(h)
    ensures Decodes(StartHeader(h, ts, steamid, nick), [])
  {
    var f := StartHeader(h, ts, steamid, nick);
    StartedSame(h, ts, steamid, nick);
    PatchedHeader(h, f);
    assert f[HEADER_SIZE..] == [];
    assert DecodesBy(f, [], []);
  }

  // ---------------------------------------------------------------- agreement of bytes and logs

  /** A slot and its log slot: same file, position at its end, same counter, and between keyframes
      the remembered frame is the last one in the file. */
  predicate SlotAgrees(slot: Slot, l: LogSlot, files: map<Path, seq<Byte>>, logs: map<Path, seq<Callback>>) {
    && |slot.last| == FRAME_SIZE
    && (slot.fd.Some? <==> l.path.Some?)
    && (slot.fd.Some? ==>
      var p := slot.fd.value.path;
      && l.path == Some(p) && p.Temp? && p in files && p in logs && slot.filepath == p
      && slot.fd.value.pos == |files[p]| && slot.counter == l.counter
      && (slot.counter > 0 ==> logs[p] != [] && LastFrame(logs[p]) == slot.last))
  }

  ghost predicate FilesAgree(files: map<Path, seq<Byte>>, logs: map<Path, seq<Callback>>) {
    && files.Keys == logs.Keys
    && forall p | p in files :: Decodes(files[p], logs[p])
  }

  /** The header template is usable whenever it names a map, and has no run counts: nothing sets them in it. */
  predicate TemplateReady(h: seq<Byte>) {
    && |h| == HEADER_SIZE && (ValidSegment(MapName(h)) ==> CaptureHeader(h))
    && h[CHECKPOINTS_AT..TIMESTAMP_AT] == Zeroes(8)
  }

  predicate NoSharing(slots: seq<Slot>) {
    forall i: nat, j: nat | i < j < |slots| && slots[i].fd.Some? && slots[j].fd.Some? ::
      slots[i].fd.value.path != slots[j].fd.value.path
  }

  ghost predicate Agree(s: State, a: Logs) {
    && |s.slots| == |a.slots| == SLOTS && TemplateReady(s.header)
    && FilesAgree(s.files, a.files)
    && (forall id: nat | id < SLOTS :: SlotAgrees(s.slots[id], a.slots[id], s.files, a.files))
    && NoSharing(s.slots)
  }

  lemma DecodesSize(f: seq<Byte>, log: seq<Callback>)
    requires Decodes(f, log)
    ensures |f| >= HEADER_SIZE
  {
  }

  lemma AgreeIsSound(s: State, a: Logs)
    requires Agree(s, a)
    ensures Sound(s) && LogSound(a)
  {
    forall p | p in s.files ensures |s.files[p]| >= HEADER_SIZE { DecodesSize(s.files[p], a.files[p]); }
    forall id: nat | id < SLOTS
      ensures SlotAgrees(s.slots[id], a.slots[id], s.files, a.files)
      ensures a.slots[id].path.Some? ==> a.slots[id].path.value in a.files
    {}
  }

  /** Slot `id` and the files in `touched` changed; everything else is as it was. */
  ghost predicate OnlyTouched(s: State, a: Logs, t: State, b: Logs, id: nat, touched: set<Path>) {
    && |s.slots| == |a.slots| == |t.slots| == |b.slots| == SLOTS && id < SLOTS
    && t.header == s.header
    && (forall j: nat | j < SLOTS && j != id :: t.slots[j] == s.slots[j] && b.slots[j] == a.slots[j])
    && (forall p | p !in touched :: (p in t.files <==> p in s.files) && (p in b.files <==> p in a.files))
    && (forall p | p in s.files && p !in touched :: t.files[p] == s.files[p])
    && (forall p | p in a.files && p !in touched :: b.files[p] == a.files[p])
    && forall j: nat | j < SLOTS && j != id && Open(s, j) :: FileOf(s, j) !in touched
  }

  /** Agreement survives a change that touches no other slot's file and agrees where it does touch. */
  lemma AgreeAgain(s: State, a: Logs, t: State, b: Logs, id: nat, touched: set<Path>)
    requires Agree(s, a) && OnlyTouched(s, a, t, b, id, touched)
    requires forall p | p in touched :: (p in t.files <==> p in b.files) && (p in t.files ==>
        Decodes(t.files[p], b.files[p]))
    requires SlotAgrees(t.slots[id], b.slots[id], t.files, b.files)
    requires t.slots[id].fd.Some? ==> t.slots[id].fd.value.path in touched || t.slots[id].fd == s.slots[id].fd
    ensures Agree(t, b)
  {
    hide Decodes, LastFrame, TemplateReady;
    forall p | p in t.files || p in b.files
      ensures p in t.files && p in b.files && Decodes(t.files[p], b.files[p])
    {
      if p !in touched { assert p in s.files <==> p in a.files; }
    }
    forall j: nat | j < SLOTS ensures SlotAgrees(t.slots[j], b.slots[j], t.files, b.files) {
      if j != id {
        assert SlotAgrees(s.slots[j], a.slots[j], s.files, a.files);
        if Open(s, j) { assert FileOf(s, j) !in touched; }
      }
    }
    assert FilesAgree(t.files, b.files) by { assert t.files.Keys == b.files.Keys; }
    forall i: nat, j: nat | i < j < |t.slots| && t.slots[i].fd.Some? && t.slots[j].fd.Some?
      ensures t.slots[i].fd.value.path != t.slots[j].fd.value.path
    {
      if i != id { assert t.slots[i] == s.slots[i] && Open(s, i) && FileOf(s, i) !in touched; }
      if j != id { assert t.slots[j] == s.slots[j] && Open(s, j) && FileOf(s, j) !in touched; }
    }
  }

  // ---------------------------------------------------------------- one signal

  /** No other slot records into `p`. */
  predicate Unshared(slots: seq<Slot>, id: nat, p: Path) {
    forall j: nat | j < |slots| && j != id && slots[j].fd.Some? :: slots[j].fd.value.path != p
  }

  /** What agreement says about one open slot. */
  lemma OpenSlot(s: State, a: Logs, id: nat)
    requires Agree(s, a) && id < SLOTS
    ensures |s.slots| == |a.slots| == SLOTS && SlotAgrees(s.slots[id], a.slots[id], s.files, a.files)
    ensures Open(s, id) ==>
      var p := FileOf(s, id);
      && Unshared(s.slots, id, p) && p in s.files && p in a.files && |s.files[p]| >= HEADER_SIZE
      && Decodes(s.files[p], a.files[p])
  {
    if Open(s, id) {
      var p := FileOf(s, id);
      forall j: nat | j < |s.slots| && j != id && s.slots[j].fd.Some? ensures s.slots[j].fd.value.path != p {
        if id < j { assert s.slots[id].fd.value.path != s.slots[j].fd.value.path; }
      }
    }
  }

  /** Slot `id` changes and file `p` gets new contents. */
  lemma AgreePut(s: State, a: Logs, id: nat, p: Path, f: seq<Byte>, log: seq<Callback>, slot: Slot, l: LogSlot)
    requires Agree(s, a) && id < SLOTS && Unshared(s.slots, id, p) && Decodes(f, log)
    requires SlotAgrees(slot, l, s.files[p := f], a.files[p := log])
    requires slot.fd.Some? ==> slot.fd.value.path == p
    ensures |s.slots| == |a.slots| == SLOTS
    ensures Agree(s.(files := s.files[p := f], slots := s.slots[id := slot]),
                  Logs(a.files[p := log], a.slots[id := l]))
  {
    hide Decodes;
    AgreeAgain(s, a, s.(files := s.files[p := f], slots := s.slots[id := slot]),
               Logs(a.files[p := log], a.slots[id := l]), id, {p});
  }

  /** Only slot `id` changes. */
  lemma AgreeSlot(s: State, a: Logs, id: nat, slot: Slot, l: LogSlot)
    requires Agree(s, a) && id < SLOTS && SlotAgrees(slot, l, s.files, a.files)
    requires slot.fd.Some? ==> Unshared(s.slots, id, slot.fd.value.path)
    ensures |s.slots| == |a.slots| == SLOTS
    ensures Agree(s.(slots := s.slots[id := slot]), a.(slots := a.slots[id := l]))
  {
    hide Decodes, LastFrame;
    if slot.fd.Some? {
      var p := slot.fd.value.path;
      assert s.files[p := s.files[p]] == s.files && a.files[p := a.files[p]] == a.files;
      AgreePut(s, a, id, p, s.files[p], a.files[p], slot, l);
    } else {
      AgreeAgain(s, a, s.(slots := s.slots[id := slot]), a.(slots := a.slots[id := l]), id, {});
    }
  }

  /** Slot `id` is closed and file `p` is deleted. */
  lemma AgreeDrop(s: State, a: Logs, id: nat, p: Path, slot: Slot, l: LogSlot)
    requires Agree(s, a) && id < SLOTS && Unshared(s.slots, id, p) && SlotAgrees(slot, l, s.files, a.files) &&
        slot.fd.None?
    ensures |s.slots| == |a.slots| == SLOTS
    ensures Agree(s.(files := s.files - {p}, slots := s.slots[id := slot]),
                  Logs(a.files - {p}, a.slots[id := l]))
  {
    hide Decodes;
    AgreeAgain(s, a, s.(files := s.files - {p}, slots := s.slots[id := slot]),
               Logs(a.files - {p}, a.slots[id := l]), id, {p});
  }

  /** The list of outputs plays no part. */
  lemma AgreeOut(s: State, a: Logs, out: seq<Output>)
    requires Agree(s, a)
    ensures Agree(s.(out := out), a)
  {
    hide Decodes, SlotAgrees;
  }

  lemma CloseAgrees(s: State, a: Logs, id: nat)
    requires Agree(s, a) && id < SLOTS
    ensures |s.slots| == |a.slots| == SLOTS && Agree(Close(s, id), LogClose(a, id))
  {
    OpenSlot(s, a, id);
    hide Agree;
    AgreeSlot(s, a, id, s.slots[id].(fd := None), a.slots[id].(path := None));
  }

  lemma StartAgrees(s: State, a: Logs, id: nat, sig: Signal)
    requires Agree(s, a) && Sound(s) && LogSound(a) && Admissible(s, id, sig) && sig.RunStart?
    ensures Agree(OnStart(s, id, sig), LogStep(s, a, id, sig))
  {
    CloseAgrees(s, a, id);
    if ValidSegment(sig.steamid) && ValidSegment(MapName(s.header)) {
      NewFileDecodes(s.header, sig.ts, sig.steamid, sig.nick);
      var p := Temp(MapName(s.header), sig.steamid);
      assert Unshared(s.slots, id, p) by { AdmissibleTarget(s, id, sig, p); }
      hide Agree, Sound, LogSound, Admissible, Decodes, ValidSegment, MapName, StartHeader;
      AgreePut(s, a, id, p, StartHeader(s.header, sig.ts, sig.steamid, sig.nick), [],
               Slot(Some(Handle(p, HEADER_SIZE)), p, ZeroFrame(), 0, 0, 0), LogSlot(Some(p), 0));
    }
  }

  lemma AdmissibleTarget(s: State, id: nat, sig: Signal, p: Path)
    requires Sound(s) && Admissible(s, id, sig) && (sig.RunStart? || sig.RunUnpause?)
    requires p == Temp(MapName(s.header), sig.steamid)
    ensures Unshared(s.slots, id, p)
  {
    hide MapName;
    forall j: nat | j < |s.slots| && j != id && s.slots[j].fd.Some? ensures s.slots[j].fd.value.path != p {
      assert Open(s, j) && FileOf(s, j) != p;
    }
  }

  lemma SetTwice<T>(s: seq<T>, i: nat, x: T, y: T)
    requires i < |s|
    ensures s[i := x][i := y] == s[i := y]
  {
  }

  /** Bytes have been appended to the slot's file, and what it decodes to has grown to `log`. */
  lemma AppendAgrees(s: State, a: Logs, id: nat, data: seq<Byte>, log: seq<Callback>, slot: Slot, l: LogSlot)
    requires Agree(s, a) && id < SLOTS && Open(s, id) && FileOf(s, id) in s.files
    requires Decodes(WriteAt(s.files[FileOf(s, id)], |s.files[FileOf(s, id)]|, data), log)
    requires slot.fd == Some(Handle(FileOf(s, id), |s.files[FileOf(s, id)]| + |data|)) && slot.filepath == FileOf(s, id)
    requires |slot.last| == FRAME_SIZE && (slot.counter > 0 ==> log != [] && LastFrame(log) == slot.last)
    requires l == LogSlot(Some(FileOf(s, id)), slot.counter)
    ensures |s.slots| == |a.slots| == SLOTS
    ensures var p := FileOf(s, id);
      Agree(s.(files := s.files[p := WriteAt(s.files[p], |s.files[p]|, data)], slots := s.slots[id := slot]),
            Logs(a.files[p := log], a.slots[id := l]))
  {
    hide Agree, Decodes, LastFrame;
    OpenSlot(s, a, id);
    var p := FileOf(s, id);
    var f := s.files[p];
    var g := WriteAt(f, |f|, data);
    assert |g| == |f| + |data|;
    hide WriteAt;
    assert SlotAgrees(slot, l, s.files[p := g], a.files[p := log]);
    hide SlotAgrees;
    AgreePut(s, a, id, p, g, log, slot, l);
  }

  /** An open slot whose position has moved to the end of its grown file. */
  function Moved(slot: Slot, at: nat): Slot
    requires slot.fd.Some?
  {
    slot.(fd := Some(slot.fd.value.(pos := at)))
  }

  function WithEvent(log: seq<Callback>, e: Byte): seq<Callback> {
    log + [OnEvent(|log|, e)]
  }

  function WithFrame(log: seq<Callback>, counter: nat, frame: seq<Byte>): seq<Callback> {
    log + [OnFrame(|log|, if counter == 0 then FRAMETYPE_KEYFRAME else FRAMETYPE_DELTA, frame)]
  }

  /** An event signal on an open slot, spelled out on bytes and on logs. */
  lemma EventShape(s: State, a: Logs, id: nat, sig: Signal, p: Path)
    requires Sound(s) && LogSound(a) && Admissible(s, id, sig) && sig.RunEvent? && Open(s, id) && p == FileOf(s, id)
    requires a.slots[id].path == Some(p)
    ensures p in s.files && p in a.files && |s.slots| == |a.slots| == SLOTS
    ensures var f, e := s.files[p], Encode(KrpFormat.Event(sig.event));
      OnEventSignal(s, id, sig.event) == s.(files := s.files[p := WriteAt(f, |f|, e)],
        slots := s.slots[id := CountEvent(Moved(s.slots[id], |f| + |e|), sig.event)])
    ensures LogStep(s, a, id, sig) == Logs(a.files[p := WithEvent(a.files[p], sig.event)], a.slots)
  {
    hide Encode, WriteAt;
    var f, e := s.files[p], Encode(KrpFormat.Event(sig.event));
    var me := Moved(s.slots[id], |f| + |e|);
    SetTwice(s.slots, id, me, CountEvent(me, sig.event));
  }

  lemma EventIgnored(s: State, a: Logs, id: nat, sig: Signal)
    requires Sound(s) && LogSound(a) && Admissible(s, id, sig) && sig.RunEvent? && !Open(s, id)
    requires a.slots[id].path.None?
    ensures OnEventSignal(s, id, sig.event) == s.(slots := s.slots[id := CountEvent(s.slots[id], sig.event)])
    ensures LogStep(s, a, id, sig) == a
  {
  }

  lemma EventAgrees(s: State, a: Logs, id: nat, sig: Signal)
    requires Agree(s, a) && Sound(s) && LogSound(a) && Admissible(s, id, sig) && sig.RunEvent?
    ensures Agree(OnEventSignal(s, id, sig.event), LogStep(s, a, id, sig))
  {
    hide Agree, Sound, LogSound, OnEventSignal, LogStep, Decodes, Encode, WriteAt;
    OpenSlot(s, a, id);
    var slot, l, event := s.slots[id], a.slots[id], sig.event;
    assert a.slots[id := l] == a.slots;
    if Open(s, id) {
      var p := FileOf(s, id);
      EventShape(s, a, id, sig, p);
      var f := s.files[p];
      AppendedEvent(f, a.files[p], event);
      var e := Encode(KrpFormat.Event(event));
      AppendAgrees(s, a, id, e, WithEvent(a.files[p], event), CountEvent(Moved(slot, |f| + |e|), event), l);
    } else {
      EventIgnored(s, a, id, sig);
      AgreeSlot(s, a, id, CountEvent(slot, event), l);
    }
  }

  /** A frame signal on an open slot, spelled out on bytes and on logs. */
  lemma FrameShape(s: State, a: Logs, id: nat, sig: Signal, p: Path)
    requires Sound(s) && LogSound(a) && Admissible(s, id, sig) && sig.RunFrame? && Open(s, id) && p == FileOf(s, id)
    requires a.slots[id] == LogSlot(Some(p), s.slots[id].counter)
    ensures p in s.files && p in a.files && |s.slots| == |a.slots| == SLOTS
    ensures var f, e, n := s.files[p], Encode(FrameRecord(s.slots[id], sig.frame)), (s.slots[id].counter + 1) % U32;
      && OnFrameSignal(s, id, sig.frame) == s.(files := s.files[p := WriteAt(f, |f|, e)],
           slots := s.slots[id := Moved(s.slots[id], |f| + |e|).(last := sig.frame, counter := n)])
      && LogStep(s, a, id, sig) == Logs(a.files[p := WithFrame(a.files[p], s.slots[id].counter, sig.frame)],
           a.slots[id := LogSlot(Some(p), n)])
  {
    hide Encode, FrameRecord, WriteAt;
  }

  lemma FrameIgnored(s: State, a: Logs, id: nat, sig: Signal)
    requires Sound(s) && LogSound(a) && Admissible(s, id, sig) && sig.RunFrame? && !Open(s, id)
    requires a.slots[id].path.None?
    ensures OnFrameSignal(s, id, sig.frame) == s && LogStep(s, a, id, sig) == a
  {
  }

  lemma FrameAgrees(s: State, a: Logs, id: nat, sig: Signal)
    requires Agree(s, a) && Sound(s) && LogSound(a) && Admissible(s, id, sig) && sig.RunFrame?
    ensures Agree(OnFrameSignal(s, id, sig.frame), LogStep(s, a, id, sig))
  {
    hide Agree, Sound, LogSound, OnFrameSignal, LogStep, Decodes, Encode, WriteAt, FrameRecord;
    OpenSlot(s, a, id);
    var slot, frame := s.slots[id], sig.frame;
    if Open(s, id) {
      var p := FileOf(s, id);
      FrameShape(s, a, id, sig, p);
      var f, n := s.files[p], (slot.counter + 1) % U32;
      AppendedFrame(f, a.files[p], slot, frame);
      var e := Encode(FrameRecord(slot, frame));
      AppendAgrees(s, a, id, e, WithFrame(a.files[p], slot.counter, frame),
                   Moved(slot, |f| + |e|).(last := frame, counter := n), LogSlot(Some(p), n));
    } else {
      FrameIgnored(s, a, id, sig);
    }
  }

  lemma PauseAgrees(s: State, a: Logs, id: nat)
    requires Agree(s, a) && Sound(s) && LogSound(a) && id < SLOTS
    ensures Agree(OnPause(s, id), LogClose(a, id))
  {
    hide Agree, Sound, LogSound, Decodes, WriteRun, LastFrame, Unshared, SameApartFromFields;
    OpenSlot(s, a, id);
    var slot := s.slots[id];
    if Open(s, id) {
      var p := FileOf(s, id);
      WrittenRunSame(s.files[p], slot.checkpoints, slot.gochecks);
      PatchedDecodes(s.files[p], WriteRun(s.files[p], slot.checkpoints, slot.gochecks), a.files[p]);
      assert a.files[p := a.files[p]] == a.files;
      AgreePut(s, a, id, p, WriteRun(s.files[p], slot.checkpoints, slot.gochecks), a.files[p],
               slot.(fd := None), a.slots[id].(path := None));
    } else {
      assert s.slots[id := slot] == s.slots;
      AgreeSlot(s, a, id, slot, a.slots[id].(path := None));
    }
  }

  lemma SameFiles(s: State, a: Logs)
    requires Agree(s, a)
    ensures s.files.Keys == a.files.Keys && |s.header| == HEADER_SIZE
  {
    hide Decodes, SlotAgrees, ValidSegment;
  }

  /** The slot after UNPAUSE, as it is and as it is logged. */
  lemma UnpauseShape(s: State, a: Logs, id: nat, sig: Signal, p: Path, slot: Slot, l: LogSlot)
    requires Sound(s) && LogSound(a) && Admissible(s, id, sig) && sig.RunUnpause? && s.files.Keys == a.files.Keys
    requires ValidSegment(sig.steamid) && ValidSegment(MapName(s.header)) && p == Temp(MapName(s.header), sig.steamid)
    requires slot == OnUnpause(s, id, sig.steamid).slots[id] && l == LogSlot(if p in a.files then Some(p) else None, 0)
    ensures |s.slots| == |a.slots| == SLOTS
    ensures OnUnpause(s, id, sig.steamid) == s.(slots := s.slots[id := slot])
    ensures LogStep(s, a, id, sig) == a.(slots := a.slots[id := l])
    ensures slot.last == s.slots[id].last && slot.counter == 0 && slot.filepath == p
    ensures if p in s.files then slot.fd == Some(Handle(p, |s.files[p]|)) else slot.fd == None
  {
    hide ValidSegment, MapName, Field32;
  }

  lemma UnpauseAgrees(s: State, a: Logs, id: nat, sig: Signal)
    requires Agree(s, a) && Sound(s) && LogSound(a) && Admissible(s, id, sig) && sig.RunUnpause?
    ensures Agree(OnUnpause(s, id, sig.steamid), LogStep(s, a, id, sig))
  {
    hide Agree, Sound, LogSound, ValidSegment, MapName, Decodes, LastFrame;
    SameFiles(s, a);
    assert id < SLOTS;
    hide Admissible;
    OpenSlot(s, a, id);
    if ValidSegment(sig.steamid) && ValidSegment(MapName(s.header)) {
      var p := Temp(MapName(s.header), sig.steamid);
      var slot, l := OnUnpause(s, id, sig.steamid).slots[id], LogSlot(if p in a.files then Some(p) else None, 0);
      UnpauseShape(s, a, id, sig, p, slot, l);
      AdmissibleTarget(s, id, sig, p);
      hide OnUnpause, LogStep;
      AgreeSlot(s, a, id, slot, l);
    }
  }

  /** A REJECT signal, spelled out on bytes and on logs. */
  lemma RejectShape(s: State, a: Logs, id: nat, sig: Signal, slot: Slot, l: LogSlot)
    requires Sound(s) && LogSound(a) && Admissible(s, id, sig) && sig.RunReject?
    requires a.slots[id].path == if Open(s, id) then Some(FileOf(s, id)) else None
    requires slot == s.slots[id].(fd := None, checkpoints := 0, gochecks := 0) && l == a.slots[id].(path := None)
    ensures |s.slots| == |a.slots| == SLOTS && id < SLOTS
    ensures if Open(s, id) && sig.deleteFile then
        && OnReject(s, id, true) == s.(files := s.files - {FileOf(s, id)}, slots := s.slots[id := slot])
        && LogStep(s, a, id, sig) == Logs(a.files - {FileOf(s, id)}, a.slots[id := l])
      else
        && OnReject(s, id, sig.deleteFile) == s.(slots := s.slots[id := slot])
        && LogStep(s, a, id, sig) == a.(slots := a.slots[id := l])
  {
  }

  lemma RejectAgrees(s: State, a: Logs, id: nat, sig: Signal)
    requires Agree(s, a) && Sound(s) && LogSound(a) && Admissible(s, id, sig) && sig.RunReject?
    ensures Agree(OnReject(s, id, sig.deleteFile), LogStep(s, a, id, sig))
  {
    hide Agree, Sound, LogSound, Decodes, LastFrame, Unshared, OnReject, LogStep;
    assert id < SLOTS;
    hide Admissible;
    OpenSlot(s, a, id);
    var slot, l := s.slots[id].(fd := None, checkpoints := 0, gochecks := 0), a.slots[id].(path := None);
    RejectShape(s, a, id, sig, slot, l);
    if Open(s, id) && sig.deleteFile {
      AgreeDrop(s, a, id, FileOf(s, id), slot, l);
    } else {
      AgreeSlot(s, a, id, slot, l);
    }
  }

  lemma FinishAgrees(s: State, a: Logs, id: nat, sig: Signal)
    requires Agree(s, a) && Sound(s) && LogSound(a) && Admissible(s, id, sig) && sig.RunFinish?
    ensures Agree(OnFinish(s, id, sig), LogStep(s, a, id, sig))
  {
    OpenSlot(s, a, id);
    if Open(s, id) {
      var p, slot, l := FileOf(s, id), s.slots[id].(fd := None), a.slots[id].(path := None);
      var dest := FinishPath(s, id, sig);
      hide Agree, Sound, LogSound, Admissible, Decodes, ValidSegment, FileMap, FinalUid, FinishHeader, Load;
      if dest.Some? { MoveAgrees(s, a, id, sig, dest.value); } else { AgreeDrop(s, a, id, p, slot, l); }
    }
  }

  lemma FinishShape(s: State, a: Logs, id: nat, sig: Signal, dest: Path, p: Path)
    requires Sound(s) && LogSound(a) && Admissible(s, id, sig) && sig.RunFinish? && Open(s, id) && p == FileOf(s, id)
    requires FinishPath(s, id, sig) == Some(dest) && a.slots[id].path == Some(p)
    ensures dest.Final? && p in s.files && p in a.files && |s.files[p]| >= HEADER_SIZE
    ensures |s.slots| == |a.slots| == SLOTS
    ensures s.slots[id].filepath == p
    ensures var slot, f := s.slots[id], s.files[p];
      OnFinish(s, id, sig) == s.(
        files := (s.files - {p})[dest := FinishHeader(f, sig.nick, slot.checkpoints, slot.gochecks)],
        slots := s.slots[id := slot.(fd := None)], out := OnFinish(s, id, sig).out)
    ensures LogStep(s, a, id, sig) ==
      Logs((a.files - {p})[dest := a.files[p]], a.slots[id := a.slots[id].(path := None)])
  {
    hide ValidSegment, FileMap, FinalUid, FinishHeader, Load;
  }

  lemma MoveAgrees(s: State, a: Logs, id: nat, sig: Signal, dest: Path)
    requires Agree(s, a) && Sound(s) && LogSound(a) && Admissible(s, id, sig) && sig.RunFinish? && Open(s, id)
    requires FinishPath(s, id, sig) == Some(dest)
    ensures Agree(OnFinish(s, id, sig), LogStep(s, a, id, sig))
  {
    OpenSlot(s, a, id);
    var p, slot, l := FileOf(s, id), s.slots[id].(fd := None), a.slots[id].(path := None);
    FinishShape(s, a, id, sig, dest, p);
    FinalIsNobodys(s, id, dest);
    UnsharedAfter(s.slots, id, slot, dest);
    hide Agree, Sound, LogSound, Admissible, OnFinish, LogStep, FinishPath;
    var f := s.files[p];
    var g := FinishHeader(f, sig.nick, slot.checkpoints, slot.gochecks);
    FinishedSame(f, sig.nick, slot.checkpoints, slot.gochecks);
    PatchedDecodes(f, g, a.files[p]);
    hide Decodes, FinishHeader;
    MoveFile(s, a, id, p, dest, g, slot, l, OnFinish(s, id, sig).out);
  }

  /** Slot `id` is closed, and file `p` becomes file `dest` with new contents of the same meaning. */
  lemma MoveFile(s: State, a: Logs, id: nat, p: Path, dest: Path, g: seq<Byte>, slot: Slot, l: LogSlot,
                 out: seq<Output>)
    requires Agree(s, a) && id < SLOTS && Unshared(s.slots, id, p) && SlotAgrees(slot, l, s.files, a.files) &&
        slot.fd.None?
    requires p in s.files && p in a.files && Decodes(g, a.files[p])
    requires id < |s.slots| && Unshared(s.slots[id := slot], id, dest)
    ensures |s.slots| == |a.slots| == SLOTS
    ensures Agree(s.(files := (s.files - {p})[dest := g], slots := s.slots[id := slot], out := out),
                  Logs((a.files - {p})[dest := a.files[p]], a.slots[id := l]))
  {
    hide Agree, Decodes, Unshared, LastFrame;
    AgreeDrop(s, a, id, p, slot, l);
    var t := s.(files := s.files - {p}, slots := s.slots[id := slot]);
    var b := Logs(a.files - {p}, a.slots[id := l]);
    assert t.slots[id := slot] == t.slots && b.slots[id := l] == b.slots;
    AgreePut(t, b, id, dest, g, a.files[p], slot, l);
    AgreeOut(t.(files := t.files[dest := g]), Logs(b.files[dest := a.files[p]], b.slots), out);
  }

  lemma FinalIsNobodys(s: State, id: nat, q: Path)
    requires Sound(s) && q.Final?
    ensures Unshared(s.slots, id, q)
  {
    forall j: nat | j < |s.slots| && j != id && s.slots[j].fd.Some? ensures s.slots[j].fd.value.path != q {
      assert Open(s, j) && FileOf(s, j).Temp?;
    }
  }

  lemma UnsharedAfter(slots: seq<Slot>, id: nat, slot: Slot, q: Path)
    requires id < |slots| && Unshared(slots, id, q)
    ensures Unshared(slots[id := slot], id, q)
  {
  }

  /** One signal keeps bytes and logs in agreement. */
  lemma StepAgrees(s: State, a: Logs, id: nat, sig: Signal)
    requires Agree(s, a) && Sound(s) && LogSound(a) && Admissible(s, id, sig)
    ensures Agree(Step(s, id, sig), LogStep(s, a, id, sig))
  {
    match sig
    case RunStart(_, _, _) => StartAgrees(s, a, id, sig);
    case RunEvent(_) => EventAgrees(s, a, id, sig);
    case RunFrame(_) => FrameAgrees(s, a, id, sig);
    case RunPause => PauseAgrees(s, a, id);
    case RunUnpause(_) => UnpauseAgrees(s, a, id, sig);
    case RunReject(_) => RejectAgrees(s, a, id, sig);
    case RunFinish(_, _, _, _, _, _) => FinishAgrees(s, a, id, sig);
  }

  // ---------------------------------------------------------------- whole runs

  /** What the writer takes in: a signal for a player, a new header template on a map change, or the end of
      its thread, whose module is then loaded again and finds the files as they were left. */
  datatype Input = Sent(id: nat, sig: Signal) | MapChanged(header: seq<Byte>) | Restarted

  predicate CanTake(s: State, i: Input) {
    match i
    case Sent(id, sig) => Admissible(s, id, sig)
    case MapChanged(h) => TemplateReady(h)
    case Restarted => true
  }

  function Take(s: State, i: Input): State
    requires Sound(s) && CanTake(s, i)
  {
    match i
    case Sent(id, sig) => Step(s, id, sig)
    case MapChanged(h) => s.(header := h)
    case Restarted => s.(slots := Booted().slots, header := Booted().header)
  }

  function LogTake(s: State, a: Logs, i: Input): Logs
    requires Sound(s) && LogSound(a) && CanTake(s, i)
  {
    match i
    case Sent(id, sig) => LogStep(s, a, id, sig)
    case MapChanged(h) => a
    case Restarted => a.(slots := NoLogs().slots)
  }

  lemma TakeAgrees(s: State, a: Logs, i: Input)
    requires Agree(s, a) && Sound(s) && LogSound(a) && CanTake(s, i)
    ensures Agree(Take(s, i), LogTake(s, a, i))
    ensures Sound(Take(s, i)) && LogSound(LogTake(s, a, i))
  {
    match i {
      case Sent(id, sig) => StepAgrees(s, a, id, sig);
      case MapChanged(h) => NewTemplate(s, a, h);
      case Restarted => RestartAgrees(s, a);
    }
    AgreeIsSound(Take(s, i), LogTake(s, a, i));
  }

  lemma NewTemplate(s: State, a: Logs, h: seq<Byte>)
    requires Agree(s, a) && TemplateReady(h)
    ensures Agree(s.(header := h), a)
  {
    hide Decodes, SlotAgrees, TemplateReady;
  }

  lemma RestartAgrees(s: State, a: Logs)
    requires Agree(s, a)
    ensures Agree(s.(slots := Booted().slots, header := Booted().header), a.(slots := NoLogs().slots))
  {
    BootedAgrees();
    hide Decodes;
  }

  /** The state of the writer thread when it starts. */
  function Booted(): State {
    State(map[], seq(SLOTS, _ => Slot(None, Final([]), ZeroFrame(), 0, 0, 0)), Zeroes(HEADER_SIZE), [])
  }

  function NoLogs(): Logs {
    Logs(map[], seq(SLOTS, _ => LogSlot(None, 0)))
  }

  lemma BootedAgrees()
    ensures Agree(Booted(), NoLogs()) && Sound(Booted()) && LogSound(NoLogs())
  {
    assert MapName(Booted().header) == [];
    AgreeIsSound(Booted(), NoLogs());
  }

  predicate TakesTo(s0: State, a0: Logs, i: Input, s: State, a: Logs) {
    Sound(s0) && LogSound(a0) && CanTake(s0, i) && s == Take(s0, i) && a == LogTake(s0, a0, i)
  }

  /** A history: the writer has come from its start to `s` by taking inputs, and `a` is the log of
      what it accepted on the way. */
  ghost predicate Reached(inputs: seq<Input>, s: State, a: Logs)
    decreases |inputs|
  {
    if inputs == [] then s == Booted() && a == NoLogs() else
      var i := inputs[|inputs| - 1];
      exists s0, a0 :: Reached(inputs[..|inputs| - 1], s0, a0) && TakesTo(s0, a0, i, s, a)
  }

  /** Inputs that can be taken one after another from `s` on. */
  predicate Takeable(s: State, queue: seq<Input>)
    decreases |queue|
  {
    queue == [] || (Sound(s) && CanTake(s, queue[0]) && Takeable(Take(s, queue[0]), queue[1..]))
  }

  lemma ReachedNext(inputs: seq<Input>, s: State, a: Logs, i: Input)
    requires Reached(inputs, s, a) && Sound(s) && LogSound(a) && CanTake(s, i)
    ensures Reached(inputs + [i], Take(s, i), LogTake(s, a, i))
  {
    hide Sound, LogSound, CanTake, Take, LogTake;
    var all := inputs + [i];
    assert all[..|all| - 1] == inputs && all[|all| - 1] == i;
    assert TakesTo(s, a, i, Take(s, i), LogTake(s, a, i));
  }

  /** After any history whatsoever, every file decodes to exactly what was accepted for it, and every
      open slot stands at the end of its own file with the last frame in hand. */
  lemma {:induction false} EveryRunAgrees(inputs: seq<Input>, s: State, a: Logs)
    requires Reached(inputs, s, a)
    ensures Agree(s, a) && Sound(s) && LogSound(a)
    decreases |inputs|
  {
    if inputs == [] {
      BootedAgrees();
    } else {
      var front, i := inputs[..|inputs| - 1], inputs[|inputs| - 1];
      var s0, a0 :| Reached(front, s0, a0) && TakesTo(s0, a0, i, s, a);
      EveryRunAgrees(front, s0, a0);
      TakeAgrees(s0, a0, i);
    }
  }

  /** The paths a signal has nothing to do with: neither the slot's own file, nor one it opens, nor
      one FINISH moves it to. */
  predicate Elsewhere(s: State, id: nat, sig: Signal, p: Path)
    requires Sound(s) && Admissible(s, id, sig)
  {
    && !(Open(s, id) && p == FileOf(s, id))
    && !((sig.RunStart? || sig.RunUnpause?) && p == Temp(MapName(s.header), sig.steamid))
    && !(sig.RunFinish? && FinishPath(s, id, sig) == Some(p))
  }

  /** A signal for one slot leaves every other slot as it was. */
  lemma OtherSlotsUntouched(s: State, a: Logs, id: nat, sig: Signal, j: nat)
    requires Sound(s) && LogSound(a) && Admissible(s, id, sig) && j < SLOTS && j != id
    ensures |Step(s, id, sig).slots| == |LogStep(s, a, id, sig).slots| == SLOTS
    ensures Step(s, id, sig).slots[j] == s.slots[j] && LogStep(s, a, id, sig).slots[j] == a.slots[j]
  {
    hide Encode, FrameRecord, WriteAt, StartHeader, ValidSegment, WriteRun, FinishHeader, MapName, FileMap, FinalUid;
  }

  lemma FilesStay(s: State, id: nat, sig: Signal, p: Path)
    requires Sound(s) && Admissible(s, id, sig) && Elsewhere(s, id, sig, p)
    ensures p in Step(s, id, sig).files <==> p in s.files
    ensures p in s.files ==> Step(s, id, sig).files[p] == s.files[p]
  {
    hide Encode, FrameRecord, WriteAt, StartHeader, ValidSegment, WriteRun, FinishHeader, MapName, FileMap, FinalUid;
  }

  lemma LogsStay(s: State, a: Logs, id: nat, sig: Signal, p: Path)
    requires Sound(s) && LogSound(a) && Admissible(s, id, sig) && Elsewhere(s, id, sig, p)
    requires a.slots[id].path == if Open(s, id) then Some(FileOf(s, id)) else None
    ensures p in LogStep(s, a, id, sig).files <==> p in a.files
    ensures p in a.files ==> LogStep(s, a, id, sig).files[p] == a.files[p]
  {
    hide ValidSegment, MapName, FileMap, FinalUid;
  }

  /** It leaves every file it has nothing to do with exactly as it was, other slots' files included. */
  lemma OtherFilesUntouched(s: State, a: Logs, id: nat, sig: Signal, p: Path)
    requires Agree(s, a) && Sound(s) && LogSound(a) && Admissible(s, id, sig) && Elsewhere(s, id, sig, p)
    ensures var t, b := Step(s, id, sig), LogStep(s, a, id, sig);
      && (p in t.files <==> p in s.files) && (p in b.files <==> p in a.files)
      && (p in s.files <==> p in a.files)
      && (p in s.files ==> t.files[p] == s.files[p] && b.files[p] == a.files[p])
  {
    assert p in s.files <==> p in a.files;
    hide Agree, Sound, LogSound, Elsewhere, Step, LogStep;
    OpenSlot(s, a, id);
    FilesStay(s, id, sig, p);
    LogsStay(s, a, id, sig, p);
  }

  lemma OtherSlotsElsewhere(s: State, id: nat, sig: Signal, j: nat)
    requires Sound(s) && Admissible(s, id, sig) && j < SLOTS && j != id && Open(s, j)
    ensures Elsewhere(s, id, sig, FileOf(s, j))
  {
    hide MapName, ValidSegment, FileMap, FinalUid, Load;
    if Open(s, id) {
      if id < j { assert FileOf(s, id) != FileOf(s, j); } else { assert FileOf(s, j) != FileOf(s, id); }
    }
  }
}
