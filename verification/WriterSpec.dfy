/** The replay writer as a state machine over bytes: 33 player slots, the files they write, and what
    each signal of the writer queue does to them. */
module WriterSpec {
  import opened Options
  import opened Bytes
  import opened KrpFormat
  import opened KrpDelta
  import opened ReplayNames

  const SLOTS: nat := 33
  const KRP_EVENT_CHECKPOINT: Byte := 0
  const KRP_EVENT_GOCHECK: Byte := 1

  const NAME_AT: nat := 16
  const STEAMID_AT: nat := 48
  const MAP_AT: nat := 83
  const CHECKPOINTS_AT: nat := 151
  const TELEPORTS_AT: nat := 155
  const TIMESTAMP_AT: nat := 159

  /** `replays/<map>/<steamid>.tmp` while a run is recorded, `replays/<uid>.krpr` afterwards. */
  datatype Path = Temp(map_: Text, steamid: Text) | Final(uid: Text)

  /** An open `FILE*`: the file and the position in it. */
  datatype Handle = Handle(path: Path, pos: nat)

  /** The static per-player variables of the writer thread. */
  datatype Slot = Slot(
    fd: Option<Handle>, filepath: Path, last: seq<Byte>, counter: nat, checkpoints: nat, gochecks: nat)

  /** What FINISH hands on: a local-only replay for compression, or a record for submission. */
  datatype Output =
    | CompressOnly(uid: Text)
    | AddRecord(uid: Text, steamid: Text, map_: Text, timeMs: nat, checkpoints: nat, gochecks: nat)

  datatype State = State(files: map<Path, seq<Byte>>, slots: seq<Slot>, header: seq<Byte>, out: seq<Output>)

  datatype Signal =
    | RunStart(ts: nat, steamid: Text, nick: Text)
    | RunEvent(event: Byte)
    | RunFrame(frame: seq<Byte>)
    | RunPause
    | RunUnpause(steamid: Text)
    | RunReject(deleteFile: bool)
    | RunFinish(timeMs: nat, submit: bool, prefix: Byte, steamid: Text, nick: Text, noSubmit: bool)

  // ---------------------------------------------------------------- text and header fields

  function CString(s: seq<Byte>): Text {
    if s == [] || s[0] == 0 then [] else [s[0]] + CString(s[1..])
  }

  function MapName(header: seq<Byte>): Text
    requires |header| >= HEADER_SIZE
  {
    CString(header[MAP_AT..CHECKPOINTS_AT - 4])
  }

  /** The position at the end of the file is one `ftell` can answer; where it cannot, the helpers below give up. */
  predicate Measured(file: seq<Byte>) {
    |file| < LONG_LIMIT
  }

  /** `kz_rp_mapname_from_header` reads 63 of the 64 bytes. */
  function FileMap(file: seq<Byte>): Text
    requires |file| >= HEADER_SIZE
  {
    if Measured(file) then CString(file[MAP_AT..MAP_AT + 63]) else []
  }

  /** `fwrite` at a position: overwrite, and extend at the end. */
  function WriteAt(file: seq<Byte>, pos: nat, data: seq<Byte>): (f: seq<Byte>)
    requires pos <= |file|
    ensures |f| >= |file| && |f| >= pos + |data|
    ensures f[..pos] == file[..pos] && f[pos..pos + |data|] == data
    ensures pos + |data| <= |file| ==> |f| == |file| && f[pos + |data|..] == file[pos + |data|..]
  {
    file[..pos] + data + if pos + |data| < |file| then file[pos + |data|..] else []
  }

  /** `snprintf` into a fixed field: cut to fit, terminated, the rest of the field left as it was. */
  function PrintField(h: seq<Byte>, at: nat, size: nat, text: Text): (r: seq<Byte>)
    requires at + size <= |h| && size > 0
    ensures |r| == |h|
  {
    WriteAt(h, at, (if |text| < size then text else text[..size - 1]) + [0])
  }

  const STEAM: Text := ['S' as int, 'T' as int, 'E' as int, 'A' as int, 'M' as int, UNDERSCORE]
  const COLON: Byte := ':' as int

  /** `STEAM_X:Y:Z`; a short form of less than two characters ends the text. */
  function FullSteamid(s: Text): Text {
    if s == [] then STEAM else if |s| == 1 then STEAM + [s[0], COLON] else STEAM + [s[0], COLON, s[1], COLON] + s[2..]
  }

  /** What `snprintf` leaves of a text in a buffer, without the terminator. */
  function Fitted(text: Text, size: nat): Text
    requires size > 0
  {
    if |text| < size then text else text[..size - 1]
  }

  /** The header START writes. */
  function StartHeader(h: seq<Byte>, ts: nat, steamid: Text, nick: Text): (r: seq<Byte>)
    requires |h| == HEADER_SIZE
    ensures |r| == HEADER_SIZE
  {
    PrintField(PrintField(WriteAt(h, TIMESTAMP_AT, Store(ts, 8)), NAME_AT, 32, nick), STEAMID_AT, 35,
        FullSteamid(steamid))
  }

  /** The run counts of the header. */
  function StampCounts(file: seq<Byte>, checkpoints: nat, gochecks: nat): (f: seq<Byte>)
    requires |file| >= HEADER_SIZE
    ensures |f| == |file|
  {
    WriteAt(WriteAt(file, CHECKPOINTS_AT, Put32(checkpoints)), TELEPORTS_AT, Put32(gochecks))
  }

  /** `kz_rp_write_run_to_header`. */
  function WriteRun(file: seq<Byte>, checkpoints: nat, gochecks: nat): (f: seq<Byte>)
    requires |file| >= HEADER_SIZE
    ensures |f| == |file|
  {
    if Measured(file) then StampCounts(file, checkpoints, gochecks) else file
  }

  /** `kz_rp_run_from_header`: the slot's counters become those of the header. */
  function ReadRun(slot: Slot, file: seq<Byte>): Slot
    requires |file| >= HEADER_SIZE
  {
    if Measured(file) then slot.(checkpoints := Field32(file, CHECKPOINTS_AT), gochecks := Field32(file, TELEPORTS_AT))
    else slot
  }

  /** The header FINISH writes back: nickname (padded by `strncpy`) and run counts. */
  function FinishHeader(file: seq<Byte>, nick: Text, checkpoints: nat, gochecks: nat): (f: seq<Byte>)
    requires |file| >= HEADER_SIZE
    ensures |f| == |file|
  {
    var name := if |nick| < 32 then nick + Zeroes(32 - |nick|) else nick[..31] + [0];
    StampCounts(WriteAt(file, NAME_AT, name), checkpoints, gochecks)
  }

  // ---------------------------------------------------------------- one signal

  predicate Open(s: State, id: nat) {
    id < |s.slots| && s.slots[id].fd.Some?
  }

  function FileOf(s: State, id: nat): (p: Path)
    requires Open(s, id)
  {
    s.slots[id].fd.value.path
  }

  /** What every signal keeps: an open slot writes at the end of its own temporary file. */
  predicate Sound(s: State) {
    && |s.slots| == SLOTS && |s.header| == HEADER_SIZE
    && (forall id: nat | id < SLOTS :: |s.slots[id].last| == FRAME_SIZE)
    && (forall id: nat | id < SLOTS && Open(s, id) ::
      && FileOf(s, id).Temp? && FileOf(s, id) in s.files && s.slots[id].filepath == FileOf(s, id)
      && s.slots[id].fd.value.pos == |s.files[FileOf(s, id)]| >= HEADER_SIZE)
    && (forall i: nat, j: nat | i < j < SLOTS && Open(s, i) && Open(s, j) :: FileOf(s, i) != FileOf(s, j))
    && forall p | p in s.files :: |s.files[p]| >= HEADER_SIZE
  }

  /** Signals the writer is sent: player indices are in range, frames are whole, and no two players
      with the same short steamid record at once. */
  predicate Admissible(s: State, id: nat, sig: Signal) {
    && id < SLOTS
    && (sig.RunFrame? ==> |sig.frame| == FRAME_SIZE)
    && (sig.RunStart? ==> sig.ts < U64)
    && ((sig.RunStart? || sig.RunUnpause?) && |s.header| >= HEADER_SIZE ==>
      forall j: nat | j < SLOTS && j != id && Open(s, j) :: FileOf(s, j) != Temp(MapName(s.header), sig.steamid))
  }

  function Close(s: State, id: nat): State
    requires id < |s.slots|
  {
    s.(slots := s.slots[id := s.slots[id].(fd := None)])
  }

  /** Bytes appended at the slot's position. */
  function Append(s: State, id: nat, data: seq<Byte>): State
    requires Sound(s) && id < SLOTS && Open(s, id)
  {
    var h := s.slots[id].fd.value;
    s.(files := s.files[h.path := WriteAt(s.files[h.path], h.pos, data)],
       slots := s.slots[id := s.slots[id].(fd := Some(h.(pos := h.pos + |data|)))])
  }

  function OnStart(s: State, id: nat, sig: Signal): State
    requires Sound(s) && id < SLOTS && sig.RunStart?
  {
    var map_ := MapName(s.header);
    if !ValidSegment(sig.steamid) || !ValidSegment(map_) then Close(s, id) else
      var path := Temp(map_, sig.steamid);
      s.(files := s.files[path := StartHeader(s.header, sig.ts, sig.steamid, sig.nick)],
         slots := s.slots[id := Slot(Some(Handle(path, HEADER_SIZE)), path, ZeroFrame(), 0, 0, 0)])
  }

  function CountEvent(slot: Slot, event: Byte): Slot {
    if event == KRP_EVENT_CHECKPOINT then slot.(checkpoints := (slot.checkpoints + 1) % U32)
    else if event == KRP_EVENT_GOCHECK then slot.(gochecks := (slot.gochecks + 1) % U32)
    else slot
  }

  function OnEventSignal(s: State, id: nat, event: Byte): State
    requires Sound(s) && id < SLOTS
  {
    var t := if Open(s, id) then Append(s, id, Encode(KrpFormat.Event(event))) else s;
    t.(slots := t.slots[id := CountEvent(t.slots[id], event)])
  }

  /** A keyframe while the frame counter is zero, a delta against the last frame otherwise. */
  function FrameRecord(slot: Slot, frame: seq<Byte>): (r: Record)
    requires |slot.last| == FRAME_SIZE && |frame| == FRAME_SIZE
    ensures WellFormed(r)
  {
    if slot.counter == 0 then KeyRecord(frame) else DeltaRecord(frame, slot.last)
  }

  function OnFrameSignal(s: State, id: nat, frame: seq<Byte>): State
    requires Sound(s) && id < SLOTS && |frame| == FRAME_SIZE
  {
    if !Open(s, id) then s else
      var t := Append(s, id, Encode(FrameRecord(s.slots[id], frame)));
      t.(slots := t.slots[id := t.slots[id].(last := frame, counter := (t.slots[id].counter + 1) % U32)])
  }

  function OnPause(s: State, id: nat): State
    requires Sound(s) && id < SLOTS
  {
    if !Open(s, id) then s else
      var p := FileOf(s, id);
      Close(s.(files := s.files[p := WriteRun(s.files[p], s.slots[id].checkpoints, s.slots[id].gochecks)]), id)
  }

  function OnUnpause(s: State, id: nat, steamid: Text): State
    requires Sound(s) && id < SLOTS
  {
    var map_ := MapName(s.header);
    if !ValidSegment(steamid) || !ValidSegment(map_) then s else
      var path := Temp(map_, steamid);
      var slot := s.slots[id].(filepath := path, fd := None, counter := 0);
      if path !in s.files then s.(slots := s.slots[id := slot]) else
        var f := s.files[path];
        s.(slots := s.slots[id := ReadRun(slot.(fd := Some(Handle(path, |f|))), f)])
  }

  function OnReject(s: State, id: nat, deleteFile: bool): State
    requires Sound(s) && id < SLOTS
  {
    var files := if Open(s, id) && deleteFile then s.files - {s.slots[id].filepath} else s.files;
    s.(files := files, slots := s.slots[id := s.slots[id].(fd := None, checkpoints := 0, gochecks := 0)])
  }

  /** The final name: the class digit, replaced by 'x' for a banned player and by an explicit prefix. */
  function FinalUid(slot: Slot, sig: Signal, ts: nat): Text
    requires sig.RunFinish?
  {
    var uid := RunUid(if slot.gochecks > 0 then 1 else 0, sig.timeMs, sig.steamid, Base36(ts));
    if sig.prefix > 0 then uid[0 := sig.prefix] else if sig.noSubmit then uid[0 := 'x' as int] else uid
  }

  function OnFinish(s: State, id: nat, sig: Signal): State
    requires Sound(s) && id < SLOTS && sig.RunFinish?
  {
    if !Open(s, id) then s else
      var slot := s.slots[id];
      var file := s.files[FileOf(s, id)];
      var map_ := FileMap(file);
      var t := Close(s, id);
      if !ValidSegment(sig.steamid) || !ValidSegment(map_) then t.(files := t.files - {slot.filepath}) else
        var uid := FinalUid(slot, sig, Load(file[TIMESTAMP_AT..TIMESTAMP_AT + 8]));
        var stamped := FinishHeader(file, sig.nick, slot.checkpoints, slot.gochecks);
        t.(files := (t.files - {slot.filepath})[Final(uid) := stamped],
           out := t.out + [if !sig.submit || sig.noSubmit then CompressOnly(uid)
                           else AddRecord(uid, Fitted(FullSteamid(sig.steamid), 35), map_, sig.timeMs, slot.checkpoints,
                                         slot.gochecks)])
  }

  function Step(s: State, id: nat, sig: Signal): State
    requires Sound(s) && Admissible(s, id, sig)
  {
    match sig
    case RunStart(_, _, _) => OnStart(s, id, sig)
    case RunEvent(e) => OnEventSignal(s, id, e)
    case RunFrame(f) => OnFrameSignal(s, id, f)
    case RunPause => OnPause(s, id)
    case RunUnpause(steamid) => OnUnpause(s, id, steamid)
    case RunReject(d) => OnReject(s, id, d)
    case RunFinish(_, _, _, _, _, _) => OnFinish(s, id, sig)
  }
}
