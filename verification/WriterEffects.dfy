/** What single signals leave behind, told by what a reader of the files and headers finds: the header START writes,
    what PAUSE and UNPAUSE give back, what REJECT and FINISH delete, and what the submission says. */
module WriterEffects {
  import opened Options
  import opened Bytes
  import opened KrpFormat
  import opened ReplayNames
  import opened WriterSpec
  import opened WriterRuns
  import opened WriterCounts
  import opened RunNames

  // ---------------------------------------------------------------- text in fixed fields

  predicate NoZero(t: Text) {
    forall k | 0 <= k < |t| :: t[k] != 0
  }

  /** A terminated text reads back. */
  lemma {:induction false} TextReadsBack(field: seq<Byte>, t: Text)
    requires NoZero(t) && |t| < |field| && field[..|t|] == t && field[|t|] == 0
    ensures CString(field) == t
    decreases |t|
  {
    if t != [] {
      assert field[0] == t[0] && field[1..][..|t| - 1] == t[1..];
      TextReadsBack(field[1..], t[1..]);
      assert t == [t[0]] + t[1..];
    }
  }

  lemma FittedIsClean(t: Text, size: nat)
    requires NoZero(t) && size > 0
    ensures NoZero(Fitted(t, size)) && |Fitted(t, size)| < size
  {
  }

  /** A printed field reads back as what fits of the text. */
  lemma PrintedReadsBack(h: seq<Byte>, at: nat, size: nat, t: Text)
    requires at + size <= |h| && size > 0 && NoZero(t)
    ensures CString(PrintField(h, at, size, t)[at..at + size]) == Fitted(t, size)
  {
    var g, u := PrintField(h, at, size, t), Fitted(t, size);
    FittedIsClean(t, size);
    assert g == WriteAt(h, at, u + [0]);
    assert g[at..at + size][..|u| + 1] == g[at..at + |u| + 1] == u + [0];
    assert g[at..at + size][..|u|] == (u + [0])[..|u|] == u;
    assert g[at..at + size][|u|] == (u + [0])[|u|] == 0;
    TextReadsBack(g[at..at + size], u);
  }

  lemma PrintedKeeps(h: seq<Byte>, at: nat, size: nat, t: Text, i: nat, j: nat)
    requires at + size <= |h| && size > 0 && i <= j <= |h| && (at + size <= i || j <= at)
    ensures PrintField(h, at, size, t)[i..j] == h[i..j]
  {
    PatchKeeps(h, at, (if |t| < size then t else t[..size - 1]) + [0], i, j);
  }

  lemma SegmentHasNoZero(s: Text)
    requires ValidSegment(s)
    ensures NoZero(s) && NoZero(FullSteamid(s))
  {
    assert forall k | 0 <= k < |s| :: SegmentChar(s[k]);
  }

  /** The header START writes, read field by field: the start, the nickname and the player are those of the signal, as
      far as they fit, and everything else is the template's. */
  lemma StartHeaderReads(h: seq<Byte>, ts: nat, steamid: Text, nick: Text)
    requires |h| == HEADER_SIZE && ts < U64 && ValidSegment(steamid) && NoZero(nick)
    ensures var f := StartHeader(h, ts, steamid, nick);
      && Load(f[TIMESTAMP_AT..TIMESTAMP_AT + 8]) == ts
      && CString(f[NAME_AT..NAME_AT + 32]) == Fitted(nick, 32)
      && CString(f[STEAMID_AT..STEAMID_AT + 35]) == Fitted(FullSteamid(steamid), 35)
      && f[..NAME_AT] == h[..NAME_AT] && f[MAP_AT..TIMESTAMP_AT] == h[MAP_AT..TIMESTAMP_AT]
      && f[TIMESTAMP_AT + 8..] == h[TIMESTAMP_AT + 8..]
  {
    StartStamps(h, ts, steamid, nick);
    SegmentHasNoZero(steamid);
    hide Load, Store, PrintField, CString, Fitted, FullSteamid, ValidSegment, NoZero;
    var h1 := WriteAt(h, TIMESTAMP_AT, Store(ts, 8));
    var h2 := PrintField(h1, NAME_AT, 32, nick);
    var f := PrintField(h2, STEAMID_AT, 35, FullSteamid(steamid));
    PrintedReadsBack(h1, NAME_AT, 32, nick);
    PrintedReadsBack(h2, STEAMID_AT, 35, FullSteamid(steamid));
    PrintedKeeps(h2, STEAMID_AT, 35, FullSteamid(steamid), NAME_AT, NAME_AT + 32);
    KeptByStart(h, ts, nick, FullSteamid(steamid), 0, NAME_AT);
    KeptByStart(h, ts, nick, FullSteamid(steamid), MAP_AT, TIMESTAMP_AT);
    KeptByStart(h, ts, nick, FullSteamid(steamid), TIMESTAMP_AT + 8, HEADER_SIZE);
    assert f[0..NAME_AT] == f[..NAME_AT] && h[0..NAME_AT] == h[..NAME_AT];
    assert f[TIMESTAMP_AT + 8..HEADER_SIZE] == f[TIMESTAMP_AT + 8..];
    assert h[TIMESTAMP_AT + 8..HEADER_SIZE] == h[TIMESTAMP_AT + 8..];
  }

  lemma KeptByStart(h: seq<Byte>, ts: nat, nick: Text, player: Text, i: nat, j: nat)
    requires |h| == HEADER_SIZE && i <= j <= HEADER_SIZE
    requires j <= NAME_AT || (MAP_AT <= i && j <= TIMESTAMP_AT) || TIMESTAMP_AT + 8 <= i
    ensures PrintField(PrintField(WriteAt(h, TIMESTAMP_AT, Store(ts, 8)), NAME_AT, 32, nick), STEAMID_AT, 35,
      player)[i..j] == h[i..j]
  {
    hide Store, PrintField;
    var h1 := WriteAt(h, TIMESTAMP_AT, Store(ts, 8));
    var h2 := PrintField(h1, NAME_AT, 32, nick);
    PatchKeeps(h, TIMESTAMP_AT, Store(ts, 8), i, j);
    PrintedKeeps(h1, NAME_AT, 32, nick, i, j);
    PrintedKeeps(h2, STEAMID_AT, 35, player, i, j);
  }

  // ---------------------------------------------------------------- steamids

  /** The short form of a full steamid: the two digits and the number, without the colons. */
  function ShortSteamid(t: Text): Text
    requires |t| >= 10
  {
    [t[6], t[8]] + t[10..]
  }

  function Colons(t: Text): nat {
    if t == [] then 0 else (if t[0] == COLON then 1 else 0) + Colons(t[1..])
  }

  /** `kz_ws_valid_steam_authid`. */
  predicate ValidAuthid(t: Text) {
    && |t| >= 6 && t[..6] == STEAM && Colons(t) == 2
    && forall k | 0 <= k < |t| && t[k] != COLON :: SegmentChar(t[k]) && t[k] != MINUS && t[k] != '.' as int
  }

  lemma {:induction false} NoColons(t: Text)
    requires forall k | 0 <= k < |t| :: t[k] != COLON
    ensures Colons(t) == 0
  {
    if t != [] { NoColons(t[1..]); }
  }

  lemma {:induction false} ColonsOfBoth(a: Text, b: Text)
    ensures Colons(a + b) == Colons(a) + Colons(b)
  {
    if a == [] {
      assert a + b == b;
    } else {
      assert (a + b)[0] == a[0] && (a + b)[1..] == a[1..] + b;
      ColonsOfBoth(a[1..], b);
    }
  }

  lemma ColonsOfOne(c: Byte)
    ensures Colons([c]) == if c == COLON then 1 else 0
  {
    assert [c][1..] == [];
  }

  lemma FourOfThem(x: Byte, y: Byte)
    requires x != COLON && y != COLON
    ensures Colons(STEAM) == 0 && Colons([x, COLON, y, COLON]) == 2
  {
    NoColons(STEAM);
    ColonsOfOne(x);
    ColonsOfOne(y);
    ColonsOfOne(COLON);
    ColonsOfBoth([x], [COLON]);
    ColonsOfBoth([x] + [COLON], [y]);
    ColonsOfBoth([x] + [COLON] + [y], [COLON]);
    assert [x] + [COLON] + [y] + [COLON] == [x, COLON, y, COLON];
  }

  /** The full form of a steamid gives the short one back, and is one the module accepts exactly if the short one holds
      neither a dash nor a dot. */
  lemma SteamidReadsBack(s: Text)
    requires ValidSegment(s) && |s| >= 2
    ensures |FullSteamid(s)| >= 10 && ShortSteamid(FullSteamid(s)) == s
    ensures ValidAuthid(FullSteamid(s)) <==> MINUS !in s && '.' as int !in s
  {
    var t, mid := FullSteamid(s), [s[0], COLON, s[1], COLON];
    assert forall k | 0 <= k < |s| :: SegmentChar(s[k]) && s[k] != COLON;
    assert t == STEAM + mid + s[2..];
    assert t[10..] == s[2..] && t[6] == s[0] && t[8] == s[1];
    assert s == [s[0], s[1]] + s[2..];
    FourOfThem(s[0], s[1]);
    NoColons(s[2..]);
    ColonsOfBoth(STEAM, mid);
    ColonsOfBoth(STEAM + mid, s[2..]);
    hide Colons, SegmentChar, ShortSteamid;
    PlainAuthid(s, t);
  }

  lemma PlainAuthid(s: Text, t: Text)
    requires |s| >= 2 && t == STEAM + [s[0], COLON, s[1], COLON] + s[2..] && Colons(t) == 2
    requires forall k | 0 <= k < |s| :: SegmentChar(s[k]) && s[k] != COLON
    ensures ValidAuthid(t) <==> MINUS !in s && '.' as int !in s
  {
    hide Colons;
    assert t[..6] == STEAM && t[6] == s[0] && t[8] == s[1];
    assert forall k | 2 <= k < |s| :: t[k + 8] == s[k];
    assert forall k | 10 <= k < |t| :: t[k] == s[k - 8];
    if MINUS !in s && '.' as int !in s {
      forall k | 0 <= k < |t| && t[k] != COLON ensures SegmentChar(t[k]) && t[k] != MINUS && t[k] != '.' as int {
        if k >= 10 { assert t[k] == s[k - 8] && s[k - 8] in s; }
      }
    } else {
      var k :| 0 <= k < |s| && (s[k] == MINUS || s[k] == '.' as int);
      var j := if k == 0 then 6 else if k == 1 then 8 else k + 8;
      assert t[j] == s[k] && t[j] != COLON;
    }
  }

  // ---------------------------------------------------------------- one signal

  /** START with usable names opens a fresh capture for the slot, with nothing in it but its header. */
  lemma StartOpens(s: State, id: nat, sig: Signal)
    requires Sound(s) && Admissible(s, id, sig) && sig.RunStart?
    requires ValidSegment(sig.steamid) && ValidSegment(MapName(s.header))
    ensures var t, p := Step(s, id, sig), Temp(MapName(s.header), sig.steamid);
      && |t.slots| == SLOTS && Open(t, id) && FileOf(t, id) == p
      && p in t.files && t.files[p] == StartHeader(s.header, sig.ts, sig.steamid, sig.nick)
      && t.slots[id].checkpoints == 0 && t.slots[id].gochecks == 0 && t.slots[id].counter == 0
      && t.files.Keys == s.files.Keys + {p} && t.out == s.out
  {
    hide ValidSegment, MapName, StartHeader;
  }

  /** UNPAUSE opens a capture exactly if there is one for the player on this map, at its end and to start with a
      keyframe. */
  lemma UnpauseOpensExactly(s: State, id: nat, sig: Signal)
    requires Sound(s) && Admissible(s, id, sig) && sig.RunUnpause?
    requires ValidSegment(sig.steamid) && ValidSegment(MapName(s.header))
    ensures var t, p := Step(s, id, sig), Temp(MapName(s.header), sig.steamid);
      && |t.slots| == SLOTS && (Open(t, id) <==> p in s.files)
      && (Open(t, id) ==> FileOf(t, id) == p && t.slots[id].fd.value.pos == |s.files[p]|)
      && t.slots[id].counter == 0 && t.files == s.files && t.out == s.out
  {
    hide ValidSegment, MapName, Field32;
  }

  /** PAUSE closes the slot's file, and UNPAUSE then gives back what the slot had: file, place and counters. */
  lemma PauseIsUndone(s: State, id: nat, steamid: Text)
    requires Sound(s) && id < SLOTS && Open(s, id) && ValidSegment(steamid) && ValidSegment(MapName(s.header))
    requires FileOf(s, id) == Temp(MapName(s.header), steamid) && Measured(s.files[FileOf(s, id)])
    requires s.slots[id].checkpoints < U32 && s.slots[id].gochecks < U32
    ensures Admissible(s, id, RunPause) && !Open(Step(s, id, RunPause), id)
    ensures Sound(Step(s, id, RunPause)) && Admissible(Step(s, id, RunPause), id, RunUnpause(steamid))
    ensures var t := Step(Step(s, id, RunPause), id, RunUnpause(steamid));
      && |t.slots| == SLOTS && Open(t, id) && t.slots[id].fd == s.slots[id].fd
      && t.slots[id].checkpoints == s.slots[id].checkpoints && t.slots[id].gochecks == s.slots[id].gochecks
      && t.files[FileOf(s, id)][HEADER_SIZE..] == s.files[FileOf(s, id)][HEADER_SIZE..]
  {
    hide ValidSegment, MapName, Field32, StampCounts;
    var f, slot := s.files[FileOf(s, id)], s.slots[id];
    StampedFields(f, slot.checkpoints, slot.gochecks);
    StampedBody(f, slot.checkpoints, slot.gochecks);
  }

  lemma StampedBody(f: seq<Byte>, checkpoints: nat, gochecks: nat)
    requires |f| >= HEADER_SIZE
    ensures StampCounts(f, checkpoints, gochecks)[HEADER_SIZE..] == f[HEADER_SIZE..]
  {
    StampedSame(f, checkpoints, gochecks);
    var g, n := StampCounts(f, checkpoints, gochecks), HEADER_SIZE - SIZE_TYPES_AT;
    assert g[HEADER_SIZE..] == g[SIZE_TYPES_AT..][n..] && f[HEADER_SIZE..] == f[SIZE_TYPES_AT..][n..];
  }

  /** REJECT closes the slot, forgets its counters, and deletes exactly the file it was recording, if it is told to. */
  lemma RejectDeletesExactly(s: State, id: nat, deleteFile: bool)
    requires Sound(s) && id < SLOTS
    ensures Admissible(s, id, RunReject(deleteFile))
    ensures var t := Step(s, id, RunReject(deleteFile));
      && |t.slots| == SLOTS && !Open(t, id) && t.slots[id].checkpoints == 0 && t.slots[id].gochecks == 0
      && (forall p :: p in t.files <==> p in s.files && !(deleteFile && Open(s, id) && p == FileOf(s, id)))
      && (forall p | p in t.files :: t.files[p] == s.files[p]) && t.out == s.out
  {
  }

  /** FINISH closes the slot and takes the recording away: it is under its final name, or nowhere and nothing handed
      over. */
  lemma FinishTakesAway(s: State, id: nat, sig: Signal)
    requires Sound(s) && Admissible(s, id, sig) && sig.RunFinish? && Open(s, id)
    ensures var t, p := Step(s, id, sig), FileOf(s, id);
      && |t.slots| == SLOTS && !Open(t, id) && p !in t.files
      && if FinishPath(s, id, sig).Some? then FinishPath(s, id, sig).value in t.files && |t.out| == |s.out| + 1
         else t.files == s.files - {p} && t.out == s.out
  {
    hide ValidSegment, FileMap, FinishHeader, FinalUid, Load;
  }

  /** The finished file is the recording with the player's nickname, cut to the field, and the run counts put in. */
  lemma FinishedHeaderReads(f: seq<Byte>, nick: Text, checkpoints: nat, gochecks: nat)
    requires |f| >= HEADER_SIZE && NoZero(nick) && checkpoints < U32 && gochecks < U32
    ensures var g := FinishHeader(f, nick, checkpoints, gochecks);
      && CString(g[NAME_AT..NAME_AT + 32]) == Fitted(nick, 32)
      && Field32(g, CHECKPOINTS_AT) == checkpoints && Field32(g, TELEPORTS_AT) == gochecks
      && g[..NAME_AT] == f[..NAME_AT] && g[STEAMID_AT..CHECKPOINTS_AT] == f[STEAMID_AT..CHECKPOINTS_AT]
      && g[TIMESTAMP_AT..] == f[TIMESTAMP_AT..]
  {
    hide CString, Field32, Put32;
    var name := if |nick| < 32 then nick + Zeroes(32 - |nick|) else nick[..31] + [0];
    var h := WriteAt(f, NAME_AT, name);
    StampedFields(h, checkpoints, gochecks);
    StampKeeps(h, checkpoints, gochecks, NAME_AT, NAME_AT + 32);
    StampKeeps(h, checkpoints, gochecks, 0, NAME_AT);
    StampKeeps(h, checkpoints, gochecks, STEAMID_AT, CHECKPOINTS_AT);
    StampKeeps(h, checkpoints, gochecks, TIMESTAMP_AT, |f|);
    PatchKeeps(f, NAME_AT, name, 0, NAME_AT);
    PatchKeeps(f, NAME_AT, name, STEAMID_AT, CHECKPOINTS_AT);
    PatchKeeps(f, NAME_AT, name, TIMESTAMP_AT, |f|);
    var g := FinishHeader(f, nick, checkpoints, gochecks);
    assert g[0..NAME_AT] == g[..NAME_AT] && f[0..NAME_AT] == f[..NAME_AT];
    assert g[TIMESTAMP_AT..|f|] == g[TIMESTAMP_AT..] && f[TIMESTAMP_AT..|f|] == f[TIMESTAMP_AT..];
    var u := Fitted(nick, 32);
    FittedIsClean(nick, 32);
    assert name[..|u|] == u && name[|u|] == 0;
    TextReadsBack(name, u);
  }

  lemma StampKeeps(f: seq<Byte>, checkpoints: nat, gochecks: nat, i: nat, j: nat)
    requires |f| >= HEADER_SIZE && i <= j <= |f| && (j <= CHECKPOINTS_AT || TIMESTAMP_AT <= i)
    ensures StampCounts(f, checkpoints, gochecks)[i..j] == f[i..j]
  {
    hide Put32;
    PatchKeeps(f, CHECKPOINTS_AT, Put32(checkpoints), i, j);
    PatchKeeps(WriteAt(f, CHECKPOINTS_AT, Put32(checkpoints)), TELEPORTS_AT, Put32(gochecks), i, j);
  }

  /** START and UNPAUSE with an unusable name open nothing and touch no file; START closes what was open. */
  lemma UnusableNamesOpenNothing(s: State, id: nat, sig: Signal)
    requires Sound(s) && Admissible(s, id, sig) && (sig.RunStart? || sig.RunUnpause?)
    requires !ValidSegment(sig.steamid) || !ValidSegment(MapName(s.header))
    ensures var t := Step(s, id, sig);
      && |t.slots| == SLOTS && t.files == s.files && t.out == s.out
      && if sig.RunStart? then !Open(t, id) else t.slots == s.slots
  {
    hide ValidSegment, MapName;
  }

  // ---------------------------------------------------------------- the map of a recording

  /** The map a file's header names. */
  function MapIn(f: seq<Byte>): Text
    requires |f| >= HEADER_SIZE
  {
    CString(f[MAP_AT..CHECKPOINTS_AT - 4])
  }

  predicate SameMapField(f: seq<Byte>, g: seq<Byte>) {
    |f| >= HEADER_SIZE && |g| >= HEADER_SIZE && f[MAP_AT..CHECKPOINTS_AT - 4] == g[MAP_AT..CHECKPOINTS_AT - 4]
  }

  /** Each recording of `t` is one of `s`, with the same map in it. */
  predicate SameMaps(s: State, t: State) {
    forall p: Path | p in t.files && p.Temp? :: p in s.files && SameMapField(s.files[p], t.files[p])
  }

  lemma AppendKeepsMaps(s: State, id: nat, data: seq<Byte>)
    requires Sound(s) && id < SLOTS && Open(s, id)
    ensures SameMaps(s, Append(s, id, data))
  {
    var f := s.files[FileOf(s, id)];
    var g := WriteAt(f, |f|, data);
    assert g[..|f|] == f;
    assert g[MAP_AT..CHECKPOINTS_AT - 4] == f[MAP_AT..CHECKPOINTS_AT - 4];
    hide WriteAt;
  }

  lemma PauseKeepsMaps(s: State, id: nat)
    requires Sound(s) && id < SLOTS
    ensures SameMaps(s, OnPause(s, id))
  {
    if Open(s, id) {
      var f := s.files[FileOf(s, id)];
      StampKeeps(f, s.slots[id].checkpoints, s.slots[id].gochecks, MAP_AT, CHECKPOINTS_AT - 4);
    }
    hide StampCounts;
  }

  lemma OthersKeepMaps(s: State, id: nat, sig: Signal)
    requires Sound(s) && Admissible(s, id, sig) && !sig.RunStart?
    ensures SameMaps(s, Step(s, id, sig))
  {
    hide OnPause, Append, ValidSegment, MapName, FileMap, FinalUid, FinishHeader, Load, Encode, FrameRecord, ReadRun;
    match sig
    case RunEvent(e) => if Open(s, id) { AppendKeepsMaps(s, id, Encode(KrpFormat.Event(e))); }
    case RunFrame(f) => if Open(s, id) { AppendKeepsMaps(s, id, Encode(FrameRecord(s.slots[id], f))); }
    case RunPause => PauseKeepsMaps(s, id);
    case _ =>
  }

  /** Every recording is in the directory of the map its header names. */
  predicate MapsMatch(s: State) {
    forall p: Path | p in s.files && p.Temp? :: |s.files[p]| >= HEADER_SIZE && MapIn(s.files[p]) == p.map_
  }

  lemma MapsStay(s: State, t: State)
    requires MapsMatch(s) && SameMaps(s, t)
    ensures MapsMatch(t)
  {
    hide CString;
  }

  lemma StartMatches(s: State, id: nat, sig: Signal)
    requires Sound(s) && Admissible(s, id, sig) && sig.RunStart? && MapsMatch(s)
    ensures MapsMatch(OnStart(s, id, sig))
  {
    StartedField(s.header, sig.ts, sig.steamid, sig.nick);
    hide CString, ValidSegment, StartHeader;
  }

  lemma StartedField(h: seq<Byte>, ts: nat, steamid: Text, nick: Text)
    requires |h| == HEADER_SIZE
    ensures SameMapField(h, StartHeader(h, ts, steamid, nick))
  {
    KeptByStart(h, ts, nick, FullSteamid(steamid), MAP_AT, CHECKPOINTS_AT - 4);
    hide PrintField, Store, FullSteamid;
  }

  lemma TakeMatches(s0: State, a0: Logs, i: Input, s: State, a: Logs)
    requires TakesTo(s0, a0, i, s, a) && MapsMatch(s0)
    ensures MapsMatch(s)
  {
    hide MapsMatch, Sound, LogSound, Admissible, OnStart, TemplateReady;
    if i.Sent? && i.sig.RunStart? {
      StartMatches(s0, i.id, i.sig);
    } else if i.Sent? {
      OthersKeepMaps(s0, i.id, i.sig);
      hide Step;
      MapsStay(s0, s);
    } else {
      QuietKeepsMaps(s0, i);
      MapsStay(s0, s);
    }
  }

  lemma QuietKeepsMaps(s: State, i: Input)
    requires Sound(s) && CanTake(s, i) && !i.Sent?
    ensures SameMaps(s, Take(s, i))
  {
    hide TemplateReady;
  }

  /** After every history a recording lies in the directory of the map its header names. */
  lemma {:induction false} EveryMapMatches(inputs: seq<Input>, s: State, a: Logs)
    requires Reached(inputs, s, a)
    ensures MapsMatch(s)
    decreases |inputs|
  {
    hide MapsMatch, TakesTo;
    if inputs == [] {
      NothingToMatch(s);
    } else {
      var front, i := inputs[..|inputs| - 1], inputs[|inputs| - 1];
      var s0, a0 :| Reached(front, s0, a0) && TakesTo(s0, a0, i, s, a);
      EveryMapMatches(front, s0, a0);
      TakeMatches(s0, a0, i, s, a);
    }
  }

  lemma NothingToMatch(s: State)
    requires s.files == map[]
    ensures MapsMatch(s)
  {
  }

  /** A field cut short reads as the text cut short. */
  lemma {:induction false} CutField(s: seq<Byte>, n: nat)
    requires n <= |s|
    ensures CString(s[..n]) == if |CString(s)| <= n then CString(s) else CString(s)[..n]
  {
    if n > 0 && s[0] != 0 {
      assert s[..n][1..] == s[1..][..n - 1];
      CutField(s[1..], n - 1);
    }
  }

  /** So after every history a submission names the map its run was recorded on, cut to the 63 characters that are read
      of the field. */
  lemma SubmissionNamesItsMap(inputs: seq<Input>, s: State, a: Logs, id: nat, sig: Signal)
    requires Reached(inputs, s, a) && Sound(s) && Admissible(s, id, sig) && sig.RunFinish?
    requires FinishPath(s, id, sig).Some? && sig.submit && !sig.noSubmit
    ensures Open(s, id) && FileOf(s, id).Temp?
    ensures var t, n, map_ := Step(s, id, sig), |s.out|, FileOf(s, id).map_;
      && |t.out| == n + 1 && t.out[n].AddRecord?
      && t.out[n].map_ == if |map_| <= 63 then map_ else map_[..63]
  {
    hide Reached, Admissible, Step, FinishPath, FileMap, MapIn, CString, ValidSegment, FullSteamid;
    FinishHandsOver(s, id, sig);
    assert FileOf(s, id).Temp? && id < SLOTS;
    hide Sound;
    EveryMapMatches(inputs, s, a);
    PublishesExactly(s, id, sig);
    FileMapIs(s.files[FileOf(s, id)]);
  }

  lemma FileMapIs(f: seq<Byte>)
    requires |f| >= HEADER_SIZE && Measured(f)
    ensures FileMap(f) == if |MapIn(f)| <= 63 then MapIn(f) else MapIn(f)[..63]
  {
    hide CString;
    CutField(f[MAP_AT..CHECKPOINTS_AT - 4], 63);
    assert f[MAP_AT..CHECKPOINTS_AT - 4][..63] == f[MAP_AT..MAP_AT + 63];
  }

  // ---------------------------------------------------------------- names and submissions

  /** The name of a submission says what the submission says: whoever parses it reads the submitted time, and class 1
      exactly if the submitted gochecks are not 0. */
  lemma SubmissionMatchesItsName(s: State, id: nat, sig: Signal)
    requires Sound(s) && Admissible(s, id, sig) && sig.RunFinish? && FinishPath(s, id, sig).Some?
    requires sig.submit && !sig.noSubmit && sig.prefix == 0 && sig.timeMs < U32
    ensures var t, n := Step(s, id, sig), |s.out|;
      && |t.out| == n + 1 && t.out[n].AddRecord?
      && ParseUid(t.out[n].uid + KRPZ) == Some((if t.out[n].gochecks > 0 then 1 else 0, t.out[n].timeMs))
  {
    FinishHandsOver(s, id, sig);
    hide ValidSegment, FileMap, FinishHeader, Load, Base36, RunUid, ParseUid;
    var slot, f := s.slots[id], s.files[FileOf(s, id)];
    ParsePrinted(if slot.gochecks > 0 then 1 else 0, sig.timeMs, sig.steamid,
      Base36(Load(f[TIMESTAMP_AT..TIMESTAMP_AT + 8])));
  }

  /** The run of a banned player, or of one with an explicit letter for a prefix, is kept under a name that never
      ranks. */
  lemma MarkedRunsNeverRank(slot: Slot, sig: Signal, ts: nat)
    requires sig.RunFinish? && (sig.noSubmit || sig.prefix > 0)
    ensures var uid := FinalUid(slot, sig, ts);
      && uid != [] && uid[0] == (if sig.prefix > 0 then sig.prefix else 'x' as int)
      && (!IsDigit(uid[0]) && !IsSpace(uid[0]) && uid[0] != MINUS && uid[0] != PLUS ==> ParseUid(uid + KRPZ) == None)
  {
    hide Base36, RunUid, ParseUid;
    var uid := FinalUid(slot, sig, ts);
    if !IsDigit(uid[0]) && !IsSpace(uid[0]) && uid[0] != MINUS && uid[0] != PLUS { OtherPrefixNeverParses(uid + KRPZ); }
  }
}
