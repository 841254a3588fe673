/** Every finished run has a name of its own: when no player starts two runs at the same moment, no two names that
    FINISH gives in a history are the same, so no finished replay replaces another and no submission is new twice. */
module RunNames {
  import opened Options
  import opened Bytes
  import opened KrpFormat
  import opened ReplayNames
  import opened WriterSpec
  import opened WriterRuns

  /** Who started a run, and when. */
  datatype Key = Key(steamid: Text, ts: nat)

  /** The runs started so far, and those that FINISH has named, in the order of `State.out`. */
  datatype Register = Register(started: set<Key>, named: seq<Key>)

  function StampOf(f: seq<Byte>): nat
    requires |f| >= HEADER_SIZE
  {
    Load(f[TIMESTAMP_AT..TIMESTAMP_AT + 8])
  }

  function KeyOf(p: Path, f: seq<Byte>): Key
    requires p.Temp? && |f| >= HEADER_SIZE
  {
    Key(p.steamid, StampOf(f))
  }

  function Enter(s: State, r: Register, i: Input): Register
    requires Sound(s) && CanTake(s, i)
  {
    if !i.Sent? then r
    else if i.sig.RunStart? then r.(started := r.started + {Key(i.sig.steamid, i.sig.ts)})
    else if i.sig.RunFinish? && FinishPath(s, i.id, i.sig).Some? then
      r.(named := r.named + [KeyOf(FileOf(s, i.id), s.files[FileOf(s, i.id)])])
    else r
  }

  /** No player starts two runs at the same moment, and FINISH comes from the player who records. */
  predicate OneRunEach(s: State, r: Register, i: Input)
    requires Sound(s) && CanTake(s, i)
  {
    i.Sent? ==>
      && (i.sig.RunStart? ==> Key(i.sig.steamid, i.sig.ts) !in r.started)
      && (i.sig.RunFinish? && Open(s, i.id) ==> FileOf(s, i.id).steamid == i.sig.steamid)
  }

  ghost predicate Entered(s0: State, a0: Logs, r0: Register, i: Input, s: State, a: Logs, r: Register) {
    TakesTo(s0, a0, i, s, a) && OneRunEach(s0, r0, i) && r == Enter(s0, r0, i)
  }

  /** A history in which every START is a run of its own. */
  ghost predicate Registered(inputs: seq<Input>, s: State, a: Logs, r: Register)
    decreases |inputs|
  {
    if inputs == [] then s == Booted() && a == NoLogs() && r == Register({}, []) else
      var i := inputs[|inputs| - 1];
      exists s0, a0, r0 :: Registered(inputs[..|inputs| - 1], s0, a0, r0) && Entered(s0, a0, r0, i, s, a, r)
  }

  /** The name is one FINISH gives to the run: its class and first character do not matter. */
  predicate NamesAt(uid: Text, key: Key, timeMs: nat) {
    uid != [] && uid[1..] == RunUid(0, timeMs, key.steamid, Base36(key.ts))[1..]
  }

  ghost predicate Names(uid: Text, key: Key) {
    exists timeMs :: NamesAt(uid, key, timeMs)
  }

  lemma SameTail(c: nat, timeMs: nat, sid: Text, ts: Text)
    requires c < 10
    ensures RunUid(c, timeMs, sid, ts) == [ZERO + c] + RunUid(0, timeMs, sid, ts)[1..]
  {
    hide Decimal8;
  }

  /** A name belongs to one run. */
  lemma NameOfOne(uid: Text, other: Text, k: Key, k': Key)
    requires Names(uid, k) && Names(other, k') && uid != [] && other != [] && uid[1..] == other[1..]
    ensures k == k'
  {
    hide RunUid, Base36;
    var t :| NamesAt(uid, k, t);
    var t' :| NamesAt(other, k', t');
    SameTail(0, t, k.steamid, Base36(k.ts));
    SameTail(0, t', k'.steamid, Base36(k'.ts));
    StampsTellRunsApart(0, t, k.steamid, k.ts, 0, t', k'.steamid, k'.ts);
  }

  lemma FinalUidNames(slot: Slot, sig: Signal, ts: nat)
    requires sig.RunFinish?
    ensures Names(FinalUid(slot, sig, ts), Key(sig.steamid, ts))
  {
    hide Base36, RunUid;
    SameTail(if slot.gochecks > 0 then 1 else 0, sig.timeMs, sig.steamid, Base36(ts));
    assert NamesAt(FinalUid(slot, sig, ts), Key(sig.steamid, ts), sig.timeMs);
  }

  // ---------------------------------------------------------------- the start of a run stays in its header

  lemma StampStays(f: seq<Byte>, at: nat, data: seq<Byte>)
    requires |f| >= HEADER_SIZE && at <= |f|
    requires at + |data| <= TIMESTAMP_AT || (TIMESTAMP_AT + 8 <= at && (at + |data| <= |f| || at == |f|))
    ensures |WriteAt(f, at, data)| >= HEADER_SIZE && StampOf(WriteAt(f, at, data)) == StampOf(f)
  {
    hide Load;
    if at + |data| <= |f| {
      PatchKeeps(f, at, data, TIMESTAMP_AT, TIMESTAMP_AT + 8);
    } else {
      var g := WriteAt(f, at, data);
      assert g[..at][TIMESTAMP_AT..TIMESTAMP_AT + 8] == g[TIMESTAMP_AT..TIMESTAMP_AT + 8];
      assert f[..at][TIMESTAMP_AT..TIMESTAMP_AT + 8] == f[TIMESTAMP_AT..TIMESTAMP_AT + 8];
    }
  }

  lemma RunKeepsStamp(f: seq<Byte>, checkpoints: nat, gochecks: nat)
    requires |f| >= HEADER_SIZE
    ensures StampOf(WriteRun(f, checkpoints, gochecks)) == StampOf(f)
  {
    hide Load, Put32;
    StampStays(f, CHECKPOINTS_AT, Put32(checkpoints));
    StampStays(WriteAt(f, CHECKPOINTS_AT, Put32(checkpoints)), TELEPORTS_AT, Put32(gochecks));
  }

  lemma StartStamps(h: seq<Byte>, ts: nat, steamid: Text, nick: Text)
    requires |h| == HEADER_SIZE && ts < U64
    ensures StampOf(StartHeader(h, ts, steamid, nick)) == ts
  {
    Pow2Of64();
    LoadStore(ts, 8);
    hide Load, Store, FullSteamid;
    var h1 := WriteAt(h, TIMESTAMP_AT, Store(ts, 8));
    var n := (if |nick| < 32 then nick else nick[..31]) + [0];
    StampStays(h1, NAME_AT, n);
    var t := FullSteamid(steamid);
    StampStays(WriteAt(h1, NAME_AT, n), STEAMID_AT, (if |t| < 35 then t else t[..34]) + [0]);
  }

  /** Each recording of `t` is one of `s`, started at the same moment. */
  predicate SameStarts(s: State, t: State) {
    forall p: Path | p in t.files && p.Temp? ::
      && p in s.files && |t.files[p]| >= HEADER_SIZE && |s.files[p]| >= HEADER_SIZE
      && StampOf(t.files[p]) == StampOf(s.files[p])
  }

  lemma AppendKeepsStarts(s: State, id: nat, data: seq<Byte>)
    requires Sound(s) && id < SLOTS && Open(s, id)
    ensures SameStarts(s, Append(s, id, data))
  {
    var f := s.files[FileOf(s, id)];
    StampStays(f, |f|, data);
    hide StampOf, WriteAt;
  }

  lemma PauseKeepsStarts(s: State, id: nat)
    requires Sound(s) && id < SLOTS
    ensures SameStarts(s, OnPause(s, id))
  {
    if Open(s, id) {
      RunKeepsStamp(s.files[FileOf(s, id)], s.slots[id].checkpoints, s.slots[id].gochecks);
    }
    hide StampOf, WriteRun;
  }

  /** Only START begins a recording. */
  lemma OnlyStartStarts(s: State, id: nat, sig: Signal)
    requires Sound(s) && Admissible(s, id, sig) && !sig.RunStart?
    ensures SameStarts(s, Step(s, id, sig))
  {
    hide StampOf, OnPause, Append, ValidSegment, MapName, FileMap, FinalUid, FinishHeader, Load, Encode, FrameRecord,
      ReadRun;
    match sig
    case RunEvent(e) => if Open(s, id) { AppendKeepsStarts(s, id, Encode(KrpFormat.Event(e))); }
    case RunFrame(f) => if Open(s, id) { AppendKeepsStarts(s, id, Encode(FrameRecord(s.slots[id], f))); }
    case RunPause => PauseKeepsStarts(s, id);
    case _ =>
  }

  // ---------------------------------------------------------------- the invariant

  /** Recordings and named runs are all different runs, and each name is that of its run. */
  ghost predicate AllApart(s: State, r: Register) {
    && |r.named| == |s.out|
    && (forall n: nat | n < |s.out| :: Names(s.out[n].uid, r.named[n]) && r.named[n] in r.started)
    && (forall m: nat, n: nat | m < n < |r.named| :: r.named[m] != r.named[n])
    && (forall p: Path | p in s.files && p.Temp? ::
      |s.files[p]| >= HEADER_SIZE && KeyOf(p, s.files[p]) in r.started && KeyOf(p, s.files[p]) !in r.named)
    && forall p: Path, q: Path | p in s.files && q in s.files && p.Temp? && q.Temp? && p != q ::
      KeyOf(p, s.files[p]) != KeyOf(q, s.files[q])
  }

  lemma StaysApart(s: State, r: Register, t: State)
    requires AllApart(s, r) && SameStarts(s, t) && t.out == s.out
    ensures AllApart(t, r)
  {
    hide StampOf, Names;
  }

  lemma StartApart(s: State, r: Register, id: nat, sig: Signal)
    requires Sound(s) && Admissible(s, id, sig) && sig.RunStart? && AllApart(s, r)
    requires Key(sig.steamid, sig.ts) !in r.started
    ensures AllApart(OnStart(s, id, sig), r.(started := r.started + {Key(sig.steamid, sig.ts)}))
  {
    StartStamps(s.header, sig.ts, sig.steamid, sig.nick);
    hide StampOf, Names, ValidSegment, MapName, StartHeader;
    forall n: nat | n < |r.named| ensures r.named[n] != Key(sig.steamid, sig.ts) { assert r.named[n] in r.started; }
  }

  /** FINISH ends the recording and gives out a name. */
  ghost predicate Publishes(s: State, p: Path, t: State) {
    && p in s.files && p.Temp? && |s.files[p]| >= HEADER_SIZE
    && SameStarts(s, t) && p !in t.files
    && |t.out| == |s.out| + 1 && t.out[..|s.out|] == s.out && Names(t.out[|s.out|].uid, KeyOf(p, s.files[p]))
  }

  lemma FinishPublishes(s: State, id: nat, sig: Signal)
    requires Sound(s) && Admissible(s, id, sig) && sig.RunFinish? && FinishPath(s, id, sig).Some?
    requires FileOf(s, id).steamid == sig.steamid
    ensures Publishes(s, FileOf(s, id), OnFinish(s, id, sig))
  {
    OnlyStartStarts(s, id, sig);
    FinalUidNames(s.slots[id], sig, StampOf(s.files[FileOf(s, id)]));
    hide Names, ValidSegment, FileMap, FinalUid, FinishHeader, Load, SameStarts;
  }

  lemma NamedApart(s: State, r: Register, p: Path, t: State)
    requires AllApart(s, r) && Publishes(s, p, t)
    ensures AllApart(t, r.(named := r.named + [KeyOf(p, s.files[p])]))
  {
    hide StampOf, Names;
    var n := |s.out|;
    assert forall k: nat | k < n :: t.out[k] == t.out[..n][k];
  }

  lemma FinishApart(s: State, r: Register, id: nat, sig: Signal)
    requires Sound(s) && Admissible(s, id, sig) && sig.RunFinish? && AllApart(s, r)
    requires Open(s, id) ==> FileOf(s, id).steamid == sig.steamid
    ensures AllApart(OnFinish(s, id, sig), Enter(s, r, Sent(id, sig)))
  {
    hide AllApart, Publishes, StampOf, ValidSegment, FileMap, FinalUid, FinishHeader, Load;
    if FinishPath(s, id, sig).Some? {
      FinishPublishes(s, id, sig);
      NamedApart(s, r, FileOf(s, id), OnFinish(s, id, sig));
    } else {
      OnlyStartStarts(s, id, sig);
      StaysApart(s, r, OnFinish(s, id, sig));
    }
  }

  lemma OthersGiveNoName(s: State, id: nat, sig: Signal)
    requires Sound(s) && Admissible(s, id, sig) && !sig.RunFinish?
    ensures Step(s, id, sig).out == s.out
  {
    hide ValidSegment, MapName, StartHeader, Encode, FrameRecord, WriteAt, WriteRun, ReadRun;
  }

  lemma TakeApart(s0: State, a0: Logs, r0: Register, i: Input, s: State, a: Logs, r: Register)
    requires Entered(s0, a0, r0, i, s, a, r) && AllApart(s0, r0)
    ensures AllApart(s, r)
  {
    hide AllApart, Sound, LogSound, Admissible, OnStart, OnFinish, FinishPath;
    if i.Sent? && i.sig.RunStart? {
      StartApart(s0, r0, i.id, i.sig);
    } else if i.Sent? && i.sig.RunFinish? {
      FinishApart(s0, r0, i.id, i.sig);
    } else if i.Sent? {
      OnlyStartStarts(s0, i.id, i.sig);
      OthersGiveNoName(s0, i.id, i.sig);
      hide Step;
      StaysApart(s0, r0, s);
    } else {
      NothingStarts(s0, i);
      StaysApart(s0, r0, s);
    }
  }

  lemma NothingStarts(s: State, i: Input)
    requires Sound(s) && CanTake(s, i) && !i.Sent?
    ensures SameStarts(s, Take(s, i)) && Take(s, i).out == s.out
  {
    hide StampOf, TemplateReady;
  }

  /** In every history in which each START is a run of its own, recordings and finished runs stay apart. */
  lemma {:induction false} EveryRunApart(inputs: seq<Input>, s: State, a: Logs, r: Register)
    requires Registered(inputs, s, a, r)
    ensures Reached(inputs, s, a) && AllApart(s, r)
    decreases |inputs|
  {
    hide AllApart, Enter, OneRunEach, TakesTo;
    if inputs == [] {
      BootedApart();
    } else {
      var front, i := inputs[..|inputs| - 1], inputs[|inputs| - 1];
      var s0, a0, r0 :| Registered(front, s0, a0, r0) && Entered(s0, a0, r0, i, s, a, r);
      EveryRunApart(front, s0, a0, r0);
      TakeApart(s0, a0, r0, i, s, a, r);
    }
  }

  lemma BootedApart()
    ensures AllApart(Booted(), Register({}, []))
  {
  }

  /** Then no name is given twice, not even with another first character: the file a FINISH moves a recording to
      is never one an earlier FINISH has named, and each submission is of a run not submitted before. */
  lemma EveryRunHasItsOwnName(inputs: seq<Input>, s: State, a: Logs, r: Register, m: nat, n: nat)
    requires Registered(inputs, s, a, r) && m < n < |s.out|
    ensures s.out[m].uid != [] && s.out[n].uid != [] && s.out[m].uid[1..] != s.out[n].uid[1..]
  {
    EveryRunApart(inputs, s, a, r);
    hide Registered, Reached;
    assert Names(s.out[m].uid, r.named[m]) && Names(s.out[n].uid, r.named[n]) && r.named[m] != r.named[n];
    if s.out[m].uid[1..] == s.out[n].uid[1..] {
      NameOfOne(s.out[m].uid, s.out[n].uid, r.named[m], r.named[n]);
    }
  }
}
