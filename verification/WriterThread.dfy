/** The writer thread itself: static per-player arrays updated in place by one signal after another.
    Each method is proved to do to the whole state what the state machine says. */
module WriterThread {
  import opened Options
  import opened Bytes
  import opened KrpFormat
  import opened KrpDelta
  import opened ReplayNames
  import opened WriterSpec
  import opened WriterRuns

  lemma AppendIsSound(s: State, id: nat, data: seq<Byte>)
    requires Sound(s) && id < SLOTS && Open(s, id)
    ensures Sound(Append(s, id, data)) && Open(Append(s, id, data), id)
  {
    var t := Append(s, id, data);
    hide WriteAt;
    forall j: nat | j < SLOTS && j != id && Open(s, j) ensures FileOf(s, j) != FileOf(s, id) {
      if id < j { assert FileOf(s, id) != FileOf(s, j); } else { assert FileOf(s, j) != FileOf(s, id); }
    }
    forall i: nat, j: nat | i < j < SLOTS && Open(t, i) && Open(t, j) ensures FileOf(t, i) != FileOf(t, j) {
      assert Open(s, i) && Open(s, j) && FileOf(s, i) != FileOf(s, j);
    }
  }

  /** Consecutive writes to a slot's file are one write. */
  lemma AppendTwice(s: State, id: nat, a: seq<Byte>, b: seq<Byte>)
    requires Sound(s) && id < SLOTS && Open(s, id) && Sound(Append(s, id, a))
    ensures Append(Append(s, id, a), id, b) == Append(s, id, a + b)
  {
    var h := s.slots[id].fd.value;
    var f := s.files[h.path];
    assert WriteAt(WriteAt(f, |f|, a), |f| + |a|, b) == WriteAt(f, |f|, a + b);
    hide Sound, WriteAt;
    var t := Append(s, id, a);
    assert t.files[h.path := WriteAt(f, |f|, a + b)] == s.files[h.path := WriteAt(f, |f|, a + b)];
  }

  class Writer {
    var files: map<Path, seq<Byte>>
    var header: seq<Byte>
    var out: seq<Output>

    const fd: array<Option<Handle>>
    const filepath: array<Path>
    const last: array<seq<Byte>>
    const counter: array<nat>
    const checkpoints: array<nat>
    const gochecks: array<nat>

    ghost predicate Valid()
      reads this
    {
      && fd.Length == filepath.Length == last.Length == counter.Length == checkpoints.Length == gochecks.Length == SLOTS
      && counter != checkpoints && counter != gochecks && checkpoints != gochecks
    }

    ghost function SlotAt(id: nat): Slot
      requires Valid() && id < SLOTS
      reads this, fd, filepath, last, counter, checkpoints, gochecks
    {
      Slot(fd[id], filepath[id], last[id], counter[id], checkpoints[id], gochecks[id])
    }

    ghost function View(): (s: State)
      requires Valid()
      reads this, fd, filepath, last, counter, checkpoints, gochecks
      ensures |s.slots| == SLOTS
    {
      var slots := seq(SLOTS, i requires 0 <= i < SLOTS
                              reads this, fd, filepath, last, counter, checkpoints, gochecks => SlotAt(i));
      State(files, slots, header, out)
    }

    /** The statics of a freshly loaded module: no open file anywhere. */
    constructor ()
      ensures Valid() && fresh(fd) && fresh(filepath) && fresh(last) && fresh(counter) && fresh(checkpoints) &&
          fresh(gochecks)
      ensures View() == State(map[], seq(SLOTS, _ => Slot(None, Final([]), ZeroFrame(), 0, 0, 0)),
          Zeroes(HEADER_SIZE), [])
    {
      files, header, out := map[], Zeroes(HEADER_SIZE), [];
      fd := new Option<Handle>[SLOTS](_ => None);
      filepath := new Path[SLOTS](_ => Final([]));
      last := new seq<Byte>[SLOTS](_ => ZeroFrame());
      counter := new nat[SLOTS](_ => 0);
      checkpoints := new nat[SLOTS](_ => 0);
      gochecks := new nat[SLOTS](_ => 0);
    }

    /** The parts of the view that the methods look at before they write. */
    lemma SlotFacts(id: nat)
      requires Valid() && id < SLOTS && Sound(View())
      ensures View().slots[id] == SlotAt(id) && |last[id]| == FRAME_SIZE && |header| == HEADER_SIZE
      ensures Open(View(), id) <==> fd[id].Some?
      ensures fd[id].Some? ==> fd[id].value.path in files && filepath[id] == fd[id].value.path
      ensures forall p | p in files :: |files[p]| >= HEADER_SIZE
    {
      var s := View();
      assert s.slots[id] == SlotAt(id);
    }

    /** `fclose` and the null assignment. */
    method CloseFile(id: nat)
      requires Valid() && id < SLOTS
      modifies fd
      ensures Valid() && View() == Close(old(View()), id)
    {
      fd[id] := None;
    }

    /** `fwrite` at the file position. */
    method Write(id: nat, data: seq<Byte>)
      requires Valid() && id < SLOTS && Sound(View()) && Open(View(), id)
      modifies this`files, fd
      ensures Valid() && View() == Append(old(View()), id, data)
      ensures Sound(View()) && Open(View(), id)
    {
      AppendIsSound(View(), id, data);
      assert View().slots[id].fd == fd[id];
      hide Sound, WriteAt;
      var h := fd[id].value;
      files := files[h.path := WriteAt(files[h.path], h.pos, data)];
      fd[id] := Some(h.(pos := h.pos + |data|));
    }

    /** `kz_rp_write_frametype`, `kz_rp_write_event`. */
    method WriteEvent(id: nat, event: Byte)
      requires Valid() && id < SLOTS && Sound(View()) && Open(View(), id)
      modifies this`files, fd
      ensures Valid() && View() == Append(old(View()), id, Encode(KrpFormat.Event(event)))
    {
      hide Sound, Append;
      ghost var s := View();
      Write(id, [FRAMETYPE_EVENT]);
      Write(id, [event]);
      AppendTwice(s, id, [FRAMETYPE_EVENT], [event]);
      assert [FRAMETYPE_EVENT] + [event] == Encode(KrpFormat.Event(event));
    }

    /** A keyframe: type and all-ones mask, then `cmd`, `vars` and `glb` of the frame. */
    method WriteKeyframe(id: nat, frame: seq<Byte>)
      requires Valid() && id < SLOTS && Sound(View()) && Open(View(), id) && |frame| == FRAME_SIZE
      modifies this`files, fd
      ensures Valid() && View() == Append(old(View()), id, Encode(KeyRecord(frame)))
    {
      hide Sound, Append, Encode, FullMask;
      ghost var s := View();
      var t, m := [FRAMETYPE_KEYFRAME], FullMask();
      var cmd, vars, glb := frame[..48], frame[48..108], frame[108..];
      Write(id, t);
      Write(id, m);
      AppendTwice(s, id, t, m);
      Write(id, cmd);
      AppendTwice(s, id, t + m, cmd);
      Write(id, vars);
      AppendTwice(s, id, t + m + cmd, vars);
      Write(id, glb);
      AppendTwice(s, id, t + m + cmd + vars, glb);
      KeyRecordBytes(frame);
      WholeFrame(t + m, frame);
    }

    lemma WholeFrame(front: seq<Byte>, frame: seq<Byte>)
      requires |frame| == FRAME_SIZE
      ensures front + frame[..48] + frame[48..108] + frame[108..] == front + frame
    {
    }

    method WriteDeltaRecord(id: nat, frame: seq<Byte>)
      requires Valid() && id < SLOTS && Sound(View()) && Open(View(), id)
      requires |frame| == FRAME_SIZE && |last[id]| == FRAME_SIZE
      modifies this`files, fd
      ensures Valid() && View() == Append(old(View()), id, Encode(DeltaRecord(frame, last[id])))
    {
      hide Sound, Append, Encode, DeltaRecord;
      ghost var s := View();
      Write(id, [FRAMETYPE_DELTA]);
      var bytes := WriteDelta(frame, last[id]);
      Write(id, bytes);
      AppendTwice(s, id, [FRAMETYPE_DELTA], bytes);
    }

    /** The record the writer chooses for the frame. */
    method WriteFrame(id: nat, frame: seq<Byte>)
      requires Valid() && id < SLOTS && Sound(View()) && Open(View(), id)
      requires |frame| == FRAME_SIZE && |last[id]| == FRAME_SIZE
      modifies this`files, fd
      ensures Valid() && View() == Append(old(View()), id, Encode(FrameRecord(old(SlotAt(id)), frame)))
    {
      hide Sound, Encode, KeyRecord, DeltaRecord, Append;
      if counter[id] == 0 {
        WriteKeyframe(id, frame);
      } else {
        WriteDeltaRecord(id, frame);
      }
    }

    /** `memcpy` into `s_last` and the counter increment. */
    method Remember(id: nat, frame: seq<Byte>)
      requires Valid() && id < SLOTS
      modifies last, counter
      ensures Valid()
      ensures var t := old(View());
        View() == t.(slots := t.slots[id := t.slots[id].(last := frame, counter := (t.slots[id].counter + 1) % U32)])
    {
      last[id] := frame;
      counter[id] := (counter[id] + 1) % U32;
      assert View().slots == old(View()).slots[id := SlotAt(id)];
    }

    method OnFrame(id: nat, frame: seq<Byte>)
      requires Valid() && id < SLOTS && Sound(View()) && |frame| == FRAME_SIZE
      modifies this`files, fd, last, counter
      ensures Valid() && View() == OnFrameSignal(old(View()), id, frame)
    {
      hide Sound, Encode, FrameRecord, Append, Open;
      SlotFacts(id);
      if fd[id].Some? {
        WriteFrame(id, frame);
        Remember(id, frame);
      }
    }

    method OnEvent(id: nat, event: Byte)
      requires Valid() && id < SLOTS && Sound(View())
      modifies this`files, fd, checkpoints, gochecks
      ensures Valid() && View() == OnEventSignal(old(View()), id, event)
    {
      hide Sound, Encode, WriteAt;
      SlotFacts(id);
      if fd[id].Some? {
        WriteEvent(id, event);
      }
      ghost var t := View();
      if event == KRP_EVENT_CHECKPOINT {
        checkpoints[id] := (checkpoints[id] + 1) % U32;
      } else if event == KRP_EVENT_GOCHECK {
        gochecks[id] := (gochecks[id] + 1) % U32;
      }
    }

    method OnRunStart(id: nat, sig: Signal)
      requires Valid() && id < SLOTS && Sound(View()) && sig.RunStart?
      modifies this`files, fd, filepath, last, counter, checkpoints, gochecks
      ensures Valid() && View() == OnStart(old(View()), id, sig)
    {
      hide Sound, ValidSegment, MapName, StartHeader;
      SlotFacts(id);
      if fd[id].Some? { fd[id] := None; }
      var map_ := MapName(header);
      if !ValidSegment(sig.steamid) || !ValidSegment(map_) {
        assert View().slots == old(View()).slots[id := SlotAt(id)];
        return;
      }
      filepath[id] := Temp(map_, sig.steamid);
      files := files[filepath[id] := StartHeader(header, sig.ts, sig.steamid, sig.nick)];
      fd[id] := Some(Handle(filepath[id], HEADER_SIZE));
      last[id] := ZeroFrame();
      counter[id] := 0;
      checkpoints[id] := 0;
      gochecks[id] := 0;
      assert View().slots == old(View()).slots[id := SlotAt(id)];
    }

    method OnRunPause(id: nat)
      requires Valid() && id < SLOTS && Sound(View())
      modifies this`files, fd
      ensures Valid() && View() == WriterSpec.OnPause(old(View()), id)
    {
      hide Sound, WriteRun;
      SlotFacts(id);
      if fd[id].Some? {
        var p := fd[id].value.path;
        files := files[p := WriteRun(files[p], checkpoints[id], gochecks[id])];
        CloseFile(id);
      }
    }

    method OnRunUnpause(id: nat, steamid: Text)
      requires Valid() && id < SLOTS && Sound(View())
      modifies fd, filepath, counter, checkpoints, gochecks
      ensures Valid() && View() == WriterSpec.OnUnpause(old(View()), id, steamid)
    {
      hide Sound, ValidSegment, MapName, Field32;
      SlotFacts(id);
      var map_ := MapName(header);
      if !ValidSegment(steamid) || !ValidSegment(map_) { return; }
      filepath[id] := Temp(map_, steamid);
      if fd[id].Some? { fd[id] := None; }
      counter[id] := 0;
      if filepath[id] in files {
        var f := files[filepath[id]];
        fd[id] := Some(Handle(filepath[id], |f|));
        if Measured(f) {
          checkpoints[id], gochecks[id] := Field32(f, CHECKPOINTS_AT), Field32(f, TELEPORTS_AT);
        }
      }
      assert View().slots == old(View()).slots[id := SlotAt(id)];
    }

    method OnRunReject(id: nat, deleteFile: bool)
      requires Valid() && id < SLOTS && Sound(View())
      modifies this`files, fd, checkpoints, gochecks
      ensures Valid() && View() == WriterSpec.OnReject(old(View()), id, deleteFile)
    {
      hide Sound;
      SlotFacts(id);
      if fd[id].Some? {
        fd[id] := None;
        if deleteFile { files := files - {filepath[id]}; }
      }
      checkpoints[id], gochecks[id] := 0, 0;
      assert View().slots == old(View()).slots[id := SlotAt(id)];
    }

    /** The name under which FINISH saves the run. */
    method ComposeUid(id: nat, sig: Signal, file: seq<Byte>) returns (uid: Text)
      requires Valid() && id < SLOTS && sig.RunFinish? && |file| >= HEADER_SIZE
      ensures uid == FinalUid(SlotAt(id), sig, Load(file[TIMESTAMP_AT..TIMESTAMP_AT + 8]))
    {
      Pow2Of64();
      hide Load, Pow2, Base36, Decimal8;
      var ts := ToBase36(Load(file[TIMESTAMP_AT..TIMESTAMP_AT + 8]), 16);
      uid := RunUid(if gochecks[id] > 0 then 1 else 0, sig.timeMs, sig.steamid, ts);
      if sig.noSubmit { uid := uid[0 := 'x' as int]; }
      if sig.prefix > 0 { uid := uid[0 := sig.prefix]; }
    }

    method OnRunFinish(id: nat, sig: Signal)
      requires Valid() && id < SLOTS && Sound(View()) && sig.RunFinish?
      modifies this`files, this`out, fd
      ensures Valid() && View() == WriterSpec.OnFinish(old(View()), id, sig)
    {
      hide Sound, ValidSegment, FileMap, FinishHeader, FinalUid, Load;
      SlotFacts(id);
      if fd[id].None? { return; }
      var file := files[fd[id].value.path];
      var mapname := FileMap(file);
      if !ValidSegment(sig.steamid) || !ValidSegment(mapname) {
        CloseFile(id);
        files := files - {filepath[id]};
        return;
      }
      var uid := ComposeUid(id, sig, file);
      var stamped := FinishHeader(file, sig.nick, checkpoints[id], gochecks[id]);
      CloseFile(id);
      files := (files - {filepath[id]})[Final(uid) := stamped];
      if !sig.submit || sig.noSubmit {
        out := out + [CompressOnly(uid)];
      } else {
        var steamid := Fitted(FullSteamid(sig.steamid), 35);
        out := out + [AddRecord(uid, steamid, mapname, sig.timeMs, checkpoints[id], gochecks[id])];
      }
    }

    /** One packet off the writer queue. */
    method Process(id: nat, sig: Signal)
      requires Valid() && Sound(View()) && Admissible(View(), id, sig)
      modifies this`files, this`out, fd, filepath, last, counter, checkpoints, gochecks
      ensures Valid() && View() == Step(old(View()), id, sig)
    {
      match sig
      case RunStart(_, _, _) => OnRunStart(id, sig);
      case RunEvent(e) => OnEvent(id, e);
      case RunFrame(f) => OnFrame(id, f);
      case RunPause => OnRunPause(id);
      case RunUnpause(steamid) => OnRunUnpause(id, steamid);
      case RunReject(d) => OnRunReject(id, d);
      case RunFinish(_, _, _, _, _, _) => OnRunFinish(id, sig);
    }

    /** A map change renews the header template. */
    method ChangeMap(h: seq<Byte>)
      requires Valid()
      modifies this`header
      ensures Valid() && View() == old(View()).(header := h)
    {
      header := h;
    }

    /** The end of the thread closes what is open; the module is then loaded with fresh statics. */
    method Restart()
      requires Valid() && Sound(View())
      modifies this`header, fd, filepath, last, counter, checkpoints, gochecks
      ensures Valid() && View() == Take(old(View()), Restarted)
    {
      header := Zeroes(HEADER_SIZE);
      for i := 0 to SLOTS
        invariant Valid() && header == Zeroes(HEADER_SIZE)
        invariant forall j: nat | j < i :: fd[j] == None && filepath[j] == Final([]) && last[j] == ZeroFrame()
        invariant forall j: nat | j < i :: counter[j] == checkpoints[j] == gochecks[j] == 0
      {
        if fd[i].Some? { fd[i] := None; }
        filepath[i], last[i] := Final([]), ZeroFrame();
        counter[i], checkpoints[i], gochecks[i] := 0, 0, 0;
      }
      assert View().slots == Booted().slots;
    }

    method TakeInput(i: Input)
      requires Valid() && Sound(View()) && CanTake(View(), i)
      modifies this`files, this`header, this`out, fd, filepath, last, counter, checkpoints, gochecks
      ensures Valid() && View() == Take(old(View()), i)
    {
      match i
      case Sent(id, sig) => Process(id, sig);
      case MapChanged(h) => ChangeMap(h);
      case Restarted => Restart();
    }

    /** The loop of the thread over its queue, continuing any history. */
    method Run(queue: seq<Input>, ghost inputs: seq<Input>, ghost before: Logs) returns (ghost a: Logs)
      requires Valid() && Reached(inputs, View(), before) && Takeable(View(), queue)
      modifies this`files, this`header, this`out, fd, filepath, last, counter, checkpoints, gochecks
      ensures Valid() && Reached(inputs + queue, View(), a) && Agree(View(), a)
    {
      hide Sound, LogSound, CanTake, Take, LogTake, Agree, Reached, View;
      a := before;
      ghost var done := inputs;
      var q := queue;
      assert inputs + queue == done + q;
      while q != []
        invariant Valid() && Reached(done, View(), a) && Takeable(View(), q) && done + q == inputs + queue
        decreases |q|
      {
        ghost var s := View();
        EveryRunAgrees(done, s, a);
        ReachedNext(done, s, a, q[0]);
        TakeInput(q[0]);
        a := LogTake(s, a, q[0]);
        done, q := done + [q[0]], q[1..];
      }
      assert done == inputs + queue;
      EveryRunAgrees(done, View(), a);
    }
  }
}
