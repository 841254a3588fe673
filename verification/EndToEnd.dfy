/** The writer with the codec and the outbox: what a player did is what a replay shows, and what FINISH hands over
    the outbox can take. */
module EndToEnd {
  import opened Options
  import opened Bytes
  import opened KrpFormat
  import opened KrpGrammar
  import opened KrpLayout
  import opened KrpCodec
  import opened ReplayNames
  import opened WriterSpec
  import opened WriterRuns
  import opened WriterCounts
  import RunNames
  import OutboxSpec

  lemma {:induction false} FirstCall(rs: seq<Record>)
    requires AllWellFormed(rs) && rs != []
    ensures Replay(rs)[0].OnFrame? <==> rs[0].Frame?
    ensures rs[0].Frame? ==> Replay(rs)[0].kind == TypeOf(rs[0])
  {
    if |rs| > 1 { FirstCall(rs[..|rs| - 1]); }
  }

  lemma PutZero()
    ensures Put32(0) == Zeroes(4)
  {
    assert Store(0, 4) == [0] + Store(0, 3) && Store(0, 2) == [0] + Store(0, 1) && Store(0, 1) == [0] + Store(0, 0);
  }

  lemma NoSizesToZero(f: seq<Byte>)
    requires |f| >= HEADER_SIZE && f[SIZE_TYPES_AT..RESERVED_AT] == Zeroes(16)
    ensures ZeroSizes(f) == f[..HEADER_SIZE]
  {
    PutZero();
    assert Zeroes(4) + Zeroes(4) + Zeroes(4) + Zeroes(4) == Zeroes(16);
    assert f[..HEADER_SIZE] == f[..SIZE_TYPES_AT] + f[SIZE_TYPES_AT..RESERVED_AT] + f[RESERVED_AT..HEADER_SIZE];
  }

  lemma DecodedRecords(f: seq<Byte>, log: seq<Callback>) returns (rs: seq<Record>)
    requires Decodes(f, log)
    ensures ValidateHeader(f) == Ok && |f| >= HEADER_SIZE && Splits(f[HEADER_SIZE..], rs, [])
    ensures Replay(rs) == log && ZeroSizes(f) + f[HEADER_SIZE..] == f
    ensures LeadingKeyframe(rs) <==> log != [] && log[0].OnFrame?
  {
    rs :| DecodesBy(f, log, rs);
    NoSizesToZero(f);
    assert f[..HEADER_SIZE] + f[HEADER_SIZE..] == f;
    if rs != [] { FirstCall(rs); }
  }

  /** At any moment of any history, every capture the writer holds compresses: its header is valid and
      it never ends inside a record or carries an unknown type. */
  lemma EveryCaptureCompresses(inputs: seq<Input>, s: State, a: Logs, p: Path,
                               z: Zstd, level: int, err: Error, krpz: seq<Byte>)
    requires Reached(inputs, s, a) && p in s.files
    requires Compresses(z, s.files[p], level, err, krpz)
    ensures err == Ok || err == ZstdError
  {
    EveryRunAgrees(inputs, s, a);
    hide Reached;
    var rs := DecodedRecords(s.files[p], a.files[p]);
  }

  /** A file that decodes to `log` plays back as `log`. */
  lemma DecodingFilePlays(f: seq<Byte>, recorded: seq<Callback>, z: Zstd, level: int, krpz: seq<Byte>,
                          err: Error, log: seq<Callback>, derr: Error, out: seq<Byte>)
    requires Decodes(f, recorded) && Lossless(z) && Compresses(z, f, level, Ok, krpz)
    requires Plays(z, krpz, err, log) && Decompresses(z, krpz, derr, out)
    ensures err == Ok <==> recorded != [] && recorded[0].OnFrame? && |f| <= KRP_MAX_DECOMPRESSED_BYTES
    ensures |f| <= KRP_MAX_DECOMPRESSED_BYTES && err != Ok ==> err == FirstFrameNotKeyframe
    ensures |f| > KRP_MAX_DECOMPRESSED_BYTES ==> err == ZstdError
    ensures err == Ok ==> log == recorded && derr == Ok && out == f
  {
    hide Decodes, Lossless, Compresses, Plays, Decompresses, Splits, LeadingKeyframe, ZeroSizes, Replay, ValidateHeader;
    var rs := DecodedRecords(f, recorded);
    CompressionPlaysBack(z, f, level, krpz, rs, err, log);
    CompressionRoundTrip(z, f, level, krpz, rs, derr, out);
  }

  lemma FileDecodes(s: State, a: Logs, p: Path)
    requires Agree(s, a) && p in s.files
    ensures p in a.files && Decodes(s.files[p], a.files[p])
  {
  }

  /** For every history of signals: take any file the writer has written, compress it, and play it
      back. It plays exactly when the first thing recorded in it was a frame and it is at most 100 MiB
      long, and then playback reports exactly the frames and events accepted for that file, byte for
      byte, in order, at the same record indices; decompressing gives the capture itself. */
  lemma WhatWasRecordedIsPlayed(inputs: seq<Input>, s: State, a: Logs, p: Path,
                                z: Zstd, level: int, krpz: seq<Byte>,
                                err: Error, log: seq<Callback>, derr: Error, out: seq<Byte>)
    requires Reached(inputs, s, a) && p in s.files
    requires Lossless(z) && Compresses(z, s.files[p], level, Ok, krpz)
    requires Plays(z, krpz, err, log) && Decompresses(z, krpz, derr, out)
    ensures p in a.files
    ensures err == Ok <==>
      a.files[p] != [] && a.files[p][0].OnFrame? && |s.files[p]| <= KRP_MAX_DECOMPRESSED_BYTES
    ensures |s.files[p]| <= KRP_MAX_DECOMPRESSED_BYTES && err != Ok ==> err == FirstFrameNotKeyframe
    ensures |s.files[p]| > KRP_MAX_DECOMPRESSED_BYTES ==> err == ZstdError
    ensures err == Ok ==> log == a.files[p] && derr == Ok && out == s.files[p]
  {
    hide Reached, Agree, Sound, LogSound, Decodes, Lossless, Compresses, Plays, Decompresses;
    EveryRunAgrees(inputs, s, a);
    FileDecodes(s, a, p);
    DecodingFilePlays(s.files[p], a.files[p], z, level, krpz, err, log, derr, out);
  }

  /** A run FINISH submits is ready for the outbox: its raw file is in place, and its name is usable unless
      an explicit prefix makes it unusable. */
  lemma SubmissionsAreReady(s: State, id: nat, sig: Signal, t: State)
    requires Sound(s) && Admissible(s, id, sig) && sig.RunFinish? && t == Step(s, id, sig)
    requires |t.out| > |s.out| && t.out[|s.out|].AddRecord?
    ensures var uid := t.out[|s.out|].uid;
      Final(uid) in t.files && (ValidSegment(uid) <==> sig.prefix == 0 || SegmentChar(sig.prefix))
  {
    assert Open(s, id) && FileOf(s, id) in s.files && |s.files[FileOf(s, id)]| >= HEADER_SIZE;
    hide Sound, Admissible, ValidSegment, SegmentChar, FileMap, FinishHeader, RunUid, Base36, Load;
    var slot := s.slots[id];
    var ts := Load(s.files[FileOf(s, id)][TIMESTAMP_AT..TIMESTAMP_AT + 8]);
    RunNamesAreUsable(if slot.gochecks > 0 then 1 else 0, sig.timeMs, sig.steamid, ts, sig.prefix);
  }

  lemma PlayedIsRecorded(f: seq<Byte>, recorded: seq<Callback>, z: Zstd, level: int, krpz: seq<Byte>,
                         played: seq<Callback>)
    requires Decodes(f, recorded) && Lossless(z) && Compresses(z, f, level, Ok, krpz) && Plays(z, krpz, Ok, played)
    ensures played == recorded
  {
    hide Decodes, Lossless, Compresses, Plays, Splits, LeadingKeyframe, ZeroSizes, Replay, ValidateHeader;
    var rs := DecodedRecords(f, recorded);
    CompressionPlaysBack(z, f, level, krpz, rs, Ok, played);
  }

  lemma PublishedFile(s: State, a: Logs, id: nat, sig: Signal, p: Path)
    requires Agree(s, a) && Sound(s) && LogSound(a) && Admissible(s, id, sig) && sig.RunFinish? && Open(s, id)
    requires FinishPath(s, id, sig) == Some(p)
    ensures FileOf(s, id) in a.files && p in Step(s, id, sig).files
    ensures Decodes(Step(s, id, sig).files[p], a.files[FileOf(s, id)])
  {
    hide Agree, Decodes, LastFrame, FinishPath, FinishHeader, Load, ValidSegment, FileMap, FinalUid;
    OpenSlot(s, a, id);
    FinishShape(s, a, id, sig, p, FileOf(s, id));
    StepAgrees(s, a, id, sig);
    FileDecodes(Step(s, id, sig), LogStep(s, a, id, sig), p);
  }

  /** What an orderly run publishes about itself is what its replay shows: whoever plays it back counts as many
      CHECKPOINT and GOCHECK events as the header and the submission say, and, unless a prefix replaces it, the
      class digit of its name is 1 exactly if there is a GOCHECK among them. */
  lemma PublishedCountsArePlayed(inputs: seq<Input>, s: State, a: Logs, k: Books, id: nat, sig: Signal, p: Path,
                                 z: Zstd, level: int, krpz: seq<Byte>, played: seq<Callback>)
    requires ReachedOrderly(inputs, s, a, k) && Sound(s) && LogSound(a)
    requires Admissible(s, id, sig) && sig.RunFinish? && Open(s, id) && FinishPath(s, id, sig) == Some(p)
    requires Lossless(z) && p in Step(s, id, sig).files
    requires Compresses(z, Step(s, id, sig).files[p], level, Ok, krpz) && Plays(z, krpz, Ok, played)
    ensures HeaderTally(Step(s, id, sig).files[p], played)
    ensures var t, n := Step(s, id, sig), |s.out|;
      && |t.out| == n + 1 && p == Final(t.out[n].uid) && (t.out[n].AddRecord? <==> sig.submit && !sig.noSubmit)
      && (t.out[n].AddRecord? ==> Tally(t.out[n].checkpoints, t.out[n].gochecks, played))
    ensures sig.prefix == 0 && !sig.noSubmit ==>
      && p.Final? && p.uid != []
      && p.uid[0] == ZERO + if HasEvent(played, KRP_EVENT_GOCHECK) then 1 else 0
  {
    assert id < SLOTS;
    hide ReachedOrderly, Reached, Agree, Sound, LogSound, Admissible, Conserved, Step, FinishPath, HeaderTally, Tally,
      HasEvent, Decodes, Lossless, Compresses, Plays;
    CountersAreConserved(inputs, s, a, k);
    FinishPublishesCounts(inputs, s, a, k, id, sig);
    PublishedFile(s, a, id, sig, p);
    PlayedIsRecorded(Step(s, id, sig).files[p], a.files[FileOf(s, id)], z, level, krpz, played);
  }

  /** The outbox can take what FINISH hands over: when every START is a run of its own, the name is new to an outbox
      that has only taken names given out before. */
  lemma NextSubmissionIsNew(inputs: seq<Input>, s: State, a: Logs, r: RunNames.Register, n: nat,
                            t: OutboxSpec.State, now: int)
    requires RunNames.Registered(inputs, s, a, r) && n < |s.out| && ValidSegment(s.out[n].uid)
    requires forall uid | uid in t.submitted :: exists m: nat :: m < n && s.out[m].uid == uid
    ensures OutboxSpec.CanTake(t, OutboxSpec.Submit(s.out[n].uid, now))
  {
    hide ValidSegment, RunNames.Registered;
    var uid := s.out[n].uid;
    if uid in t.submitted {
      var m: nat :| m < n && s.out[m].uid == uid;
      RunNames.EveryRunHasItsOwnName(inputs, s, a, r, m, n);
    }
  }
}
