/** `kz_log_flush`: the log queues of all threads merged by time. */
module LogMerge {
  import opened Options

  /** `log_entry`. */
  datatype Entry = Entry(nanoTs: nat, message: string)

  type Log = seq<Entry>

  predicate Sorted(q: Log) {
    forall i, j | 0 <= i < j < |q| :: q[i].nanoTs <= q[j].nanoTs
  }

  /** The entries at the front of a queue that are older than the cutoff. */
  function OldPart(q: Log, cutoff: nat): Log {
    if q == [] || q[0].nanoTs >= cutoff then [] else [q[0]] + OldPart(q[1..], cutoff)
  }

  function NewPart(q: Log, cutoff: nat): Log {
    if q == [] || q[0].nanoTs >= cutoff then q else NewPart(q[1..], cutoff)
  }

  /** Together the two parts are the queue. */
  lemma {:induction false} PartsMakeUpTheQueue(q: Log, cutoff: nat)
    ensures q == OldPart(q, cutoff) + NewPart(q, cutoff)
  {
    if q != [] && q[0].nanoTs < cutoff {
      PartsMakeUpTheQueue(q[1..], cutoff);
      assert q == [q[0]] + (OldPart(q[1..], cutoff) + NewPart(q[1..], cutoff));
    }
  }

  /** In a queue in order of time they are exactly its old entries and exactly the others. */
  lemma {:induction false} PartsOfSorted(q: Log, cutoff: nat, e: Entry)
    requires Sorted(q)
    ensures e in OldPart(q, cutoff) <==> e in q && e.nanoTs < cutoff
    ensures e in NewPart(q, cutoff) <==> e in q && e.nanoTs >= cutoff
  {
    if q != [] && q[0].nanoTs < cutoff {
      assert q == [q[0]] + q[1..];
      PartsOfSorted(q[1..], cutoff, e);
    }
  }

  function TotalLength(queues: seq<Log>): nat {
    if queues == [] then 0 else |queues[0]| + TotalLength(queues[1..])
  }

  lemma {:induction false} PopShortens(queues: seq<Log>, i: nat)
    requires i < |queues| && queues[i] != []
    ensures TotalLength(queues[i := queues[i][1..]]) + 1 == TotalLength(queues)
  {
    var popped := queues[i := queues[i][1..]];
    if i == 0 {
      assert popped[1..] == queues[1..];
    } else {
      PopShortens(queues[1..], i - 1);
      assert popped[1..] == queues[1..][i - 1 := queues[i][1..]];
    }
  }

  /** The entries of a log that came from queue `i`. */
  function From(log: Log, sources: seq<nat>, i: nat): Log
    requires |log| == |sources|
  {
    if log == [] then [] else
    var n := |log| - 1;
    From(log[..n], sources[..n], i) + if sources[n] == i then [log[n]] else []
  }

  lemma FromOneMore(log: Log, sources: seq<nat>, e: Entry, s: nat, i: nat)
    requires |log| == |sources|
    ensures From(log + [e], sources + [s], i) == From(log, sources, i) + if s == i then [e] else []
  {
    assert (log + [e])[..|log|] == log && (sources + [s])[..|log|] == sources;
  }

  /** Queue `i` can be read, and no readable queue has an older front; among equals it is the first. */
  predicate IsOldest(queues: seq<Log>, cutoff: nat, i: nat) {
    && i < |queues| && Readable(queues[i], cutoff)
    && forall k | 0 <= k < |queues| && Readable(queues[k], cutoff) ::
         if k < i then queues[i][0].nanoTs < queues[k][0].nanoTs else queues[i][0].nanoTs <= queues[k][0].nanoTs
  }

  predicate Readable(q: Log, cutoff: nat) {
    q != [] && q[0].nanoTs < cutoff
  }

  method FindOldest(queues: array<Log>, cutoff: nat) returns (best: Option<nat>)
    ensures best.Some? ==> IsOldest(queues[..], cutoff, best.value)
    ensures best.None? ==> forall k | 0 <= k < queues.Length :: !Readable(queues[k], cutoff)
  {
    best := None;
    for k := 0 to queues.Length
      invariant best.Some? ==> IsOldest(queues[..k], cutoff, best.value)
      invariant best.None? ==> forall i | 0 <= i < k :: !Readable(queues[i], cutoff)
    {
      assert queues[..k + 1] == queues[..k] + [queues[k]];
      var q := queues[k];
      if q != [] && q[0].nanoTs < cutoff {
        if best.None? || q[0].nanoTs < queues[best.value][0].nanoTs {
          best := Some(k);
        }
      }
    }
    assert queues[..queues.Length] == queues[..];
  }

  // ---------------------------------------------------------------- the merge

  /** What has been emitted and what is left make up the queues, and the emitted entries are old. */
  ghost predicate Merging(before: seq<Log>, now: seq<Log>, emitted: Log, sources: seq<nat>, cutoff: nat) {
    && |before| == |now| && |sources| == |emitted|
    && (forall k | 0 <= k < |sources| :: sources[k] < |now|)
    && forall i | 0 <= i < |now| ::
         && From(emitted, sources, i) + OldPart(now[i], cutoff) == OldPart(before[i], cutoff)
         && NewPart(now[i], cutoff) == NewPart(before[i], cutoff)
  }

  lemma MergeOne(before: seq<Log>, now: seq<Log>, emitted: Log, sources: seq<nat>, cutoff: nat, b: nat)
    requires Merging(before, now, emitted, sources, cutoff) && b < |now| && Readable(now[b], cutoff)
    ensures Merging(before, now[b := now[b][1..]], emitted + [now[b][0]], sources + [b], cutoff)
  {
    var next := now[b := now[b][1..]];
    forall i | 0 <= i < |next|
      ensures From(emitted + [now[b][0]], sources + [b], i) + OldPart(next[i], cutoff) == OldPart(before[i], cutoff)
      ensures NewPart(next[i], cutoff) == NewPart(before[i], cutoff)
    {
      FromOneMore(emitted, sources, now[b][0], b, i);
      var front := From(emitted, sources, i);
      assert front + [] == front;
      if i == b {
        var rest := OldPart(next[b], cutoff);
        assert front + [now[b][0]] + rest == front + ([now[b][0]] + rest);
      }
    }
  }

  /** Nothing readable is older than the last entry emitted. */
  ghost predicate InTime(queues: seq<Log>, emitted: Log) {
    && Sorted(emitted) && (forall i | 0 <= i < |queues| :: Sorted(queues[i]))
    && forall i | 0 <= i < |queues| && queues[i] != [] && emitted != [] ::
         emitted[|emitted| - 1].nanoTs <= queues[i][0].nanoTs
  }

  lemma StaysInTime(queues: seq<Log>, emitted: Log, cutoff: nat, b: nat)
    requires InTime(queues, emitted) && IsOldest(queues, cutoff, b)
    ensures InTime(queues[b := queues[b][1..]], emitted + [queues[b][0]])
  {
    var e := queues[b][0];
    var next: seq<Log> := queues[b := queues[b][1..]];
    forall i: nat | i < |next| && next[i] != [] ensures next[i][0].nanoTs >= e.nanoTs {
      if i == b { assert next[b][0] == queues[b][1]; } else { assert next[i] == queues[i]; }
    }
    var more: Log := emitted + [e];
    forall i, j | 0 <= i < j < |more| ensures more[i].nanoTs <= more[j].nanoTs {
      if j == |emitted| { assert emitted[i].nanoTs <= emitted[j - 1].nanoTs; }
    }
  }

  /** Emits the old front entries of every queue, each queue's in its own order, and leaves the rest; if
      the queues are in order of time, so is what is emitted. `sources` says which queue each came from. */
  method FlushLogs(queues: array<Log>, cutoff: nat) returns (emitted: Log, ghost sources: seq<nat>)
    modifies queues
    ensures |sources| == |emitted| && forall k | 0 <= k < |sources| :: sources[k] < queues.Length
    ensures forall i | 0 <= i < queues.Length ::
      From(emitted, sources, i) == OldPart(old(queues[i]), cutoff) && queues[i] == NewPart(old(queues[i]), cutoff)
    ensures (forall i | 0 <= i < queues.Length :: Sorted(old(queues[i]))) ==> Sorted(emitted)
  {
    hide Merging, InTime, IsOldest, Sorted;
    emitted, sources := [], [];
    ghost var before := queues[..];
    StartMerging(before, cutoff);
    ghost var ordered := forall i | 0 <= i < queues.Length :: Sorted(queues[i]);
    if ordered { StartInTime(before); }
    while true
      invariant Merging(before, queues[..], emitted, sources, cutoff)
      invariant ordered ==> InTime(queues[..], emitted)
      decreases TotalLength(queues[..])
    {
      ghost var now := queues[..];
      var best := FindOldest(queues, cutoff);
      if best.None? { break; }
      var b := best.value;
      OldestIsReadable(now, cutoff, b);
      MergeOne(before, now, emitted, sources, cutoff, b);
      if ordered { StaysInTime(now, emitted, cutoff, b); }
      PopShortens(now, b);
      emitted := emitted + [queues[b][0]];
      sources := sources + [b];
      queues[b] := queues[b][1..];
      assert queues[..] == now[b := now[b][1..]];
    }
    EndMerging(before, queues[..], emitted, sources, cutoff);
    if ordered { EndInTime(queues[..], emitted); }
  }

  lemma StartMerging(before: seq<Log>, cutoff: nat)
    ensures Merging(before, before, [], [], cutoff)
  {
    forall i | 0 <= i < |before| ensures From([], [], i) + OldPart(before[i], cutoff) == OldPart(before[i], cutoff) {}
  }

  lemma StartInTime(queues: seq<Log>)
    requires forall i | 0 <= i < |queues| :: Sorted(queues[i])
    ensures InTime(queues, [])
  {
  }

  lemma OldestIsReadable(queues: seq<Log>, cutoff: nat, b: nat)
    requires IsOldest(queues, cutoff, b)
    ensures b < |queues| && Readable(queues[b], cutoff)
  {
  }

  lemma EndMerging(before: seq<Log>, now: seq<Log>, emitted: Log, sources: seq<nat>, cutoff: nat)
    requires Merging(before, now, emitted, sources, cutoff)
    requires forall k | 0 <= k < |now| :: !Readable(now[k], cutoff)
    ensures |sources| == |emitted| && forall k | 0 <= k < |sources| :: sources[k] < |now|
    ensures forall i | 0 <= i < |now| ::
      From(emitted, sources, i) == OldPart(before[i], cutoff) && now[i] == NewPart(before[i], cutoff)
  {
    forall i | 0 <= i < |now|
      ensures From(emitted, sources, i) == OldPart(before[i], cutoff) && now[i] == NewPart(before[i], cutoff)
    {
      assert !Readable(now[i], cutoff);
      assert From(emitted, sources, i) + [] == From(emitted, sources, i);
    }
  }

  lemma EndInTime(queues: seq<Log>, emitted: Log)
    requires InTime(queues, emitted)
    ensures Sorted(emitted)
  {
  }
}
