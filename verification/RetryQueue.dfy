/** The in-memory retry queue: the retry pass that `kz_ws_run_tasks` makes over it every frame, and the
    in-place removals of the storage layer and the acknowledgement handlers. */
module RetryQueue {
  import opened Options
  import opened ReplayNames

  datatype Table = Outgoing | Upload

  // Outbound message types.
  const MAP_CHANGE := 2
  const PLAYER_JOIN := 3
  const PLAYER_LEAVE := 4
  const WANT_MAP_INFO := 5
  const ADD_RECORD := 8

  /** A stored message: a record submission, the upload of a replay, or anything else. */
  datatype Payload = Record(uid: Text) | Replay(uid: Text) | Other(text: Text)

  predicate IsEmpty(p: Payload) {
    match p
    case Record(_) => false
    case Replay(uid) => uid == []
    case Other(text) => text == []
  }

  /** `retry_msg`. */
  datatype Entry = Entry(retryCount: int, msgType: int, msgId: int, timestamp: int, table: Table, message: Payload)

  /** `kz_api_retries_delay` and `kz_api_retries_max`. */
  datatype Limits = Limits(delay: int, max: int)

  // ---------------------------------------------------------------- the retry pass

  predicate Due(e: Entry, ts: int, lim: Limits) {
    ts - e.timestamp > lim.delay
  }

  /** A due entry that is dropped instead of sent. */
  predicate Dead(e: Entry, lim: Limits) {
    IsEmpty(e.message) || e.retryCount > lim.max || e.msgType == PLAYER_LEAVE || e.msgType == MAP_CHANGE
  }

  function Attempted(e: Entry, ts: int): Entry {
    e.(timestamp := ts, retryCount := e.retryCount + 1)
  }

  /** One pass: due dead entries are dropped up to the first due live one, which is attempted. */
  function Pass(q: seq<Entry>, ts: int, lim: Limits): (r: (seq<Entry>, Option<Entry>))
    ensures |r.0| <= |q|
  {
    if q == [] then ([], None)
    else if !Due(q[0], ts, lim) then
      var rest := Pass(q[1..], ts, lim);
      ([q[0]] + rest.0, rest.1)
    else if Dead(q[0], lim) then Pass(q[1..], ts, lim)
    else ([Attempted(q[0], ts)] + q[1..], Some(q[0]))
  }

  // ---------------------------------------------------------------- requeueing and removals

  function Requeued(q: seq<Entry>): (r: seq<Entry>)
    ensures |r| == |q|
    ensures forall k | 0 <= k < |q| :: r[k] == q[k].(timestamp := 0, retryCount := 0)
  {
    if q == [] then [] else [q[0].(timestamp := 0, retryCount := 0)] + Requeued(q[1..])
  }

  /** Messages that mean nothing once the map is over. */
  predicate Ephemeral(e: Entry) {
    e.msgType == WANT_MAP_INFO || e.msgType == PLAYER_JOIN || e.msgType == PLAYER_LEAVE
  }

  function Durable(q: seq<Entry>): seq<Entry> {
    if q == [] then [] else (if Ephemeral(q[0]) then [] else [q[0]]) + Durable(q[1..])
  }

  lemma {:induction false} DurableEntries(q: seq<Entry>, e: Entry)
    ensures e in Durable(q) <==> e in q && !Ephemeral(e)
  {
    if q != [] {
      assert q == [q[0]] + q[1..];
      DurableEntries(q[1..], e);
    }
  }

  /** The ids of the cleared entries of a table: what is deleted from the database afterwards. */
  function EphemeralIds(q: seq<Entry>, table: Table): seq<int> {
    if q == [] then [] else
    (if Ephemeral(q[0]) && q[0].table == table then [q[0].msgId] else []) + EphemeralIds(q[1..], table)
  }

  lemma {:induction false} EphemeralIdOf(q: seq<Entry>, table: Table, id: int) returns (e: Entry)
    requires id in EphemeralIds(q, table)
    ensures e in q && Ephemeral(e) && e.table == table && e.msgId == id
  {
    assert q == [q[0]] + q[1..];
    if id in EphemeralIds(q[1..], table) { e := EphemeralIdOf(q[1..], table, id); } else { e := q[0]; }
  }

  /** `std::remove_if` over one message of one table. */
  function Without(q: seq<Entry>, id: int, table: Table): seq<Entry> {
    if q == [] then [] else
    (if q[0].msgId == id && q[0].table == table then [] else [q[0]]) + Without(q[1..], id, table)
  }

  lemma {:induction false} WithoutEntries(q: seq<Entry>, id: int, table: Table, e: Entry)
    ensures e in Without(q, id, table) <==> e in q && !(e.msgId == id && e.table == table)
  {
    if q != [] {
      assert q == [q[0]] + q[1..];
      WithoutEntries(q[1..], id, table, e);
    }
  }

  function WithoutTable(q: seq<Entry>, table: Table): seq<Entry> {
    if q == [] then [] else (if q[0].table == table then [] else [q[0]]) + WithoutTable(q[1..], table)
  }

  lemma {:induction false} WithoutTableEntries(q: seq<Entry>, table: Table, e: Entry)
    ensures e in WithoutTable(q, table) <==> e in q && e.table != table
  {
    if q != [] {
      assert q == [q[0]] + q[1..];
      WithoutTableEntries(q[1..], table, e);
    }
  }

  predicate UploadOf(e: Entry, uid: Text) {
    e.table == Upload && e.message == Replay(uid)
  }

  /** The cleanup of an accepted upload stops at the first entry it finds. */
  function WithoutFirstUpload(q: seq<Entry>, uid: Text): seq<Entry> {
    if q == [] then [] else if UploadOf(q[0], uid) then q[1..] else [q[0]] + WithoutFirstUpload(q[1..], uid)
  }

  lemma {:induction false} WithoutFirstUploadEntries(q: seq<Entry>, uid: Text, e: Entry)
    ensures e in WithoutFirstUpload(q, uid) ==> e in q
    ensures e in q && !UploadOf(e, uid) ==> e in WithoutFirstUpload(q, uid)
  {
    if q != [] {
      assert q == [q[0]] + q[1..];
      WithoutFirstUploadEntries(q[1..], uid, e);
    }
  }

  // ---------------------------------------------------------------- the loops

  ghost predicate Clearing(now: seq<Entry>, it: nat, ids: seq<int>, q: seq<Entry>) {
    && it <= |now|
    && now[..it] + Durable(now[it..]) == Durable(q)
    && ids + EphemeralIds(now[it..], Outgoing) == EphemeralIds(q, Outgoing)
  }

  lemma StartClearing(q: seq<Entry>)
    ensures Clearing(q, 0, [], q)
  {
    assert q[0..] == q;
  }

  lemma ClearOne(now: seq<Entry>, it: nat, ids: seq<int>, q: seq<Entry>)
    requires it < |now| && Clearing(now, it, ids, q)
    ensures var e := now[it];
      if Ephemeral(e) then
        Clearing(now[..it] + now[it + 1..], it, if e.table == Outgoing then ids + [e.msgId] else ids, q)
      else Clearing(now, it + 1, ids, q)
  {
    var e := now[it];
    var rest := now[it..];
    assert rest[0] == e && rest[1..] == now[it + 1..];
    if Ephemeral(e) {
      var next := now[..it] + now[it + 1..];
      assert next[..it] == now[..it] && next[it..] == now[it + 1..];
    } else {
      assert now[..it + 1] == now[..it] + [e];
    }
  }

  lemma EndClearing(now: seq<Entry>, ids: seq<int>, q: seq<Entry>)
    requires Clearing(now, |now|, ids, q)
    ensures now == Durable(q) && ids == EphemeralIds(q, Outgoing)
  {
  }

  predicate Seeking(q: seq<Entry>, it: nat, uid: Text) {
    it <= |q| && q[..it] + WithoutFirstUpload(q[it..], uid) == WithoutFirstUpload(q, uid)
  }

  lemma StartSeeking(q: seq<Entry>, uid: Text)
    ensures Seeking(q, 0, uid)
  {
    assert q[0..] == q;
  }

  lemma SeekOne(q: seq<Entry>, it: nat, uid: Text)
    requires it < |q| && Seeking(q, it, uid)
    ensures if UploadOf(q[it], uid) then q[..it] + q[it + 1..] == WithoutFirstUpload(q, uid)
            else Seeking(q, it + 1, uid)
  {
    hide UploadOf;
    var rest := q[it..];
    assert rest[0] == q[it] && rest[1..] == q[it + 1..];
    assert q[..it + 1] == q[..it] + [q[it]];
  }

  lemma EndSeeking(q: seq<Entry>, uid: Text)
    requires Seeking(q, |q|, uid)
    ensures WithoutFirstUpload(q, uid) == q
  {
    assert q[|q|..] == [];
  }

  /** `g_retry_queue`. */
  class Queue {
    var entries: seq<Entry>

    constructor ()
      ensures entries == []
    {
      entries := [];
    }

    method PushBack(e: Entry)
      modifies this
      ensures entries == old(entries) + [e]
    {
      entries := entries + [e];
    }

    method EraseAt(k: nat)
      requires k < |entries|
      modifies this
      ensures entries == old(entries)[..k] + old(entries)[k + 1..]
    {
      entries := entries[..k] + entries[k + 1..];
    }

    method RetryPass(ts: int, lim: Limits) returns (attempt: Option<Entry>)
      modifies this
      ensures (entries, attempt) == Pass(old(entries), ts, lim)
    {
      var it := 0;
      attempt := None;
      assert entries[..0] + Pass(entries[0..], ts, lim).0 == Pass(entries, ts, lim).0 by {
        assert entries[0..] == entries;
      }
      while it < |entries|
        invariant 0 <= it <= |entries|
        invariant entries[..it] + Pass(entries[it..], ts, lim).0 == Pass(old(entries), ts, lim).0
        invariant Pass(entries[it..], ts, lim).1 == Pass(old(entries), ts, lim).1
        decreases |entries| - it
      {
        var e := entries[it];
        ghost var rest := entries[it..];
        assert rest[0] == e && rest[1..] == entries[it + 1..];
        hide Due, Dead, Attempted;
        if Due(e, ts, lim) {
          if Dead(e, lim) {
            ghost var now := entries[..it] + entries[it + 1..];
            assert now[..it] == entries[..it] && now[it..] == entries[it + 1..];
            EraseAt(it);
            continue;
          }
          attempt := Some(e);
          assert entries[it := Attempted(e, ts)] == entries[..it] + ([Attempted(e, ts)] + rest[1..]);
          entries := entries[it := Attempted(e, ts)];
          return;
        }
        assert entries[..it + 1] + Pass(rest[1..], ts, lim).0 == entries[..it] + ([e] + Pass(rest[1..], ts, lim).0);
        it := it + 1;
      }
      assert entries[it..] == [] && entries[..it] + [] == entries;
    }

    /** `kz_storage_requeue_all_pending`. */
    method RequeueAll()
      modifies this
      ensures entries == Requeued(old(entries))
    {
      var k := 0;
      while k < |entries|
        invariant 0 <= k <= |entries| == |old(entries)|
        invariant forall i | 0 <= i < k :: entries[i] == old(entries)[i].(timestamp := 0, retryCount := 0)
        invariant entries[k..] == old(entries)[k..]
      {
        assert entries[k] == entries[k..][0];
        ghost var before := entries;
        entries := entries[k := entries[k].(timestamp := 0, retryCount := 0)];
        assert entries[k + 1..] == before[k..][1..];
        k := k + 1;
      }
    }

    /** The loop of `kz_storage_clear`. */
    method Clear() returns (ids: seq<int>)
      modifies this
      ensures entries == Durable(old(entries))
      ensures ids == EphemeralIds(old(entries), Outgoing)
    {
      hide Ephemeral, Clearing, Durable, EphemeralIds;
      var it := 0;
      ids := [];
      StartClearing(entries);
      while it < |entries|
        invariant 0 <= it <= |entries|
        invariant Clearing(entries, it, ids, old(entries))
        decreases |entries| - it
      {
        var e := entries[it];
        ClearOne(entries, it, ids, old(entries));
        if Ephemeral(e) {
          if e.table == Outgoing { ids := ids + [e.msgId]; }
          EraseAt(it);
        } else {
          it := it + 1;
        }
      }
      EndClearing(entries, ids, old(entries));
    }

    /** The first half of `kz_storage_delete`. */
    method Erase(id: int, table: Table)
      modifies this
      ensures entries == Without(old(entries), id, table)
    {
      entries := Without(entries, id, table);
    }

    /** The first half of `kz_storage_delete_all`. */
    method EraseTable(table: Table)
      modifies this
      ensures entries == WithoutTable(old(entries), table)
    {
      entries := WithoutTable(entries, table);
    }

    /** The loop in the cleanup of `kz_ws_ack_file_ack`. */
    method EraseUpload(uid: Text)
      modifies this
      ensures entries == WithoutFirstUpload(old(entries), uid)
    {
      hide UploadOf, Seeking, WithoutFirstUpload;
      var it := 0;
      StartSeeking(entries, uid);
      while it < |entries|
        invariant 0 <= it <= |entries| && entries == old(entries) && Seeking(entries, it, uid)
      {
        SeekOne(entries, it, uid);
        if UploadOf(entries[it], uid) {
          EraseAt(it);
          return;
        }
        it := it + 1;
      }
      EndSeeking(entries, uid);
    }
  }
}
