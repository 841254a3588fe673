/** The outbox as the module keeps it: variables that the handlers, the game thread and the storage
    layer update in place, each method doing exactly what the state machine says. */
module Outbox {
  import opened Options
  import opened ReplayNames
  import opened RetryQueue
  import opened OutboxSpec
  import opened OutboxSafety

  class Outbox {
    const queue: Queue
    var lastTs: int
    var outgoing: map<int, Row>
    var upload: map<int, Row>
    var outgoingSeq: nat
    var uploadSeq: nat
    var krpr: set<Text>
    var krpz: set<Text>
    var active: set<Text>
    var tasks: seq<Task>
    var uploads: seq<UploadItem>
    var pending: Option<Pending>
    ghost var submitted: set<Text>
    ghost var fates: map<Text, Fate>

    ghost function View(): State
      reads this, queue
    {
      State(queue.entries, lastTs, outgoing, upload, outgoingSeq, uploadSeq, krpr, krpz, active, tasks, uploads,
            pending, submitted, fates)
    }

    constructor ()
      ensures View() == FRESH && fresh(queue)
    {
      queue := new Queue();
      lastTs, outgoing, upload, outgoingSeq, uploadSeq := 0, map[], map[], 0, 0;
      krpr, krpz, active, tasks, uploads, pending := {}, {}, {}, [], [], None;
      submitted, fates := {}, map[];
    }

    // -------------------------------------------------------------- storage

    /** `kz_storage_get_next_id`. */
    method NextId(table: Table) returns (id: nat)
      ensures id == (if table == Outgoing then outgoingSeq else uploadSeq) + 1
    {
      match table
      case Outgoing => id := outgoingSeq + 1;
      case Upload => id := uploadSeq + 1;
    }

    method SaveMessage(table: Table, msgType: int, message: Payload, now: int)
      modifies this, queue
      ensures View() == Save(old(View()), table, msgType, message, now)
    {
      var id := NextId(table);
      var ts := now;
      if now - lastTs < 5 { ts := ts + 5; }
      lastTs := now;
      queue.PushBack(Entry(0, msgType, id, ts, table, message));
      var row := Row(msgType, message, now);
      match table {
        case Outgoing => outgoing, outgoingSeq := outgoing[id := row], id;
        case Upload => upload, uploadSeq := upload[id := row], id;
      }
    }

    method DeleteMessage(id: int, table: Table)
      modifies this, queue
      ensures View() == Delete(old(View()), id, table)
    {
      queue.Erase(id, table);
      match table {
        case Outgoing => outgoing := outgoing - {id};
        case Upload => upload := upload - {id};
      }
    }

    /** `kz_storage_clear` and the batch delete it ends with. */
    method ClearEphemeral()
      modifies this, queue
      ensures View() == OnClear(old(View()))
    {
      var ids := queue.Clear();
      var k := 0;
      ghost var rows := outgoing;
      while k < |ids|
        invariant 0 <= k <= |ids|
        invariant outgoing == map id | id in rows && id !in ids[..k] :: rows[id]
        invariant View() == old(View()).(retry := queue.entries, outgoing := outgoing)
        invariant queue.entries == Durable(old(queue.entries))
      {
        assert ids[..k + 1] == ids[..k] + [ids[k]];
        outgoing := outgoing - {ids[k]};
        k := k + 1;
      }
      assert ids[..k] == ids;
    }

    method LoadTables(outs: seq<int>, ups: seq<int>)
      requires Lists(outs, outgoing) && Lists(ups, upload)
      modifies this, queue
      ensures View() == OnLoad(old(View()), outs, ups)
    {
      hide Loaded;
      queue.entries := [];
      AppendRows(outgoing, outs, Outgoing);
      AppendRows(upload, ups, Upload);
    }

    method AppendRows(rows: map<int, Row>, order: seq<int>, table: Table)
      requires forall k | 0 <= k < |order| :: order[k] in rows
      modifies queue
      ensures queue.entries == old(queue.entries) + Loaded(rows, order, table)
    {
      hide Loaded;
      ghost var whole := Loaded(rows, order, table);
      var k := 0;
      while k < |order|
        invariant 0 <= k <= |order|
        invariant queue.entries == old(queue.entries) + whole[..k]
      {
        var row := rows[order[k]];
        queue.PushBack(Entry(0, row.msgType, order[k], row.createdAt, table, row.message));
        assert whole[..k + 1] == whole[..k] + [FromRow(order[k], rows[order[k]], table)];
        k := k + 1;
      }
    }

    /** The end of FINISH, for a record: the raw file has its final name. */
    method SubmitRecord(uid: Text, now: int)
      modifies this, queue
      ensures View() == OnSubmit(old(View()), uid, now)
    {
      krpr := krpr + {uid};
      submitted := submitted + {uid};
      SaveMessage(Outgoing, ADD_RECORD, Record(uid), now);
    }

    /** The socket opens. */
    method Connect()
      modifies queue
      ensures View() == OnOpen(old(View()))
    {
      queue.RequeueAll();
      assert queue.entries == Requeued(old(queue.entries));
    }

    /** `kz_api storage delete`. */
    method OperatorDeletes(id: int, table: Table)
      modifies this, queue
      ensures View() == OnOperatorDelete(old(View()), id, table)
    {
      ghost var rows := if table == Outgoing then outgoing else upload;
      if id in rows && !rows[id].message.Other? { fates := End(View(), rows[id].message.uid, Purged); }
      DeleteMessage(id, table);
    }

    /** `kz_api storage clear`. */
    method OperatorClears(table: Table)
      modifies this, queue
      ensures View() == OnOperatorClear(old(View()), table)
    {
      ghost var rows := if table == Outgoing then outgoing else upload;
      fates := fates + (map uid | uid in RunsIn(rows) * submitted :: Purged);
      queue.EraseTable(table);
      match table {
        case Outgoing => outgoing := map[];
        case Upload => upload := map[];
      }
    }

    // -------------------------------------------------------------- the handlers

    method AckRecord(uid: Text, now: int) returns (task: Option<Task>)
      modifies this, queue
      ensures (View(), task) == OnRecordAck(old(View()), uid, now)
    {
      if !ValidSegment(uid) { return None; }
      if uid in krpr {
        active := active + {uid};
        SaveMessage(Upload, 0, Replay(uid), now);
        return Some(SendUpload(uid));
      }
      return None;
    }

    /** The cleanup every accepted upload gets. */
    method Cleanup(uid: Text)
      modifies this, queue
      ensures View() == old(View()).(retry := WithoutFirstUpload(old(queue.entries), uid),
                                     active := old(active) - {uid},
                                     upload := UploadsWithout(old(upload), uid))
    {
      queue.EraseUpload(uid);
      active := active - {uid};
      upload := UploadsWithout(upload, uid);
    }

    method AckFile(uid: Text, status: bool, moved: bool) returns (task: Option<Task>)
      modifies this, queue
      ensures (View(), task) == OnFileAck(old(View()), uid, status, moved)
    {
      if !ValidSegment(uid) { return None; }
      if status {
        fates := End(View(), uid, Accepted);
        if uid !in krpr || uid !in krpz || !moved {
          Cleanup(uid);
          return None;
        }
        krpz := krpz - {uid};
        krpr := krpr - {uid};
        Cleanup(uid);
        return Some(OtherTask);
      }
      return Some(RequeueUpload(uid));
    }

    method AckError(id: int, explained: bool) returns (task: Option<Task>)
      modifies this
      ensures (View(), task) == OnErrorAck(old(View()), id, explained)
    {
      if id <= 0 || !explained { return None; }
      if id !in outgoing { return None; }
      if outgoing[id].msgType == ADD_RECORD && outgoing[id].message.Record? {
        var uid := outgoing[id].message.uid;
        fates := End(View(), uid, Refused);
        return Some(Discard(uid));
      }
      return None;
    }

    /** `kz_ws_onmessage` up to the handler's return. */
    method Receive(m: Message, now: int)
      modifies this, queue
      ensures View() == OnMessage(old(View()), m, now)
    {
      var task: Option<Task> := None;
      match m {
        case RecordAck(_, uid) => task := AckRecord(uid, now);
        case FileAck(_, uid, status, moved) => task := AckFile(uid, status, moved);
        case ErrorAck(id, explained) => task := AckError(id, explained);
        case OtherAck(_) =>
      }
      pending := Some(Pending(m.id, task));
    }

    /** The rest of it. */
    method FinishMessage(room: bool)
      requires pending.Some?
      modifies this, queue
      ensures View() == OnHandled(old(View()), room)
    {
      var p := pending.value;
      var deleteMsg := true;
      if p.task.Some? {
        if room { tasks := tasks + [p.task.value]; } else { deleteMsg := false; }
      }
      pending := None;
      if deleteMsg && p.id > 0 { DeleteMessage(p.id, Outgoing); }
    }

    // -------------------------------------------------------------- the game thread

    /** `kz_rp_compress_and_upload_async` and what its callers do when it refuses. */
    method StartUpload(uid: Text, compressed: bool, room: bool)
      modifies this
      ensures View() == QueueUpload(old(View()), uid, compressed, room)
    {
      if room { uploads := uploads + [UploadItem(uid, compressed)]; } else { active := active - {uid}; }
    }

    method RequeueReplayUpload(uid: Text, room: bool, now: int)
      modifies this, queue
      ensures View() == RequeuedUpload(old(View()), uid, room, now)
    {
      var compressed := uid in krpz;
      if !compressed && uid !in krpr { return; }
      if uid in active { return; }
      active := active + {uid};
      SaveMessage(Upload, 0, Replay(uid), now);
      StartUpload(uid, compressed, room);
    }

    method RunOneTask(room: bool, now: int)
      requires tasks != []
      modifies this, queue
      ensures View() == OnTask(old(View()), room, now)
    {
      var task := tasks[0];
      tasks := tasks[1..];
      match task {
        case Discard(uid) =>
          krpr := krpr - {uid};
          krpz := krpz - {uid};
          upload := UploadsWithout(upload, uid);
          active := active - {uid};
        case SendUpload(uid) => StartUpload(uid, false, room);
        case RequeueUpload(uid) => RequeueReplayUpload(uid, room, now);
        case OtherTask =>
      }
    }

    /** The retry pass of `kz_ws_run_tasks`. */
    method RetryOne(ts: int, lim: Limits, room: bool)
      modifies this, queue
      ensures View() == OnRetryPass(old(View()), ts, lim, room)
    {
      var attempt := queue.RetryPass(ts, lim);
      if attempt.Some? && attempt.value.table == Upload && attempt.value.message.Replay? {
        var uid := attempt.value.message.uid;
        if uid !in active {
          if uid in krpz {
            active := active + {uid};
            StartUpload(uid, true, room);
          } else if uid in krpr {
            active := active + {uid};
            StartUpload(uid, false, room);
          }
        }
      }
    }

    // -------------------------------------------------------------- the upload thread

    method ProcessItem(readable: bool)
      requires uploads != []
      modifies this
      ensures View() == OnUpload(old(View()), readable)
    {
      var item := uploads[0];
      var isOpen := readable && item.uid in (if item.compressed then krpz else krpr);
      if !isOpen {
        active := active - {item.uid};
      } else if !item.compressed {
        krpz := krpz + {item.uid};
      }
      uploads := uploads[1..];
    }

    // -------------------------------------------------------------- the whole module

    /** The process ends and starts again, with what the tables and the files hold. */
    method StartOver()
      modifies this, queue
      ensures View() == OnRestart(old(View()))
    {
      queue.entries := [];
      lastTs, active, tasks, uploads, pending := 0, {}, [], [], None;
    }

    method TakeInput(i: Input)
      requires CanTake(View(), i)
      modifies this, queue
      ensures View() == Take(old(View()), i)
    {
      match i
      case Submit(uid, now) => SubmitRecord(uid, now);
      case OtherMessage(msgType, text, now) => SaveMessage(Outgoing, msgType, Other(text), now);
      case Received(m, now) => Receive(m, now);
      case Handled(room) => FinishMessage(room);
      case RunTask(room, now) => RunOneTask(room, now);
      case RetryPass(ts, lim, room) => RetryOne(ts, lim, room);
      case ProcessUpload(readable) => ProcessItem(readable);
      case Opened => Connect();
      case MapEnds => ClearEphemeral();
      case Restart => StartOver();
      case Load(outs, ups) => LoadTables(outs, ups);
      case OperatorDelete(id, table) => OperatorDeletes(id, table);
      case OperatorClear(table) => OperatorClears(table);
    }

    /** Any inputs in any order, continuing any history: the module is where the state machine is, and safe. */
    method Run(inputs: seq<Input>, ghost before: seq<Input>)
      requires Reached(before, View()) && Takeable(View(), inputs)
      modifies this, queue
      ensures View() == TakeAll(old(View()), inputs) && Reached(before + inputs, View()) && Safe(View())
    {
      hide CanTake, Take, Reached, Safe, View;
      ghost var start := View();
      var q := inputs;
      while q != []
        invariant Takeable(View(), q) && TakeAll(View(), q) == TakeAll(start, inputs)
        decreases |q|
      {
        TakeInput(q[0]);
        q := q[1..];
      }
      ReachedOn(before, start, inputs);
      EveryStateIsSafe(before + inputs, View());
    }
  }
}
