/** The durable outbox as a state machine: the retry queue in memory beside two database tables, the
    replay files, and the handlers that move a finished run from one to the next. */
module OutboxSpec {
  import opened Options
  import opened ReplayNames
  import opened RetryQueue

  /** A row of `outgoing_queue` or `upload_queue`; upload rows have type 0. */
  datatype Row = Row(msgType: int, message: Payload, createdAt: int)

  /** What the socket thread hands to the game thread. */
  datatype Task = Discard(uid: Text) | SendUpload(uid: Text) | RequeueUpload(uid: Text) | OtherTask

  /** An item of the upload queue: which file of the run is to be sent. */
  datatype UploadItem = UploadItem(uid: Text, compressed: bool)

  /** A server message whose handler has run, before its outgoing row is deleted. */
  datatype Pending = Pending(id: int, task: Option<Task>)

  /** How a submission ended. */
  datatype Fate = Accepted | Refused | Purged

  /** `submitted` and `fates` are history: which runs were handed over, and which of them ended, how. */
  datatype State = State(
    retry: seq<Entry>, lastTs: int,
    outgoing: map<int, Row>, upload: map<int, Row>, outgoingSeq: nat, uploadSeq: nat,
    krpr: set<Text>, krpz: set<Text>,
    active: set<Text>, tasks: seq<Task>, uploads: seq<UploadItem>, pending: Option<Pending>,
    submitted: set<Text>, fates: map<Text, Fate>)

  const FRESH := State([], 0, map[], map[], 0, 0, {}, {}, {}, [], [], None, {}, map[])

  // ---------------------------------------------------------------- storage

  /** The time a new entry is queued with: messages saved in quick succession are spread out. */
  function SaveStamp(lastTs: int, now: int): int {
    if now - lastTs < 5 then now + 5 else now
  }

  /** `kz_storage_get_next_id` and `kz_storage_save`, taken together. */
  function Save(s: State, table: Table, msgType: int, message: Payload, now: int): State {
    var id := (if table == Outgoing then s.outgoingSeq else s.uploadSeq) + 1;
    var q := s.retry + [Entry(0, msgType, id, SaveStamp(s.lastTs, now), table, message)];
    var row := Row(msgType, message, now);
    if table == Outgoing then
      s.(retry := q, lastTs := now, outgoing := s.outgoing[id := row], outgoingSeq := id)
    else
      s.(retry := q, lastTs := now, upload := s.upload[id := row], uploadSeq := id)
  }

  /** `kz_storage_save` into the outgoing table under an id obtained earlier: the insert fails if the id is
      taken by then. */
  function SaveAs(s: State, id: nat, msgType: int, message: Payload, now: int): State {
    var q := s.retry + [Entry(0, msgType, id, SaveStamp(s.lastTs, now), Outgoing, message)];
    var t := s.(retry := q, lastTs := now);
    if id in s.outgoing then t
    else t.(outgoing := s.outgoing[id := Row(msgType, message, now)],
        outgoingSeq := if id > s.outgoingSeq then id else s.outgoingSeq)
  }

  /** `kz_storage_delete`. */
  function Delete(s: State, id: int, table: Table): State {
    var q := Without(s.retry, id, table);
    if table == Outgoing then s.(retry := q, outgoing := s.outgoing - {id})
    else s.(retry := q, upload := s.upload - {id})
  }

  /** `kz_storage_delete_by_value`, which only the upload table supports. */
  function UploadsWithout(upload: map<int, Row>, uid: Text): map<int, Row> {
    map id | id in upload && upload[id].message != Replay(uid) :: upload[id]
  }

  /** `kz_storage_clear`, when a map ends. */
  function OnClear(s: State): State {
    var ids := EphemeralIds(s.retry, Outgoing);
    s.(retry := Durable(s.retry), outgoing := map id | id in s.outgoing && id !in ids :: s.outgoing[id])
  }

  function FromRow(id: int, row: Row, table: Table): Entry {
    Entry(0, row.msgType, id, row.createdAt, table, row.message)
  }

  /** The entries `kz_storage_load` makes of one table's rows, in the order the query returns them. */
  function Loaded(rows: map<int, Row>, order: seq<int>, table: Table): (q: seq<Entry>)
    requires forall k | 0 <= k < |order| :: order[k] in rows
    ensures |q| == |order| && forall k | 0 <= k < |q| :: q[k] == FromRow(order[k], rows[order[k]], table)
  {
    if order == [] then [] else [FromRow(order[0], rows[order[0]], table)] + Loaded(rows, order[1..], table)
  }

  /** A query result: every row once. */
  predicate Lists(order: seq<int>, rows: map<int, Row>) {
    && (forall k | 0 <= k < |order| :: order[k] in rows)
    && (forall id | id in rows :: id in order)
    && forall i, j | 0 <= i < j < |order| :: order[i] != order[j]
  }

  function OnLoad(s: State, outs: seq<int>, ups: seq<int>): State
    requires Lists(outs, s.outgoing) && Lists(ups, s.upload)
  {
    s.(retry := Loaded(s.outgoing, outs, Outgoing) + Loaded(s.upload, ups, Upload))
  }

  /** The process ends, by a crash or otherwise: only the tables and the files are left. */
  function OnRestart(s: State): State {
    s.(retry := [], lastTs := 0, active := {}, tasks := [], uploads := [], pending := None)
  }

  // ---------------------------------------------------------------- submission

  /** FINISH hands over a record: its raw file is in place, and the submission is saved. */
  function OnSubmit(s: State, uid: Text, now: int): State {
    Save(s.(krpr := s.krpr + {uid}, submitted := s.submitted + {uid}), Outgoing, ADD_RECORD, Record(uid), now)
  }

  /** Any other message. */
  function OnOtherMessage(s: State, msgType: int, text: Text, now: int): State {
    Save(s, Outgoing, msgType, Other(text), now)
  }

  /** History: a submitted run has come to its end. */
  function End(s: State, uid: Text, fate: Fate): map<Text, Fate> {
    if uid in s.submitted then s.fates[uid := fate] else s.fates
  }

  // ---------------------------------------------------------------- what the server says

  datatype Message =
    | RecordAck(id: int, uid: Text)
    | FileAck(id: int, uid: Text, status: bool, moved: bool)
    | ErrorAck(id: int, explained: bool)
    | OtherAck(id: int)

  /** `kz_ws_ack_record_ack`: the run is known, its replay is wanted. */
  function OnRecordAck(s: State, uid: Text, now: int): (State, Option<Task>) {
    if !ValidSegment(uid) || uid !in s.krpr then (s, None)
    else (Save(s.(active := s.active + {uid}), Upload, 0, Replay(uid), now), Some(SendUpload(uid)))
  }

  /** `kz_ws_ack_file_ack`: `moved` says whether directory, header and rename permit the move. */
  function OnFileAck(s: State, uid: Text, status: bool, moved: bool): (State, Option<Task>) {
    if !ValidSegment(uid) then (s, None)
    else if !status then (s, Some(RequeueUpload(uid)))
    else
      var moves := moved && uid in s.krpr && uid in s.krpz;
      var t := s.(retry := WithoutFirstUpload(s.retry, uid), active := s.active - {uid},
                  upload := UploadsWithout(s.upload, uid), fates := End(s, uid, Accepted));
      if moves then (t.(krpr := s.krpr - {uid}, krpz := s.krpz - {uid}), Some(OtherTask)) else (t, None)
  }

  /** `kz_ws_ack_error`: a refused record is to be discarded. */
  function OnErrorAck(s: State, id: int, explained: bool): (State, Option<Task>) {
    if id <= 0 || !explained || id !in s.outgoing then (s, None)
    else if s.outgoing[id].msgType != ADD_RECORD || !s.outgoing[id].message.Record? then (s, None)
    else
      var uid := s.outgoing[id].message.uid;
      (s.(fates := End(s, uid, Refused)), Some(Discard(uid)))
  }

  function Handle(s: State, m: Message, now: int): (State, Option<Task>) {
    match m
    case RecordAck(_, uid) => OnRecordAck(s, uid, now)
    case FileAck(_, uid, status, moved) => OnFileAck(s, uid, status, moved)
    case ErrorAck(id, explained) => OnErrorAck(s, id, explained)
    case OtherAck(_) => (s, None)
  }

  /** The first half of `kz_ws_onmessage`: the handler runs. */
  function OnMessage(s: State, m: Message, now: int): State {
    var (t, task) := Handle(s, m, now);
    t.(pending := Some(Pending(m.id, task)))
  }

  /** The second half: the task is queued, and only then the answered row deleted. A full task queue keeps the row. */
  function OnHandled(s: State, room: bool): State
    requires s.pending.Some?
  {
    var p := s.pending.value;
    var t := s.(pending := None);
    if p.task.Some? && !room then t
    else
      var u := if p.task.Some? then t.(tasks := s.tasks + [p.task.value]) else t;
      if p.id > 0 then Delete(u, p.id, Outgoing) else u
  }

  // ---------------------------------------------------------------- the game thread

  /** `kz_rp_compress_and_upload_async`: without room the upload is not active after all. */
  function QueueUpload(s: State, uid: Text, compressed: bool, room: bool): State {
    if room then s.(uploads := s.uploads + [UploadItem(uid, compressed)]) else s.(active := s.active - {uid})
  }

  /** `kz_ws_requeue_replay_upload`. */
  function RequeuedUpload(s: State, uid: Text, room: bool, now: int): State {
    if (uid !in s.krpr && uid !in s.krpz) || uid in s.active then s
    else QueueUpload(Save(s.(active := s.active + {uid}), Upload, 0, Replay(uid), now), uid, uid in s.krpz, room)
  }

  function OnTask(s: State, room: bool, now: int): State
    requires s.tasks != []
  {
    var t := s.(tasks := s.tasks[1..]);
    match s.tasks[0]
    case Discard(uid) =>
      t.(krpr := s.krpr - {uid}, krpz := s.krpz - {uid}, active := s.active - {uid},
          upload := UploadsWithout(s.upload, uid))
    case SendUpload(uid) => QueueUpload(t, uid, false, room)
    case RequeueUpload(uid) => RequeuedUpload(t, uid, room, now)
    case OtherTask => t
  }

  /** The retry pass, with what it does for the one entry it attempts; a message is just sent again. */
  function OnRetryPass(s: State, ts: int, lim: Limits, room: bool): State {
    var (q, attempt) := Pass(s.retry, ts, lim);
    var t := s.(retry := q);
    if attempt.Some? && attempt.value.table == Upload && attempt.value.message.Replay? then
      var uid := attempt.value.message.uid;
      if uid in s.active || (uid !in s.krpr && uid !in s.krpz) then t
      else QueueUpload(t.(active := s.active + {uid}), uid, uid in s.krpz, room)
    else t
  }

  /** The connection opens: everything pending is due again. */
  function OnOpen(s: State): State {
    s.(retry := Requeued(s.retry))
  }

  // ---------------------------------------------------------------- the upload thread

  /** One item: a raw file is compressed first; an item that cannot be read is given up until a retry. */
  function OnUpload(s: State, readable: bool): State
    requires s.uploads != []
  {
    var up := s.uploads[0];
    var t := s.(uploads := s.uploads[1..]);
    if up.compressed then
      if readable && up.uid in s.krpz then t else t.(active := s.active - {up.uid})
    else
      if readable && up.uid in s.krpr then t.(krpz := s.krpz + {up.uid}) else t.(active := s.active - {up.uid})
  }

  // ---------------------------------------------------------------- the operator

  function RunsIn(rows: map<int, Row>): set<Text> {
    set id | id in rows && !rows[id].message.Other? :: rows[id].message.uid
  }

  function OnOperatorDelete(s: State, id: int, table: Table): State {
    var rows := if table == Outgoing then s.outgoing else s.upload;
    var t := if id in rows && !rows[id].message.Other? then s.(fates := End(s, rows[id].message.uid, Purged)) else s;
    Delete(t, id, table)
  }

  /** `kz_storage_delete_all`. */
  function OnOperatorClear(s: State, table: Table): State {
    var rows := if table == Outgoing then s.outgoing else s.upload;
    var t := s.(retry := WithoutTable(s.retry, table),
        fates := s.fates + (map uid | uid in RunsIn(rows) * s.submitted :: Purged));
    if table == Outgoing then t.(outgoing := map[]) else t.(upload := map[])
  }

  // ---------------------------------------------------------------- steps

  datatype Input =
    | Submit(uid: Text, now: int)
    | OtherMessage(msgType: int, text: Text, now: int)
    | Received(m: Message, now: int)
    | Handled(room: bool)
    | RunTask(room: bool, now: int)
    | RetryPass(ts: int, lim: Limits, room: bool)
    | ProcessUpload(readable: bool)
    | Opened
    | MapEnds
    | Restart
    | Load(outs: seq<int>, ups: seq<int>)
    | OperatorDelete(id: int, table: Table)
    | OperatorClear(table: Table)

  /** A record submission is answered by its acknowledgement or an explained error, and only known ids are answered. */
  predicate Honest(s: State, m: Message) {
    && m.id <= s.outgoingSeq
    && (m.id in s.outgoing && s.outgoing[m.id].message.Record? ==>
          m == RecordAck(m.id, s.outgoing[m.id].message.uid) || m == ErrorAck(m.id, true))
  }

  /** When a step can happen; `Submit` and `Received` carry the assumptions on the players' runs and the server. */
  predicate CanTake(s: State, i: Input) {
    match i
    case Submit(uid, _) => ValidSegment(uid) && uid !in s.submitted
    case OtherMessage(msgType, _, _) => msgType != ADD_RECORD
    case Received(m, _) => s.pending.None? && Honest(s, m)
    case Handled(_) => s.pending.Some?
    case RunTask(_, _) => s.tasks != []
    case ProcessUpload(_) => s.uploads != []
    case Load(outs, ups) => Lists(outs, s.outgoing) && Lists(ups, s.upload)
    case _ => true
  }

  function Take(s: State, i: Input): State
    requires CanTake(s, i)
  {
    match i
    case Submit(uid, now) => OnSubmit(s, uid, now)
    case OtherMessage(msgType, text, now) => OnOtherMessage(s, msgType, text, now)
    case Received(m, now) => OnMessage(s, m, now)
    case Handled(room) => OnHandled(s, room)
    case RunTask(room, now) => OnTask(s, room, now)
    case RetryPass(ts, lim, room) => OnRetryPass(s, ts, lim, room)
    case ProcessUpload(readable) => OnUpload(s, readable)
    case Opened => OnOpen(s)
    case MapEnds => OnClear(s)
    case Restart => OnRestart(s)
    case Load(outs, ups) => OnLoad(s, outs, ups)
    case OperatorDelete(id, table) => OnOperatorDelete(s, id, table)
    case OperatorClear(table) => OnOperatorClear(s, table)
  }
}
