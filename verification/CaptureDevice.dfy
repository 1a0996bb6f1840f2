/** The durable store of the capture client: one transaction allocates an ordinal and a
    stream position and inserts the claim that carries them. */
module CaptureDevice {
  import opened HistoryRows
  import opened CaptureTypes

  // ----- what each transaction does

  /** `allocate`: a new epoch for a new device, a new scope, or an exhausted sequence. */
  function NextMeta(m: Option<Meta>, scope: Id, client: Id, epoch: Id): Meta {
    if m.None? then Meta(client, epoch, scope, 1, 1)
    else if m.value.scope != scope || m.value.sequence >= MAX_SEQ then
      m.value.(epoch := epoch, scope := scope, sequence := 1, ordinal := m.value.ordinal + 1)
    else m.value.(sequence := m.value.sequence + 1, ordinal := m.value.ordinal + 1)
  }

  function Envelope(m: Meta, actor: Id, id: Id, body: Id): Operation {
    Operation(id, actor, m.client, m.epoch, m.sequence, body)
  }

  function Enqueued(st: Store, scope: Id, client: Id, epoch: Id, id: Id, body: Id, photo: Option<Id>): Store {
    var m := NextMeta(st.meta, scope, client, epoch);
    Store(Some(m), st.queue[id := QueueRow(id, scope, m.ordinal, Envelope(m, scope, id, body), QUEUED, photo, None,
                                           None, 0, false, false)])
  }

  function Reset(st: Store, scope: Id, epoch: Id): Store {
    if st.meta.None? then st
    else st.(meta := Some(st.meta.value.(epoch := epoch, scope := scope, sequence := 0)))
  }

  /** `evidenceOperation`: the link of an uploaded photo gets its own claim, once. */
  function Linked(st: Store, scope: Id, row: Id, client: Id, epoch: Id, id: Id, body: Id): Store {
    if row !in st.queue || st.queue[row].scope != scope || st.queue[row].attachment.None? then st
    else if st.queue[row].evidence.Some? then st
    else
      var m := NextMeta(st.meta, scope, client, epoch);
      Store(Some(m), st.queue[row := st.queue[row].(evidence := Some(Envelope(m, scope, id, body)),
                                                    evidenceOrdinal := m.ordinal)])
  }

  /** The update after a terminal reply to the row's own claim. */
  function SettledRow(r: QueueRow, reply: Reply): QueueRow {
    r.(status := if ReadsRejected(reply) then REJECTED else APPLIED)
  }

  /** The update after a terminal reply to the row's evidence link. */
  function SettledEvidence(r: QueueRow, reply: Reply): QueueRow {
    if ReadsRejected(reply) then r.(evidenceError := true) else r.(evidenceDone := true, photo := None)
  }

  // ----- the pieces of work a scope has left

  datatype Work = Work(row: Id, op: Operation, ordinal: int, evidence: bool)

  predicate LinkPending(r: QueueRow) {
    r.status == APPLIED && r.evidence.Some? && !r.evidenceDone && !r.evidenceError
  }

  predicate Pending(st: Store, scope: Id, w: Work) {
    w.row in st.queue && st.queue[w.row].scope == scope &&
    var r := st.queue[w.row];
    if w.evidence then LinkPending(r) && w.op == r.evidence.value && w.ordinal == r.evidenceOrdinal
    else r.status == QUEUED && w.op == r.envelope && w.ordinal == r.ordinal
  }

  /** The work that a pass picks: nothing pending in the scope has a smaller ordinal. */
  ghost predicate IsNext(st: Store, scope: Id, w: Work) {
    Pending(st, scope, w) && forall x :: Pending(st, scope, x) ==> w.ordinal <= x.ordinal
  }

  class Device {
    var meta: Option<Meta>
    var queue: map<Id, QueueRow>

    constructor ()
      ensures Contents() == Store(None, map[])
    {
      meta, queue := None, map[];
    }

    ghost function Contents(): Store
      reads this
    {
      Store(meta, queue)
    }

    /** `allocate`, on the stored meta record; `client` and `epoch` are fresh identities. */
    method Allocate(scope: Id, client: Id, epoch: Id) returns (m: Meta)
      modifies this`meta
      ensures m == NextMeta(old(meta), scope, client, epoch) && meta == Some(m)
      ensures old(meta).None? ==> m == Meta(client, epoch, scope, 1, 1)
      ensures old(meta).Some? ==>
                var was := old(meta).value;
                && m.client == was.client && m.scope == scope && m.ordinal == was.ordinal + 1
                && (if was.scope == scope && was.sequence < MAX_SEQ then m.epoch == was.epoch && m.sequence == was.sequence + 1
                    else m.epoch == epoch && m.sequence == 1)
    {
      m := if meta.Some? then meta.value else Meta(client, epoch, scope, 0, 0);
      if m.scope != scope {
        m := m.(epoch := epoch, sequence := 0, scope := scope);
      }
      if m.sequence >= MAX_SEQ {
        m := m.(epoch := epoch, sequence := 0);
      }
      m := m.(sequence := m.sequence + 1);
      m := m.(ordinal := m.ordinal + 1);
      meta := Some(m);
    }

    method Enqueue(scope: Id, client: Id, epoch: Id, id: Id, body: Id, photo: Option<Id>) returns (row: QueueRow)
      modifies this
      ensures Contents() == Enqueued(old(Contents()), scope, client, epoch, id, body, photo)
      ensures id in queue && row == queue[id] && meta.Some? && queue == old(queue)[id := row]
      ensures row.id == id && row.scope == scope && row.status == QUEUED && row.photo == photo && row.ordinal == meta.value.ordinal
      ensures row.envelope == Operation(id, scope, meta.value.client, meta.value.epoch, meta.value.sequence, body)
      ensures row.attachment.None? && row.evidence.None? && !row.evidenceDone && !row.evidenceError
    {
      var m := Allocate(scope, client, epoch);
      row := QueueRow(id, scope, m.ordinal, Envelope(m, scope, id, body), QUEUED, photo, None, None, 0, false, false);
      queue := queue[id := row];
    }

    method ResetEpoch(scope: Id, epoch: Id)
      modifies this
      ensures Contents() == Reset(old(Contents()), scope, epoch)
      ensures queue == old(queue) && (meta.Some? <==> old(meta).Some?)
      ensures meta.Some? ==> meta.value == Meta(old(meta).value.client, epoch, scope, 0, old(meta).value.ordinal)
    {
      if meta.Some? {
        meta := Some(meta.value.(epoch := epoch, sequence := 0, scope := scope));
      }
    }

    /** The link operation, or None where the source throws. */
    method EvidenceOperation(scope: Id, row: Id, client: Id, epoch: Id, id: Id, body: Id) returns (op: Option<Operation>)
      modifies this
      ensures Contents() == Linked(old(Contents()), scope, row, client, epoch, id, body)
      ensures op.Some? <==> row in old(queue) && old(queue)[row].scope == scope && old(queue)[row].attachment.Some?
      ensures op.Some? ==> row in queue && queue[row].evidence == op
      ensures op.Some? && old(queue)[row].evidence.Some? ==> Contents() == old(Contents())
      ensures op.Some? && old(queue)[row].evidence.None? ==>
                && meta.Some? && op.value == Operation(id, scope, meta.value.client, meta.value.epoch, meta.value.sequence, body)
                && queue == old(queue)[row := old(queue)[row].(evidence := op, evidenceOrdinal := meta.value.ordinal)]
    {
      if row !in queue || queue[row].scope != scope || queue[row].attachment.None? {
        op := None;
      } else if queue[row].evidence.Some? {
        op := queue[row].evidence;
      } else {
        var m := Allocate(queue[row].scope, client, epoch);
        op := Some(Envelope(m, scope, id, body));
        queue := queue[row := queue[row].(evidence := op, evidenceOrdinal := m.ordinal)];
      }
    }

    /** `updateRow` after a terminal reply; false where the record is missing. */
    method Settle(w: Work, reply: Reply) returns (ok: bool)
      modifies this`queue
      ensures ok <==> w.row in old(queue)
      ensures queue == if !ok then old(queue)
                       else if w.evidence then old(queue)[w.row := SettledEvidence(old(queue)[w.row], reply)]
                       else old(queue)[w.row := SettledRow(old(queue)[w.row], reply)]
    {
      ok := w.row in queue;
      if ok {
        var r := queue[w.row];
        queue := queue[w.row := if w.evidence then SettledEvidence(r, reply) else SettledRow(r, reply)];
      }
    }
  }
}
