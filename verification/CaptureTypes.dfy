/** Records of the offline capture protocol: the queued operation, the device store, and the
    server's terminal records, streams and committed consequences. */
module CaptureTypes {
  import opened HistoryRows

  const MAX_SEQ: int := 2147483647

  /** A captured claim.  The scope of a session is its actor, within one organization. */
  datatype Operation = Operation(id: Id, actor: Id, client: Id, epoch: Id, sequence: int, body: Id)

  // ----- the device

  datatype Meta = Meta(client: Id, epoch: Id, scope: Id, sequence: int, ordinal: int)

  datatype Status = QUEUED | APPLIED | REJECTED

  /** `evidenceDone` and `evidenceError` settle the link of the row's photo. */
  datatype QueueRow = QueueRow(
    id: Id, scope: Id, ordinal: int, envelope: Operation, status: Status,
    photo: Option<Id>, attachment: Option<Id>,
    evidence: Option<Operation>, evidenceOrdinal: int, evidenceDone: bool, evidenceError: bool)

  datatype Store = Store(meta: Option<Meta>, queue: map<Id, QueueRow>)

  // ----- the server

  datatype SyncState = Applied | Rejected | Duplicate

  /** `recorded` says that the reply carries a record time; `code` is the result's code. */
  datatype Reply = Reply(operation: Id, state: SyncState, recorded: bool, code: Option<string>)

  datatype Flag = SEQUENCE_REUSED | SEQUENCE_GAP

  datatype Record = Record(op: Operation, actor: Id, applied: bool, code: Option<string>, flags: set<Flag>)

  datatype StreamKey = StreamKey(client: Id, epoch: Id)

  datatype Stream = Stream(actor: Id, last: int)

  /** `processed` and `effects` are history: operations in the order of their first record,
      and those whose domain consequences were committed. */
  datatype Server = Server(
    records: map<Id, Record>, streams: map<StreamKey, Stream>, processed: seq<Id>, effects: seq<Id>)

  /** What the domain decides about an operation, or that the transaction fails. */
  datatype Verdict = Fails | Decides(applied: bool, code: Option<string>)

  function Unavailable(op: Operation): Reply {
    Reply(op.id, Rejected, false, Some("OPERATION_UNAVAILABLE"))
  }

  /** `_out`. */
  function ReplyOf(r: Record, duplicate: bool): Reply {
    Reply(r.op.id, if duplicate then Duplicate else if r.applied then Applied else Rejected, true, r.code)
  }

  function StreamFor(s: Server, who: Id, op: Operation): Stream {
    var key := StreamKey(op.client, op.epoch);
    if key in s.streams then s.streams[key] else Stream(who, 0)
  }

  /** `_sequence`. */
  function Flags(stream: Stream, op: Operation): set<Flag> {
    if op.sequence <= stream.last then {SEQUENCE_REUSED}
    else if op.sequence != stream.last + 1 then {SEQUENCE_GAP}
    else {}
  }

  function Max(a: int, b: int): int { if a < b then b else a }

  /** The record of a first processing. */
  function NewRecord(s: Server, who: Id, op: Operation, v: Verdict): Record
    requires v.Decides?
  {
    var mine := op.actor == who;
    Record(op, who, mine && v.applied, if mine then v.code else Some("INVALID_OPERATION"), Flags(StreamFor(s, who, op), op))
  }

  /** Whether processing inserts a new record. */
  predicate Records(s: Server, who: Id, op: Operation, v: Verdict) {
    op.id !in s.records && StreamFor(s, who, op).actor == who && v.Decides?
  }

  /** The server after `process`, run as one transaction by `batch`. */
  function Processed(s: Server, who: Id, op: Operation, v: Verdict): Server {
    if !Records(s, who, op, v) then s
    else
      var r := NewRecord(s, who, op, v);
      Server(
        s.records[op.id := r],
        s.streams[StreamKey(op.client, op.epoch) := Stream(who, Max(op.sequence, StreamFor(s, who, op).last))],
        s.processed + [op.id],
        if r.applied then s.effects + [op.id] else s.effects)
  }

  function ReplyTo(s: Server, who: Id, op: Operation, v: Verdict): Reply {
    if op.id in s.records then
      if s.records[op.id].actor == who then ReplyOf(s.records[op.id], true) else Unavailable(op)
    else if Records(s, who, op, v) then ReplyOf(NewRecord(s, who, op, v), false)
    else Unavailable(op)
  }

  // ----- the client's reading of a reply

  /** `terminal` accepts the reply as the outcome of this operation. */
  predicate Terminal(reply: Reply, op: Operation) {
    reply.operation == op.id && reply.recorded
  }

  /** `rejected`: a duplicate repeats the original outcome, recognised by its code. */
  predicate ReadsRejected(reply: Reply) {
    reply.state == Rejected || (reply.state == Duplicate && reply.code.Some?)
  }

  /** A rejected result carries a code, an applied one does not. */
  predicate Coded(applied: bool, code: Option<string>) {
    applied <==> code.None?
  }

  /** The client recognises the recorded outcome from every reply to a record, first or
      repeated, exactly when the code tells the two outcomes apart. */
  lemma {:induction false} ReadingIsFaithful(r: Record)
    ensures (forall duplicate :: ReadsRejected(ReplyOf(r, duplicate)) <==> !r.applied) <==> Coded(r.applied, r.code)
  {
    assert ReadsRejected(ReplyOf(r, true)) <==> r.code.Some?;
    assert ReadsRejected(ReplyOf(r, false)) <==> !r.applied;
  }
}
