/** The capture protocol as a whole: one device with any number of synchronizers, a network
    that delays, repeats and loses, and a server that other devices use as well.  Nothing
    here consults the lease: any synchronizer may act at any time, so every interleaving
    that leases allow, and more, is covered. */
module CaptureProtocol {
  import opened HistoryRows
  import opened CaptureTypes
  import opened CaptureDevice

  /** The i-th claim that the device allocated an ordinal for (ordinal i+1). */
  datatype Claim = Claim(op: Operation, scope: Id, row: Id, evidence: bool, photo: bool)

  /** What one synchronizer remembers between reading the queue and using the reply. */
  datatype Pick = Pick(scope: Id, work: Work)

  /** A request in the network; `at` is the position of its claim. */
  datatype Request = Request(op: Operation, who: Id, at: nat)

  datatype Sys = Sys(
    client: Id, store: Store, server: Server, picks: map<Id, Pick>,
    sent: set<Request>, replies: set<Reply>, issued: seq<Claim>)

  datatype Event =
    | Capture(scope: Id, epoch: Id, id: Id, body: Id, photo: Option<Id>)
    | NewEpoch(scope: Id, epoch: Id)
    | Look(sync: Id, scope: Id, work: Work)
    | Send(sync: Id)
    | Serve(request: Request, verdict: Verdict)
    | Receive(sync: Id, reply: Reply)
    | Crash(sync: Id)
    | Attach(row: Id, attachment: Id)
    | Link(scope: Id, row: Id, epoch: Id, id: Id, body: Id)
    | Foreign(who: Id, op: Operation, verdict: Verdict)

  function Start(client: Id, server: Server): Sys {
    Sys(client, Store(None, map[]), server, map[], {}, {}, [])
  }

  // ----- when an event can happen, and what it does

  ghost predicate FreshId(s: Sys, id: Id) {
    && id !in s.server.records && id !in s.store.queue
    && forall i :: 0 <= i < |s.issued| ==> s.issued[i].op.id != id
  }

  ghost predicate FreshEpoch(s: Sys, epoch: Id) {
    && StreamKey(s.client, epoch) !in s.server.streams
    && (s.store.meta.Some? ==> s.store.meta.value.epoch != epoch)
    && forall i :: 0 <= i < |s.issued| ==> s.issued[i].op.epoch != epoch
  }

  ghost predicate OwnId(s: Sys, id: Id) {
    exists i :: 0 <= i < |s.issued| && s.issued[i].op.id == id
  }

  predicate VerdictCoded(v: Verdict) {
    v.Decides? ==> Coded(v.applied, v.code)
  }

  ghost predicate Enabled(s: Sys, e: Event) {
    match e
    case Capture(scope, epoch, id, body, photo) => FreshId(s, id) && FreshEpoch(s, epoch)
    case NewEpoch(scope, epoch) => FreshEpoch(s, epoch)
    case Look(y, scope, w) => IsNext(s.store, scope, w)
    case Send(y) => y in s.picks && s.picks[y].work.ordinal > 0
    case Serve(q, v) => q in s.sent && VerdictCoded(v)
    case Receive(y, reply) => y in s.picks && reply in s.replies
    case Crash(y) => true
    case Attach(row, attachment) => row in s.store.queue && s.store.queue[row].status == APPLIED
    case Link(scope, row, epoch, id, body) =>
      row in s.store.queue && s.store.queue[row].status == APPLIED && FreshId(s, id) && FreshEpoch(s, epoch)
    case Foreign(who, op, v) => op.client != s.client && !OwnId(s, op.id) && VerdictCoded(v)
  }

  function Links(s: Sys, scope: Id, row: Id): bool {
    row in s.store.queue && s.store.queue[row].scope == scope && s.store.queue[row].attachment.Some?
    && s.store.queue[row].evidence.None?
  }

  function Apply(s: Sys, e: Event): Sys {
    match e
    case Capture(scope, epoch, id, body, photo) =>
      var m := NextMeta(s.store.meta, scope, s.client, epoch);
      s.(store := Enqueued(s.store, scope, s.client, epoch, id, body, photo),
         issued := s.issued + [Claim(Envelope(m, scope, id, body), scope, id, false, photo.Some?)])
    case NewEpoch(scope, epoch) => s.(store := Reset(s.store, scope, epoch))
    case Look(y, scope, w) => s.(picks := s.picks[y := Pick(scope, w)])
    case Send(y) =>
      if y in s.picks && s.picks[y].work.ordinal > 0 then
        s.(sent := s.sent + {Request(s.picks[y].work.op, s.picks[y].scope, s.picks[y].work.ordinal - 1)})
      else s
    case Serve(q, v) =>
      s.(server := Processed(s.server, q.who, q.op, v), replies := s.replies + {ReplyTo(s.server, q.who, q.op, v)})
    case Receive(y, reply) =>
      if y in s.picks && Terminal(reply, s.picks[y].work.op) && s.picks[y].work.row in s.store.queue then
        var w := s.picks[y].work;
        var r := s.store.queue[w.row];
        s.(store := s.store.(queue := s.store.queue[w.row := if w.evidence then SettledEvidence(r, reply)
                                                              else SettledRow(r, reply)]),
           picks := s.picks - {y})
      else s.(picks := s.picks - {y})
    case Crash(y) => s.(picks := s.picks - {y})
    case Attach(row, attachment) =>
      if row in s.store.queue then
        s.(store := s.store.(queue := s.store.queue[row := s.store.queue[row].(attachment := Some(attachment))]))
      else s
    case Link(scope, row, epoch, id, body) =>
      if Links(s, scope, row) then
        var m := NextMeta(s.store.meta, scope, s.client, epoch);
        s.(store := Linked(s.store, scope, row, s.client, epoch, id, body),
           issued := s.issued + [Claim(Envelope(m, scope, id, body), scope, row, true, false)])
      else s
    case Foreign(who, op, v) => s.(server := Processed(s.server, who, op, v))
  }

  // ----- the invariant

  /** Claim i is settled on the device. */
  predicate Settled(s: Sys, i: int)
    requires 0 <= i < |s.issued|
  {
    var c := s.issued[i];
    c.row in s.store.queue &&
    var r := s.store.queue[c.row];
    if c.evidence then r.evidenceDone || r.evidenceError else r.status != QUEUED
  }

  /** Claim i is shown as applied on the device. */
  predicate ShownApplied(s: Sys, i: int)
    requires 0 <= i < |s.issued|
  {
    var c := s.issued[i];
    c.row in s.store.queue &&
    var r := s.store.queue[c.row];
    if c.evidence then r.evidenceDone else r.status == APPLIED
  }

  predicate Recorded(s: Sys, i: int)
    requires 0 <= i < |s.issued|
  {
    s.issued[i].op.id in s.server.records
  }

  function RecordAt(s: Sys, i: int): Record
    requires 0 <= i < |s.issued| && Recorded(s, i)
  {
    s.server.records[s.issued[i].op.id]
  }

  /** The device row that holds claim i. */
  predicate SlotOk(s: Sys, i: int)
    requires 0 <= i < |s.issued|
  {
    var c := s.issued[i];
    && c.row in s.store.queue
    && c.op.actor == c.scope && c.op.client == s.client && 1 <= c.op.sequence
    && var r := s.store.queue[c.row];
       && r.scope == c.scope
       && (if c.evidence then r.evidence == Some(c.op) && r.evidenceOrdinal == i + 1 && r.status == APPLIED
           else c.row == c.op.id && r.envelope == c.op && r.ordinal == i + 1)
       && (!c.evidence && c.photo && r.photo.None? ==> r.evidence.Some? && r.evidenceDone)
  }

  /** What the device shows is what the server recorded. */
  predicate OutcomeOk(s: Sys, i: int)
    requires 0 <= i < |s.issued|
  {
    && (Settled(s, i) ==> Recorded(s, i) && (ShownApplied(s, i) <==> RecordAt(s, i).applied))
    && (s.issued[i].evidence && s.issued[i].row in s.store.queue ==>
          !(s.store.queue[s.issued[i].row].evidenceDone && s.store.queue[s.issued[i].row].evidenceError))
  }

  /** Every row of the queue, and its link, was issued. */
  predicate RowOk(s: Sys, id: Id) {
    id in s.store.queue ==>
      var r := s.store.queue[id];
      && r.id == id && 1 <= r.ordinal <= |s.issued| && s.issued[r.ordinal - 1].row == id && !s.issued[r.ordinal - 1].evidence
      && (r.evidence.None? ==> !r.evidenceDone && !r.evidenceError)
      && (r.evidence.Some? ==>
            (&& r.ordinal < r.evidenceOrdinal <= |s.issued|
             && s.issued[r.evidenceOrdinal - 1].row == id && s.issued[r.evidenceOrdinal - 1].evidence))
  }

  /** All earlier claims of the scope are settled on the device. */
  ghost predicate Ready(s: Sys, i: int)
    requires 0 <= i < |s.issued|
  {
    forall j :: 0 <= j < i && s.issued[j].scope == s.issued[i].scope ==> Settled(s, j)
  }

  ghost predicate RequestOk(s: Sys, q: Request) {
    q.at < |s.issued| && s.issued[q.at].op == q.op && q.who == s.issued[q.at].scope && Ready(s, q.at)
  }

  ghost predicate PickOk(s: Sys, p: Pick) {
    var w := p.work;
    && 1 <= w.ordinal <= |s.issued|
    && var c := s.issued[w.ordinal - 1];
       && c.op == w.op && c.scope == p.scope && c.row == w.row && c.evidence == w.evidence
       && Ready(s, w.ordinal - 1)
  }

  /** The server's record of claim i, and that no claim overtook an earlier one. */
  ghost predicate RecordOk(s: Sys, i: int)
    requires 0 <= i < |s.issued|
  {
    Recorded(s, i) ==>
      && RecordAt(s, i).op == s.issued[i].op && RecordAt(s, i).actor == s.issued[i].scope
      && RecordAt(s, i).flags == {} && Coded(RecordAt(s, i).applied, RecordAt(s, i).code)
      && forall j :: 0 <= j < i && s.issued[j].scope == s.issued[i].scope ==> Recorded(s, j)
  }

  function KeyOf(s: Sys, i: int): StreamKey
    requires 0 <= i < |s.issued|
  {
    StreamKey(s.client, s.issued[i].op.epoch)
  }

  /** The stream cursor separates the recorded claims of its epoch from the others. */
  predicate StreamOk(s: Sys, i: int)
    requires 0 <= i < |s.issued|
  {
    && (Recorded(s, i) <==>
          KeyOf(s, i) in s.server.streams && s.issued[i].op.sequence <= s.server.streams[KeyOf(s, i)].last)
    && (KeyOf(s, i) in s.server.streams ==>
          s.server.streams[KeyOf(s, i)].actor == s.issued[i].scope && s.server.streams[KeyOf(s, i)].last >= 1)
  }

  /** A cursor of this device stands at a claim that was issued. */
  ghost predicate CursorOk(s: Sys, epoch: Id) {
    var key := StreamKey(s.client, epoch);
    key in s.server.streams ==>
      exists i :: 0 <= i < |s.issued| && s.issued[i].op.epoch == epoch && s.issued[i].op.sequence == s.server.streams[key].last
  }

  /** Within an epoch the sequence starts at 1 and has no gap. */
  ghost predicate PredecessorOk(s: Sys, i: int)
    requires 0 <= i < |s.issued|
  {
    s.issued[i].op.sequence > 1 ==>
      exists j :: 0 <= j < i && s.issued[j].op.epoch == s.issued[i].op.epoch
                  && s.issued[j].op.sequence == s.issued[i].op.sequence - 1
  }

  /** One epoch serves one scope, and its sequence grows with the ordinal. */
  predicate EpochOk(s: Sys, i: int, j: int)
    requires 0 <= i < j < |s.issued|
  {
    && s.issued[i].op.id != s.issued[j].op.id
    && (s.issued[i].op.epoch == s.issued[j].op.epoch ==>
          s.issued[i].scope == s.issued[j].scope && s.issued[i].op.sequence < s.issued[j].op.sequence)
  }

  ghost predicate MetaOk(s: Sys) {
    if s.store.meta.None? then s.issued == []
    else
      var m := s.store.meta.value;
      && m.client == s.client && m.ordinal == |s.issued| && 0 <= m.sequence <= MAX_SEQ
      && (forall i :: 0 <= i < |s.issued| && s.issued[i].op.epoch == m.epoch ==>
            s.issued[i].scope == m.scope && s.issued[i].op.sequence <= m.sequence)
      && (m.sequence > 0 ==>
            exists i :: 0 <= i < |s.issued| && s.issued[i].op.epoch == m.epoch && s.issued[i].op.sequence == m.sequence)
  }

  predicate ReplyOk(s: Sys, p: Reply, i: int)
    requires 0 <= i < |s.issued|
  {
    p.recorded && p.operation == s.issued[i].op.id ==>
      Recorded(s, i) && (ReadsRejected(p) <==> !RecordAt(s, i).applied)
  }

  /** The server's history sequences match its records. */
  ghost predicate ServerOk(v: Server) {
    && (forall a, b :: 0 <= a < b < |v.processed| ==> v.processed[a] != v.processed[b])
    && (forall id :: id in v.processed <==> id in v.records)
    && (forall a, b :: 0 <= a < b < |v.effects| ==> v.effects[a] != v.effects[b])
    && (forall id :: id in v.effects <==> id in v.records && v.records[id].applied)
  }

  /** When processed[b] was first recorded, every earlier claim of its scope already was. */
  ghost predicate OrderOk(s: Sys, b: int)
    requires 0 <= b < |s.server.processed|
  {
    forall i, j | 0 <= j < i < |s.issued| && s.issued[j].scope == s.issued[i].scope ::
      s.issued[i].op.id == s.server.processed[b] ==> s.issued[j].op.id in s.server.processed[..b]
  }

  ghost predicate DeviceInv(s: Sys) {
    && (forall i :: 0 <= i < |s.issued| ==> SlotOk(s, i))
    && (forall id :: RowOk(s, id))
    && (forall i, j :: 0 <= i < j < |s.issued| ==> EpochOk(s, i, j))
    && (forall i :: 0 <= i < |s.issued| ==> PredecessorOk(s, i))
    && MetaOk(s)
  }

  ghost predicate NetworkInv(s: Sys) {
    && (forall q :: q in s.sent ==> RequestOk(s, q))
    && (forall y :: y in s.picks ==> PickOk(s, s.picks[y]))
    && (forall p :: p in s.replies && p.recorded ==> p.operation in s.server.records)
    && (forall p, i :: p in s.replies && 0 <= i < |s.issued| ==> ReplyOk(s, p, i))
  }

  ghost predicate RecordInv(s: Sys) {
    && (forall i :: 0 <= i < |s.issued| ==> OutcomeOk(s, i))
    && (forall i :: 0 <= i < |s.issued| ==> RecordOk(s, i))
    && (forall i :: 0 <= i < |s.issued| ==> StreamOk(s, i))
    && (forall epoch :: CursorOk(s, epoch))
    && ServerOk(s.server)
    && (forall b :: 0 <= b < |s.server.processed| ==> OrderOk(s, b))
  }

  ghost predicate Inv(s: Sys) {
    DeviceInv(s) && NetworkInv(s) && RecordInv(s)
  }
}
