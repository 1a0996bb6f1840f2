/** The replay loop of one synchronizer: at most 1000 passes over the stored queue, each of
    which sends the oldest pending claim or, when there is none, uploads and links a photo. */
module CaptureSync {
  import opened HistoryRows
  import opened CaptureTypes
  import opened CaptureDevice
  import opened CaptureProtocol
  import opened CaptureSafety
  import opened CaptureRuns
  import opened CaptureService
  import opened Sorting

  const PASSES: nat := 1000

  /** `unfinished`. */
  predicate Unfinished(r: QueueRow) {
    r.status == QUEUED || (r.status == APPLIED && r.photo.Some? && !r.evidenceDone && !r.evidenceError)
  }

  /** A photo that has not got its link claim. */
  predicate Unlinked(r: QueueRow) {
    r.status == APPLIED && r.photo.Some? && !r.evidenceDone && !r.evidenceError && r.evidence.None?
  }

  /** The passes that a row can still take. */
  function Weight(r: QueueRow, scope: Id): nat {
    if r.scope != scope then 0
    else if r.status == QUEUED then (if r.photo.Some? then 3 else 1)
    else if LinkPending(r) then 1
    else if Unlinked(r) then 2
    else 0
  }

  ghost function AnyKey(q: map<Id, QueueRow>): (id: Id)
    requires q != map[]
    ensures id in q
  {
    assert q.Keys == {} ==> q == map[];
    var id :| id in q.Keys;
    id
  }

  ghost function Measure(q: map<Id, QueueRow>, scope: Id): nat
    decreases |q.Keys|
  {
    if q == map[] then 0
    else
      var id := AnyKey(q);
      assert (q - {id}).Keys == q.Keys - {id};
      Weight(q[id], scope) + Measure(q - {id}, scope)
  }

  lemma {:induction false} MeasureSplit(q: map<Id, QueueRow>, scope: Id, id: Id)
    requires id in q
    ensures Measure(q, scope) == Weight(q[id], scope) + Measure(q - {id}, scope)
    decreases |q.Keys|
  {
    var x := AnyKey(q);
    if x != id {
      assert (q - {x}).Keys == q.Keys - {x};
      assert (q - {id}).Keys == q.Keys - {id};
      MeasureSplit(q - {x}, scope, id);
      MeasureSplit(q - {id}, scope, x);
      assert q - {x} - {id} == q - {id} - {x};
    }
  }

  /** A pass changes one row, and that row gets lighter. */
  lemma {:induction false} Lighter(q: map<Id, QueueRow>, scope: Id, id: Id, r: QueueRow)
    requires id in q && Weight(r, scope) < Weight(q[id], scope)
    ensures Measure(q[id := r], scope) < Measure(q, scope)
  {
    MeasureSplit(q, scope, id);
    MeasureSplit(q[id := r], scope, id);
    assert q[id := r] - {id} == q - {id};
  }

  /** A weightless queue has nothing left to do. */
  lemma {:induction false} WeightlessIsDone(q: map<Id, QueueRow>, scope: Id, id: Id)
    requires Measure(q, scope) == 0 && id in q && q[id].scope == scope
    ensures Finished(q[id])
  {
    MeasureSplit(q, scope, id);
  }

  ghost predicate Keyed(q: map<Id, QueueRow>) {
    forall id :: id in q ==> q[id].id == id
  }

  /** The row was rejected, or applied with its link and its photo, if any, done or in error. */
  predicate Finished(r: QueueRow) {
    r.status == REJECTED || (r.status == APPLIED && (r.photo.Some? || r.evidence.Some? ==> r.evidenceDone || r.evidenceError))
  }

  /** The client's own test for unfinished rows finds them, but for a link without a photo. */
  lemma {:induction false} UnfinishedTells(r: QueueRow)
    ensures Finished(r) <==> !Unfinished(r) && !LinkPending(r)
  {
  }

  /** The scope has nothing left to send, upload or link. */
  ghost predicate Done(q: map<Id, QueueRow>, scope: Id) {
    forall id :: id in q && q[id].scope == scope ==> Finished(q[id])
  }

  // ----- reading the queue

  /** `rows`: the rows of one scope in ordinal order. */
  method RowsOf(q: map<Id, QueueRow>, scope: Id) returns (rows: seq<QueueRow>)
    requires Keyed(q)
    ensures forall r :: r in rows <==> r.id in q && q[r.id] == r && r.scope == scope
    ensures Sorted(rows, (r: QueueRow) => r.ordinal)
  {
    rows := [];
    var left := q.Keys;
    while left != {}
      invariant left <= q.Keys
      invariant forall r :: r in rows <==> r.id in q && r.id !in left && q[r.id] == r && r.scope == scope
      decreases |left|
    {
      var id :| id in left;
      left := left - {id};
      if q[id].scope == scope { rows := rows + [q[id]]; }
    }
    SortCorrect(rows, (r: QueueRow) => r.ordinal);
    SortMembers(rows, (r: QueueRow) => r.ordinal);
    rows := Sort(rows, (r: QueueRow) => r.ordinal);
  }

  function WorkOf(r: QueueRow): seq<Work> {
    (if r.status == QUEUED then [Work(r.id, r.envelope, r.ordinal, false)] else []) +
    (if LinkPending(r) then [Work(r.id, r.evidence.value, r.evidenceOrdinal, true)] else [])
  }

  /** The work of the next pass: pending, with the smallest ordinal. */
  method NextWork(q: map<Id, QueueRow>, scope: Id, rows: seq<QueueRow>) returns (next: Option<Work>)
    requires Keyed(q) && forall r :: r in rows <==> r.id in q && q[r.id] == r && r.scope == scope
    ensures forall st: Store :: st.queue == q ==>
              (next.Some? ==> IsNext(st, scope, next.value)) && (next.None? ==> forall w :: !Pending(st, scope, w))
  {
    var work: seq<Work> := [];
    for i := 0 to |rows|
      invariant forall w :: w in work <==> exists k :: 0 <= k < i && w in WorkOf(rows[k])
    {
      work := work + WorkOf(rows[i]);
    }
    SortCorrect(work, (w: Work) => w.ordinal);
    SortMembers(work, (w: Work) => w.ordinal);
    var sorted := Sort(work, (w: Work) => w.ordinal);
    next := if sorted == [] then None else Some(sorted[0]);
    forall st: Store, w | st.queue == q ensures w in sorted <==> Pending(st, scope, w) {
      PendingWork(st, scope, rows, w);
    }
    forall st: Store | st.queue == q && next.Some? ensures IsNext(st, scope, next.value) {
      forall w | Pending(st, scope, w) ensures sorted[0].ordinal <= w.ordinal {
        var k :| 0 <= k < |sorted| && sorted[k] == w;
      }
    }
  }

  lemma {:induction false} PendingWork(st: Store, scope: Id, rows: seq<QueueRow>, w: Work)
    requires Keyed(st.queue) && forall r :: r in rows <==> r.id in st.queue && st.queue[r.id] == r && r.scope == scope
    ensures Pending(st, scope, w) <==> exists k :: 0 <= k < |rows| && w in WorkOf(rows[k])
  {
    if Pending(st, scope, w) {
      var r := st.queue[w.row];
      assert r in rows;
      var k :| 0 <= k < |rows| && rows[k] == r;
      assert w in WorkOf(rows[k]);
    }
    if k :| 0 <= k < |rows| && w in WorkOf(rows[k]) {
      assert rows[k] in rows;
    }
  }

  method FindPhoto(rows: seq<QueueRow>) returns (found: Option<QueueRow>)
    ensures found.Some? ==> found.value in rows && Unlinked(found.value)
    ensures found.None? ==> forall r :: r in rows ==> !Unlinked(r)
  {
    found := None;
    var i := 0;
    while i < |rows| && found.None?
      invariant i <= |rows|
      invariant found.Some? ==> found.value in rows && Unlinked(found.value)
      invariant found.None? ==> forall k :: 0 <= k < i ==> !Unlinked(rows[k])
      decreases |rows| - i, found.None?
    {
      if Unlinked(rows[i]) { found := Some(rows[i]); }
      i := i + 1;
    }
  }

  // ----- one pass

  datatype Spare = Spare(client: Id, epoch: Id, id: Id, body: Id)

  /** What happens around each pass: whether the lease is held, the request arrives and its
      reply comes back, what the domain decides, whether the stored response names a line,
      what an upload yields, and fresh identities. */
  datatype Surroundings = Surroundings(
    leased: nat -> bool, delivered: nat -> bool, returned: nat -> bool, verdict: nat -> Verdict,
    line: Id -> bool, upload: (nat, Id) -> Option<Id>, spare: nat -> Spare)

  /** Nothing fails. */
  ghost predicate Smooth(env: Surroundings) {
    && (forall n :: env.leased(n) && env.delivered(n) && env.returned(n) && env.verdict(n).Decides?)
    && (forall id :: env.line(id)) && (forall n, id :: env.upload(n, id).Some?)
  }

  /** Which rows a pass may touch. */
  ghost predicate Elsewhere(q: map<Id, QueueRow>, q': map<Id, QueueRow>, scope: Id) {
    && q'.Keys == q.Keys
    && (forall id :: id in q ==> q'[id].scope == q[id].scope)
    && (forall id :: id in q && q[id].scope != scope ==> q'[id] == q[id])
  }

  /** A link claim exists only for a row that was applied. */
  ghost predicate LinksApplied(q: map<Id, QueueRow>) {
    forall id :: id in q && q[id].status == QUEUED ==> q[id].evidence.None? && !q[id].evidenceDone && !q[id].evidenceError
  }

  /** Every state of the protocol has such a queue. */
  lemma {:induction false} ProtocolQueue(s: Sys)
    requires Inv(s)
    ensures Keyed(s.store.queue) && LinksApplied(s.store.queue)
  {
    forall id | id in s.store.queue
      ensures s.store.queue[id].id == id
      ensures s.store.queue[id].status == QUEUED ==>
                s.store.queue[id].evidence.None? && !s.store.queue[id].evidenceDone && !s.store.queue[id].evidenceError
    {
      assert RowOk(s, id);
      var r := s.store.queue[id];
      if r.evidence.Some? { assert SlotOk(s, r.evidenceOrdinal - 1); }
    }
  }

  /** The row after a terminal reply: a claim is shown as applied or rejected, as the reply
      reads, and keeps everything else; a link is done or in error, and its photo leaves the
      device only when it is done. */
  predicate StoredOutcome(r: QueueRow, r': QueueRow, evidence: bool, reply: Reply) {
    if !evidence then
      && (r'.status == APPLIED <==> !ReadsRejected(reply)) && (r'.status == REJECTED <==> ReadsRejected(reply))
      && r' == r.(status := r'.status)
    else
      && (r'.evidenceDone <==> !ReadsRejected(reply)) && (r'.evidenceError <==> ReadsRejected(reply))
      && r'.photo == (if ReadsRejected(reply) then r.photo else None)
      && r' == r.(evidenceDone := r'.evidenceDone, evidenceError := r'.evidenceError, photo := r'.photo)
  }

  /** Stores the outcome of one claim or link, if there is a terminal reply. */
  method SendPass(d: Device, scope: Id, w: Work, reply: Option<Reply>) returns (ok: bool)
    requires Keyed(d.queue) && LinksApplied(d.queue) && Pending(d.Contents(), scope, w)
    modifies d
    ensures Elsewhere(old(d.queue), d.queue, scope) && d.meta == old(d.meta)
    ensures ok <==> reply.Some? && Terminal(reply.value, w.op)
    ensures ok ==> w.row in d.queue && d.queue == old(d.queue)[w.row := d.queue[w.row]]
    ensures ok ==> StoredOutcome(old(d.queue)[w.row], d.queue[w.row], w.evidence, reply.value)
    ensures ok ==> Measure(d.queue, scope) < Measure(old(d.queue), scope)
    ensures !ok ==> d.queue == old(d.queue)
  {
    ok := reply.Some? && Terminal(reply.value, w.op);
    if ok {
      ghost var was := d.queue;
      var settled := d.Settle(w, reply.value);
      Lighter(was, scope, w.row, d.queue[w.row]);
    }
  }

  /** Uploads the photo unless that is done, and gives it a link claim; the photo stays. */
  method PhotoPass(d: Device, scope: Id, row: QueueRow, line: bool, upload: Option<Id>, spare: Spare) returns (ok: bool)
    requires Keyed(d.queue) && LinksApplied(d.queue)
    requires row.id in d.queue && d.queue[row.id] == row && row.scope == scope && Unlinked(row)
    modifies d
    ensures Elsewhere(old(d.queue), d.queue, scope)
    ensures ok <==> line && (row.attachment.Some? || upload.Some?)
    ensures ok ==> row.id in d.queue && d.queue == old(d.queue)[row.id := d.queue[row.id]]
    ensures ok ==> var r := d.queue[row.id];
                   && r.photo == row.photo && r.status == row.status && r.envelope == row.envelope && r.ordinal == row.ordinal
                   && !r.evidenceDone && !r.evidenceError
                   && r.attachment == (if row.attachment.Some? then row.attachment else upload)
                   && r.evidence.Some? && r.evidence.value.id == spare.id && r.evidence.value.body == spare.body
                   && r.evidence.value.actor == scope
    ensures ok ==> d.Contents() == LinkedStore(old(d.Contents()), scope, row, upload, spare)
    ensures ok ==> Measure(d.queue, scope) < Measure(old(d.queue), scope)
    ensures !ok ==> d.Contents() == old(d.Contents())
  {
    ok := line && (row.attachment.Some? || upload.Some?);
    if ok {
      ghost var was := d.queue;
      if row.attachment.None? {
        d.queue := d.queue[row.id := row.(attachment := upload)];
      }
      var op := d.EvidenceOperation(scope, row.id, spare.client, spare.epoch, spare.id, spare.body);
      assert d.queue == was[row.id := d.queue[row.id]];
      Lighter(was, scope, row.id, d.queue[row.id]);
    }
  }

  /** The store with the upload noted, and with its link. */
  function Attached(st: Store, row: QueueRow, upload: Option<Id>): Store {
    if row.attachment.None? then st.(queue := st.queue[row.id := row.(attachment := upload)]) else st
  }

  function LinkedStore(st: Store, scope: Id, row: QueueRow, upload: Option<Id>, spare: Spare): Store {
    Linked(Attached(st, row, upload), scope, row.id, spare.client, spare.epoch, spare.id, spare.body)
  }

  /** The request and its reply, either of which can be lost. */
  method Exchange(server: CaptureServer, who: Id, op: Operation, v: Verdict, delivered: bool, returned: bool)
    returns (reply: Option<Reply>)
    modifies server
    ensures server.Contents() == if delivered then Processed(old(server.Contents()), who, op, v) else old(server.Contents())
    ensures reply == if delivered && returned then Some(ReplyTo(old(server.Contents()), who, op, v)) else None
  {
    reply := None;
    if delivered {
      var r := server.Process(who, op, v);
      if returned { reply := Some(r); }
    }
  }

  // ----- passes are runs of the protocol

  function RequestFor(scope: Id, w: Work): Request
    requires w.ordinal > 0
  {
    Request(w.op, scope, w.ordinal - 1)
  }

  /** The events of a pass that sends. */
  function SendEvents(y: Id, scope: Id, w: Work, v: Verdict, delivered: bool, reply: Option<Reply>): seq<Event>
    requires w.ordinal > 0
  {
    [Look(y, scope, w), Send(y)] + (if delivered then [Serve(RequestFor(scope, w), v)] else [])
    + [if reply.Some? then Receive(y, reply.value) else Crash(y)]
  }

  /** Looking and sending change nothing but the pick and the request. */
  lemma {:induction false} Asked(s: Sys, y: Id, scope: Id, w: Work)
    requires Inv(s) && IsNext(s.store, scope, w)
    ensures w.ordinal > 0
    ensures var t := Run(s, [Look(y, scope, w), Send(y)]);
            && Inv(t) && t == s.(picks := s.picks[y := Pick(scope, w)], sent := s.sent + {RequestFor(scope, w)})
  {
    NextIsReady(s, scope, w);
    var look, send := Look(y, scope, w), Send(y);
    RunTwo(s, look, send);
    LookKeeps(s, y, scope, w);
    SendKeeps(Apply(s, look), y);
  }

  lemma {:induction false} RunTwo(s: Sys, a: Event, b: Event)
    requires Enabled(s, a) && Enabled(Apply(s, a), b)
    ensures Run(s, [a, b]) == Apply(Apply(s, a), b)
  {
    assert Run(s, []) == s;
    RunOne(s, [], a);
    assert [] + [a] == [a];
    RunOne(s, [a], b);
    assert [a] + [b] == [a, b];
  }

  /** The reply to a claim that was sent, when the server decides, settles it. */
  lemma {:induction false} ServerAnswers(s: Sys, q: Request, v: Verdict)
    requires Inv(s) && q in s.sent && v.Decides?
    ensures Terminal(ReplyTo(s.server, q.who, q.op, v), q.op)
  {
    assert RequestOk(s, q);
    assert RecordOk(s, q.at);
    if q.op.id !in s.server.records { NoSequenceFlag(s, q); }
  }

  /** What a sending pass leaves, as a run of protocol events. */
  lemma {:induction false} SendIsRun(s: Sys, y: Id, scope: Id, w: Work, v: Verdict, delivered: bool, reply: Option<Reply>)
    requires Inv(s) && IsNext(s.store, scope, w) && VerdictCoded(v)
    requires reply.Some? ==> delivered && reply.value == ReplyTo(s.server, scope, w.op, v)
    ensures w.ordinal > 0
    ensures delivered && v.Decides? ==> Terminal(ReplyTo(s.server, scope, w.op, v), w.op)
    ensures var t := Run(s, SendEvents(y, scope, w, v, delivered, reply));
            && t.client == s.client && t.issued == s.issued
            && t.server == (if delivered then Processed(s.server, scope, w.op, v) else s.server)
            && t.store == (if reply.Some? && Terminal(reply.value, w.op) then WrittenDown(s.store, w, reply.value) else s.store)
  {
    Asked(s, y, scope, w);
    var q := RequestFor(scope, w);
    var asked := [Look(y, scope, w), Send(y)];
    var served := asked + (if delivered then [Serve(q, v)] else []);
    var s2 := Run(s, asked);
    if delivered {
      RunOne(s, asked, Serve(q, v));
      if v.Decides? { ServerAnswers(s2, q, v); }
    } else {
      assert served == asked;
    }
    var last := if reply.Some? then Receive(y, reply.value) else Crash(y);
    RunOne(s, served, last);
  }

  /** The store once the reply is written down. */
  function WrittenDown(st: Store, w: Work, reply: Reply): Store {
    if w.row !in st.queue then st
    else st.(queue := st.queue[w.row := if w.evidence then SettledEvidence(st.queue[w.row], reply)
                                        else SettledRow(st.queue[w.row], reply)])
  }

  function PhotoEvents(scope: Id, row: QueueRow, upload: Option<Id>, spare: Spare): seq<Event>
    requires row.attachment.Some? || upload.Some?
  {
    (if row.attachment.None? then [Attach(row.id, upload.value)] else [])
    + [Link(scope, row.id, spare.epoch, spare.id, spare.body)]
  }

  lemma {:induction false} MetaThere(s: Sys, id: Id)
    requires Inv(s) && id in s.store.queue
    ensures s.store.meta.Some?
  {
    assert RowOk(s, id) && MetaOk(s);
  }

  lemma {:induction false} UploadIsRun(s: Sys, row: QueueRow, upload: Option<Id>)
    requires Inv(s) && row.id in s.store.queue && s.store.queue[row.id] == row && row.status == APPLIED
    requires row.attachment.Some? || upload.Some?
    ensures var events := if row.attachment.None? then [Attach(row.id, upload.value)] else [];
            Run(s, events) == s.(store := Attached(s.store, row, upload))
  {
    assert Run(s, []) == s;
    if row.attachment.None? {
      RunOne(s, [], Attach(row.id, upload.value));
      assert [] + [Attach(row.id, upload.value)] == [Attach(row.id, upload.value)];
    }
  }

  /** What an uploading pass leaves, as a run of protocol events. */
  lemma {:induction false} PhotoIsRun(s: Sys, scope: Id, row: QueueRow, upload: Option<Id>, spare: Spare)
    requires Inv(s) && row.id in s.store.queue && s.store.queue[row.id] == row && row.scope == scope && Unlinked(row)
    requires (row.attachment.Some? || upload.Some?) && FreshId(s, spare.id) && FreshEpoch(s, spare.epoch)
    ensures var t := Run(s, PhotoEvents(scope, row, upload, spare));
            && t.client == s.client && t.server == s.server && |t.issued| == |s.issued| + 1 && t.issued[..|s.issued|] == s.issued
            && t.store == LinkedStore(s.store, scope, row, upload, spare)
            && t.issued[|s.issued|].op.id == spare.id && t.store.meta.Some? && s.store.meta.Some?
            && t.issued[|s.issued|].op.epoch == t.store.meta.value.epoch
            && t.store.meta.value.epoch in {s.store.meta.value.epoch, spare.epoch}
  {
    var attach := if row.attachment.None? then [Attach(row.id, upload.value)] else [];
    UploadIsRun(s, row, upload);
    MetaThere(s, row.id);
    RunOne(s, attach, Link(scope, row.id, spare.epoch, spare.id, spare.body));
  }

  // ----- fresh identities

  /** From pass n on the spare identities are unused and different. */
  ghost predicate SparesNew(s: Sys, env: Surroundings, n: nat) {
    && (forall k: nat :: k >= n ==> SpareNew(s, env.spare(k)))
    && (forall k: nat, l: nat :: n <= k < l ==> Differ(env.spare(k), env.spare(l)))
  }

  predicate Differ(a: Spare, b: Spare) {
    a.id != b.id && a.epoch != b.epoch
  }

  ghost predicate SpareNew(s: Sys, x: Spare) {
    FreshId(s, x.id) && FreshEpoch(s, x.epoch)
  }

  lemma {:induction false} SpareAfterSend(s: Sys, t: Sys, scope: Id, w: Work, v: Verdict, x: Spare)
    requires Inv(s) && IsNext(s.store, scope, w) && SpareNew(s, x)
    requires t.client == s.client && t.issued == s.issued && t.store.meta == s.store.meta && t.store.queue.Keys == s.store.queue.Keys
    requires t.server == s.server || t.server == Processed(s.server, scope, w.op, v)
    ensures SpareNew(t, x)
  {
    NextIsReady(s, scope, w);
    assert s.issued[w.ordinal - 1].op == w.op;
    assert SlotOk(s, w.ordinal - 1);
  }

  lemma {:induction false} SpareAfterPhoto(s: Sys, t: Sys, x: Spare, y: Spare)
    requires SpareNew(s, y) && Differ(x, y) && s.store.meta.Some? && t.store.meta.Some?
    requires t.client == s.client && t.server == s.server && t.store.queue.Keys == s.store.queue.Keys
    requires |t.issued| == |s.issued| + 1 && t.issued[..|s.issued|] == s.issued
    requires t.issued[|s.issued|].op.id == x.id && t.issued[|s.issued|].op.epoch == t.store.meta.value.epoch
    requires t.store.meta.value.epoch in {s.store.meta.value.epoch, x.epoch}
    ensures SpareNew(t, y)
  {
    forall i | 0 <= i < |t.issued| ensures t.issued[i].op.id != y.id && t.issued[i].op.epoch != y.epoch {
      if i < |s.issued| { assert t.issued[i] == t.issued[..|s.issued|][i]; }
    }
  }

  // ----- the loop in the protocol

  /** The protocol state that a list of events leads to. */
  ghost function StateAt(client: Id, start: Server, events: seq<Event>): Sys {
    Run(Start(client, start), events)
  }

  /** The device and the server hold what the events so far have led to. */
  ghost predicate Tells(client: Id, start: Server, events: seq<Event>, st: Store, v: Server) {
    Fresh(client, start) && StateAt(client, start, events).store == st && StateAt(client, start, events).server == v
  }

  lemma {:induction false} TellsSoundly(client: Id, start: Server, events: seq<Event>, st: Store, v: Server)
    requires Tells(client, start, events, st, v)
    ensures Inv(StateAt(client, start, events)) && Keyed(st.queue) && LinksApplied(st.queue)
  {
    StartOk(client, start);
    RunKeeps(Start(client, start), events);
    ProtocolQueue(StateAt(client, start, events));
  }

  /** The device shows what the server did: an applied row took effect once, a rejected one
      is recorded and did not, and a photo is gone only after its link took effect. */
  lemma {:induction false} StoreIsTrue(client: Id, start: Server, events: seq<Event>, st: Store, v: Server, id: Id)
    requires Tells(client, start, events, st, v) && id in st.queue
    ensures var r := st.queue[id];
            && (r.status == APPLIED ==> r.envelope.id in v.records && multiset(v.effects)[r.envelope.id] == 1)
            && (r.status == REJECTED ==> r.envelope.id in v.records && multiset(v.effects)[r.envelope.id] == 0)
            && (r.evidenceDone ==> r.evidence.Some? && multiset(v.effects)[r.evidence.value.id] == 1)
            && (r.evidenceError ==> r.evidence.Some? && multiset(v.effects)[r.evidence.value.id] == 0)
  {
    TellsSoundly(client, start, events, st, v);
    var s := StateAt(client, start, events);
    var r := st.queue[id];
    assert RowOk(s, id);
    assert SlotOk(s, r.ordinal - 1);
    AtMostOnce(client, start, events, r.ordinal - 1);
    if r.evidence.Some? {
      assert SlotOk(s, r.evidenceOrdinal - 1) && OutcomeOk(s, r.evidenceOrdinal - 1);
      AtMostOnce(client, start, events, r.evidenceOrdinal - 1);
    }
  }

  datatype Outcome = Drained | Spent | Unleased | Failed

  /** One pass; `idle` when there is nothing to do.  The events that it amounts to follow
      those that led to the present state. */
  method Pass(d: Device, server: CaptureServer, scope: Id, env: Surroundings, n: nat,
              ghost y: Id, ghost client: Id, ghost start: Server, ghost events: seq<Event>)
    returns (ok: bool, idle: bool, ghost more: seq<Event>)
    requires Tells(client, start, events, d.Contents(), server.Contents())
    requires SparesNew(StateAt(client, start, events), env, n) && VerdictCoded(env.verdict(n))
    modifies d, server
    ensures Tells(client, start, events + more, d.Contents(), server.Contents())
    ensures SparesNew(StateAt(client, start, events + more), env, n + 1)
    ensures Elsewhere(old(d.queue), d.queue, scope)
    ensures idle ==> d.queue == old(d.queue) && Done(d.queue, scope)
    ensures ok && !idle ==> Measure(d.queue, scope) < Measure(old(d.queue), scope)
    ensures !ok ==> d.queue == old(d.queue)
    ensures Smooth(env) ==> ok
  {
    TellsSoundly(client, start, events, d.Contents(), server.Contents());
    ghost var s := StateAt(client, start, events);
    var rows := RowsOf(d.queue, scope);
    var work := NextWork(d.queue, scope, rows);
    var photo := FindPhoto(rows);
    ok, idle, more := true, false, [];
    if work.Some? {
      var w := work.value;
      assert IsNext(d.Contents(), scope, w);
      ok, more := Sending(d, server, scope, env, n, w, y, s);
    } else if photo.Some? {
      ok, more := Linking(d, server, scope, env, n, photo.value, s);
    } else {
      idle := true;
      IdleIsDone(d.Contents(), scope, rows);
      assert Run(s, []) == s;
    }
    RunJoin(Start(client, start), events, more);
  }

  /** The pass sends the oldest pending claim or link. */
  method Sending(d: Device, server: CaptureServer, scope: Id, env: Surroundings, n: nat, w: Work, ghost y: Id, ghost s: Sys)
    returns (ok: bool, ghost more: seq<Event>)
    requires Inv(s) && s.store == d.Contents() && s.server == server.Contents() && IsNext(s.store, scope, w)
    requires Keyed(d.queue) && LinksApplied(d.queue) && SparesNew(s, env, n) && VerdictCoded(env.verdict(n))
    modifies d, server
    ensures Run(s, more).store == d.Contents() && Run(s, more).server == server.Contents()
    ensures SparesNew(Run(s, more), env, n + 1)
    ensures Elsewhere(old(d.queue), d.queue, scope)
    ensures ok ==> Measure(d.queue, scope) < Measure(old(d.queue), scope)
    ensures !ok ==> d.queue == old(d.queue)
    ensures Smooth(env) ==> ok
  {
    var reply := Exchange(server, scope, w.op, env.verdict(n), env.delivered(n), env.returned(n));
    SendIsRun(s, y, scope, w, env.verdict(n), env.delivered(n), reply);
    more := SendEvents(y, scope, w, env.verdict(n), env.delivered(n), reply);
    ok := SendPass(d, scope, w, reply);
    if ok { OutcomeIsSettled(s.store, d.queue, w, reply.value); }
    assert Run(s, more).store == d.Contents();
    SparesAfterSend(s, Run(s, more), env, n, scope, w);
  }

  lemma {:induction false} OutcomeIsSettled(st: Store, queue: map<Id, QueueRow>, w: Work, reply: Reply)
    requires w.row in st.queue && w.row in queue && queue == st.queue[w.row := queue[w.row]]
    requires StoredOutcome(st.queue[w.row], queue[w.row], w.evidence, reply)
    requires w.evidence ==> !st.queue[w.row].evidenceDone && !st.queue[w.row].evidenceError
    ensures WrittenDown(st, w, reply) == st.(queue := queue)
  {
  }

  lemma {:induction false} SparesAfterSend(s: Sys, t: Sys, env: Surroundings, n: nat, scope: Id, w: Work)
    requires Inv(s) && IsNext(s.store, scope, w) && SparesNew(s, env, n)
    requires t.client == s.client && t.issued == s.issued && t.store.meta == s.store.meta && t.store.queue.Keys == s.store.queue.Keys
    requires t.server == s.server || t.server == Processed(s.server, scope, w.op, env.verdict(n))
    ensures SparesNew(t, env, n + 1)
  {
    forall k: nat | k >= n + 1 ensures SpareNew(t, env.spare(k)) {
      assert SpareNew(s, env.spare(k));
      SpareAfterSend(s, t, scope, w, env.verdict(n), env.spare(k));
    }
  }

  /** The pass uploads a photo and links it. */
  method Linking(d: Device, server: CaptureServer, scope: Id, env: Surroundings, n: nat, row: QueueRow, ghost s: Sys)
    returns (ok: bool, ghost more: seq<Event>)
    requires Inv(s) && s.store == d.Contents() && s.server == server.Contents()
    requires row.id in d.queue && d.queue[row.id] == row && row.scope == scope && Unlinked(row)
    requires Keyed(d.queue) && LinksApplied(d.queue) && SparesNew(s, env, n)
    modifies d
    ensures Run(s, more).store == d.Contents() && Run(s, more).server == server.Contents()
    ensures SparesNew(Run(s, more), env, n + 1)
    ensures Elsewhere(old(d.queue), d.queue, scope)
    ensures ok ==> Measure(d.queue, scope) < Measure(old(d.queue), scope)
    ensures !ok ==> d.queue == old(d.queue)
    ensures Smooth(env) ==> ok
  {
    var upload, spare := env.upload(n, row.id), env.spare(n);
    more := [];
    ok := PhotoPass(d, scope, row, env.line(row.id), upload, spare);
    if ok {
      more := PhotoEvents(scope, row, upload, spare);
      LinkingIsRun(s, scope, row, upload, env, n);
    } else {
      NothingIsRun(s, env, n);
    }
  }

  lemma {:induction false} NothingIsRun(s: Sys, env: Surroundings, n: nat)
    requires SparesNew(s, env, n)
    ensures Run(s, []) == s && SparesNew(s, env, n + 1)
  {
  }

  lemma {:induction false} LinkingIsRun(s: Sys, scope: Id, row: QueueRow, upload: Option<Id>, env: Surroundings, n: nat)
    requires Inv(s) && row.id in s.store.queue && s.store.queue[row.id] == row && row.scope == scope && Unlinked(row)
    requires (row.attachment.Some? || upload.Some?) && SparesNew(s, env, n)
    ensures var t := Run(s, PhotoEvents(scope, row, upload, env.spare(n)));
            t.server == s.server && t.store == LinkedStore(s.store, scope, row, upload, env.spare(n)) && SparesNew(t, env, n + 1)
  {
    assert SpareNew(s, env.spare(n));
    PhotoIsRun(s, scope, row, upload, env.spare(n));
    LinkedKeys(s.store, scope, row, upload, env.spare(n));
    SparesAfterPhoto(s, Run(s, PhotoEvents(scope, row, upload, env.spare(n))), env, n);
  }

  lemma {:induction false} LinkedKeys(st: Store, scope: Id, row: QueueRow, upload: Option<Id>, spare: Spare)
    requires row.id in st.queue
    ensures LinkedStore(st, scope, row, upload, spare).queue.Keys == st.queue.Keys
  {
  }

  lemma {:induction false} SparesAfterPhoto(s: Sys, t: Sys, env: Surroundings, n: nat)
    requires SparesNew(s, env, n) && s.store.meta.Some? && t.store.meta.Some?
    requires t.client == s.client && t.server == s.server && t.store.queue.Keys == s.store.queue.Keys
    requires |t.issued| == |s.issued| + 1 && t.issued[..|s.issued|] == s.issued
    requires t.issued[|s.issued|].op.id == env.spare(n).id && t.issued[|s.issued|].op.epoch == t.store.meta.value.epoch
    requires t.store.meta.value.epoch in {s.store.meta.value.epoch, env.spare(n).epoch}
    ensures SparesNew(t, env, n + 1)
  {
    forall k: nat | k >= n + 1 ensures SpareNew(t, env.spare(k)) {
      assert SpareNew(s, env.spare(k)) && Differ(env.spare(n), env.spare(k));
      SpareAfterPhoto(s, t, env.spare(n), env.spare(k));
    }
  }

  /** `synchronize`, with the server at the other end.  However it ends, what it did is a run
      of protocol events, every completed pass took some weight off the scope's queue and no
      other scope was touched; with nothing failing and at most 1000 passes of work, the
      queue is drained. */
  method Synchronize(d: Device, server: CaptureServer, scope: Id, env: Surroundings,
                     ghost y: Id, ghost client: Id, ghost start: Server, ghost events: seq<Event>)
    returns (outcome: Outcome, passes: nat, ghost all: seq<Event>)
    requires Tells(client, start, events, d.Contents(), server.Contents())
    requires SparesNew(StateAt(client, start, events), env, 0) && forall n :: VerdictCoded(env.verdict(n))
    modifies d, server
    ensures events <= all && Tells(client, start, all, d.Contents(), server.Contents())
    ensures Elsewhere(old(d.queue), d.queue, scope)
    ensures passes <= PASSES && Measure(d.queue, scope) + passes <= Measure(old(d.queue), scope)
    ensures outcome == Drained ==> Done(d.queue, scope)
    ensures outcome == Spent ==> passes == PASSES
    ensures Smooth(env) ==> outcome == Drained || outcome == Spent
    ensures Smooth(env) && Measure(old(d.queue), scope) <= PASSES ==> Done(d.queue, scope)
  {
    outcome, passes, all := Spent, 0, events;
    while passes < PASSES && outcome == Spent
      invariant passes <= PASSES && events <= all && Tells(client, start, all, d.Contents(), server.Contents())
      invariant outcome == Spent ==> SparesNew(StateAt(client, start, all), env, passes)
      invariant Elsewhere(old(d.queue), d.queue, scope)
      invariant Measure(d.queue, scope) + passes <= Measure(old(d.queue), scope)
      invariant outcome == Drained ==> Done(d.queue, scope)
      invariant Smooth(env) ==> outcome == Drained || outcome == Spent
      decreases PASSES - passes, outcome == Spent
    {
      if !env.leased(passes) {
        outcome := Unleased;
      } else {
        ghost var before := d.queue;
        var ok, idle, more := Pass(d, server, scope, env, passes, y, client, start, all);
        all := all + more;
        ElsewhereTwice(old(d.queue), before, d.queue, scope);
        if idle {
          outcome := Drained;
        } else if ok {
          passes := passes + 1;
        } else {
          outcome := Failed;
        }
      }
    }
    if Measure(d.queue, scope) == 0 {
      forall id | id in d.queue && d.queue[id].scope == scope ensures Finished(d.queue[id]) {
        WeightlessIsDone(d.queue, scope, id);
      }
    }
  }

  lemma {:induction false} ElsewhereTwice(a: map<Id, QueueRow>, b: map<Id, QueueRow>, c: map<Id, QueueRow>, scope: Id)
    requires Elsewhere(a, b, scope) && Elsewhere(b, c, scope)
    ensures Elsewhere(a, c, scope)
  {
  }

  lemma {:induction false} IdleIsDone(st: Store, scope: Id, rows: seq<QueueRow>)
    requires Keyed(st.queue) && forall r :: r in rows <==> r.id in st.queue && st.queue[r.id] == r && r.scope == scope
    requires (forall w :: !Pending(st, scope, w)) && forall r :: r in rows ==> !Unlinked(r)
    ensures Done(st.queue, scope)
  {
    forall id | id in st.queue && st.queue[id].scope == scope ensures Finished(st.queue[id]) {
      var r := st.queue[id];
      assert r in rows;
      assert !Pending(st, scope, Work(id, r.envelope, r.ordinal, false));
      assert LinkPending(r) ==> Pending(st, scope, Work(id, r.evidence.value, r.evidenceOrdinal, true));
    }
  }
}
