/** Every event of the capture protocol keeps its invariant. */
module CaptureSafety {
  import opened HistoryRows
  import opened CaptureTypes
  import opened CaptureDevice
  import opened CaptureProtocol

  // ----- new claims

  /** Appending a claim with a fresh identity leaves earlier claims as they were. */
  ghost predicate Extends(s: Sys, s': Sys, c: Claim) {
    && s'.client == s.client && s'.server == s.server && s'.picks == s.picks
    && s'.sent == s.sent && s'.replies == s.replies && s'.issued == s.issued + [c]
    && FreshId(s, c.op.id)
    && (forall i :: 0 <= i < |s.issued| ==> (Settled(s', i) <==> Settled(s, i)))
    && (forall i :: 0 <= i < |s.issued| ==> (ShownApplied(s', i) <==> ShownApplied(s, i)))
  }

  lemma {:induction false} ReadyStays(s: Sys, s': Sys, c: Claim, i: nat)
    requires Extends(s, s', c) && i < |s.issued| && Ready(s, i)
    ensures Ready(s', i)
  {
    forall j | 0 <= j < i && s'.issued[j].scope == s'.issued[i].scope ensures Settled(s', j) {
      assert Settled(s, j);
    }
  }

  lemma {:induction false} NewClaimNetwork(s: Sys, s': Sys, c: Claim)
    requires NetworkInv(s) && Extends(s, s', c)
    ensures NetworkInv(s')
  {
    forall q | q in s'.sent ensures RequestOk(s', q) {
      assert RequestOk(s, q);
      ReadyStays(s, s', c, q.at);
    }
    forall y | y in s'.picks ensures PickOk(s', s'.picks[y]) {
      assert PickOk(s, s.picks[y]);
      ReadyStays(s, s', c, s.picks[y].work.ordinal - 1);
    }
    forall p, i | p in s'.replies && 0 <= i < |s'.issued| ensures ReplyOk(s', p, i) {
      if i < |s.issued| { assert ReplyOk(s, p, i); }
    }
  }

  /** The position that the next claim takes in its epoch. */
  ghost predicate Allocated(s: Sys, c: Claim, spare: Id) {
    var m := NextMeta(s.store.meta, c.scope, s.client, spare);
    c.op == Envelope(m, c.scope, c.op.id, c.op.body) && FreshEpoch(s, spare)
  }

  lemma {:induction false} NewClaimEpoch(s: Sys, s': Sys, c: Claim, spare: Id)
    requires DeviceInv(s) && Extends(s, s', c) && Allocated(s, c, spare)
    requires s'.store.meta == Some(NextMeta(s.store.meta, c.scope, s.client, spare))
    ensures forall i, j :: 0 <= i < j < |s'.issued| ==> EpochOk(s', i, j)
    ensures forall i :: 0 <= i < |s'.issued| ==> PredecessorOk(s', i)
    ensures MetaOk(s')
  {
    forall i, j | 0 <= i < j < |s'.issued| ensures EpochOk(s', i, j) {
      if j < |s.issued| { assert EpochOk(s, i, j); }
    }
    forall i | 0 <= i < |s'.issued| ensures PredecessorOk(s', i) {
      if i < |s.issued| {
        assert PredecessorOk(s, i);
        if s.issued[i].op.sequence > 1 {
          var j :| 0 <= j < i && s.issued[j].op.epoch == s.issued[i].op.epoch
                   && s.issued[j].op.sequence == s.issued[i].op.sequence - 1;
          assert s'.issued[j] == s.issued[j];
        }
      } else if c.op.sequence > 1 {
        var m := s.store.meta.value;
        var j :| 0 <= j < |s.issued| && s.issued[j].op.epoch == m.epoch && s.issued[j].op.sequence == m.sequence;
        assert s'.issued[j] == s.issued[j];
      }
    }
    assert s'.issued[|s.issued|] == c;
  }

  lemma {:induction false} NewClaimStream(s: Sys, s': Sys, c: Claim, spare: Id)
    requires DeviceInv(s) && RecordInv(s) && Extends(s, s', c) && Allocated(s, c, spare)
    ensures StreamOk(s', |s.issued|)
  {
    var n := |s.issued|;
    assert s'.issued[n] == c;
    if KeyOf(s', n) in s.server.streams {
      assert CursorOk(s, c.op.epoch);
      var i :| 0 <= i < |s.issued| && s.issued[i].op.epoch == c.op.epoch
               && s.issued[i].op.sequence == s.server.streams[KeyOf(s', n)].last;
      assert StreamOk(s, i) && SlotOk(s, i);
    }
  }

  lemma {:induction false} NewClaimRecords(s: Sys, s': Sys, c: Claim, spare: Id)
    requires DeviceInv(s) && RecordInv(s) && Extends(s, s', c) && Allocated(s, c, spare)
    requires SlotOk(s', |s.issued|) && !Settled(s', |s.issued|)
    requires forall i :: 0 <= i < |s.issued| ==> OutcomeOk(s', i)
    ensures RecordInv(s')
  {
    NewClaimStream(s, s', c, spare);
    forall i | 0 <= i < |s'.issued| ensures RecordOk(s', i) && StreamOk(s', i) {
      if i < |s.issued| { assert RecordOk(s, i) && StreamOk(s, i); }
    }
    forall epoch ensures CursorOk(s', epoch) {
      assert CursorOk(s, epoch);
      if StreamKey(s.client, epoch) in s.server.streams {
        var i :| 0 <= i < |s.issued| && s.issued[i].op.epoch == epoch
                 && s.issued[i].op.sequence == s.server.streams[StreamKey(s.client, epoch)].last;
        assert s'.issued[i] == s.issued[i];
      }
    }
    forall b | 0 <= b < |s'.server.processed| ensures OrderOk(s', b) {
      assert OrderOk(s, b);
      assert s.server.processed[b] in s.server.records;
    }
  }

  /** The device side of one new claim: its row, and the rows of the others. */
  ghost predicate Placed(s: Sys, s': Sys, c: Claim) {
    && Extends(s, s', c)
    && (forall i :: 0 <= i <= |s.issued| ==> SlotOk(s', i) && OutcomeOk(s', i))
    && !Settled(s', |s.issued|)
    && (forall id :: RowOk(s', id))
  }

  lemma {:induction false} PlacedKeeps(s: Sys, s': Sys, c: Claim, spare: Id)
    requires Inv(s) && Placed(s, s', c) && Allocated(s, c, spare)
    requires s'.store.meta == Some(NextMeta(s.store.meta, c.scope, s.client, spare))
    ensures Inv(s')
  {
    NewClaimNetwork(s, s', c);
    NewClaimEpoch(s, s', c, spare);
    NewClaimRecords(s, s', c, spare);
  }

  lemma {:induction false} CapturePlaces(s: Sys, e: Event)
    requires Inv(s) && e.Capture? && Enabled(s, e)
    ensures Placed(s, Apply(s, e), Apply(s, e).issued[|s.issued|])
  {
    var s' := Apply(s, e);
    assert MetaOk(s);
    forall i | 0 <= i < |s.issued|
      ensures SlotOk(s', i) && OutcomeOk(s', i)
      ensures (Settled(s', i) <==> Settled(s, i)) && (ShownApplied(s', i) <==> ShownApplied(s, i))
    {
      assert SlotOk(s, i) && OutcomeOk(s, i);
    }
    forall x ensures RowOk(s', x) { assert RowOk(s, x); }
  }

  /** Row `row` gets its link claim. */
  ghost predicate GainsLink(s: Sys, s': Sys, row: Id, c: Claim) {
    && row in s.store.queue && s.store.queue[row].evidence.None? && c.evidence
    && s'.store.queue == s.store.queue[row := s.store.queue[row].(evidence := Some(c.op), evidenceOrdinal := |s.issued| + 1)]
    && s'.client == s.client && s'.server == s.server && s'.issued == s.issued + [c]
  }

  lemma {:induction false} OthersKeepSlot(s: Sys, s': Sys, row: Id, c: Claim, i: nat)
    requires i < |s.issued| && SlotOk(s, i) && OutcomeOk(s, i) && GainsLink(s, s', row, c)
    ensures SlotOk(s', i) && OutcomeOk(s', i)
    ensures (Settled(s', i) <==> Settled(s, i)) && (ShownApplied(s', i) <==> ShownApplied(s, i))
  {
  }

  lemma {:induction false} LinkPlaces(s: Sys, e: Event)
    requires Inv(s) && e.Link? && Enabled(s, e) && Links(s, e.scope, e.row)
    ensures Placed(s, Apply(s, e), Apply(s, e).issued[|s.issued|])
  {
    var s' := Apply(s, e);
    assert MetaOk(s) && RowOk(s, e.row);
    forall i | 0 <= i < |s.issued|
      ensures SlotOk(s', i) && OutcomeOk(s', i)
      ensures (Settled(s', i) <==> Settled(s, i)) && (ShownApplied(s', i) <==> ShownApplied(s, i))
    {
      OthersKeepSlot(s, s', e.row, s'.issued[|s.issued|], i);
    }
    forall x ensures RowOk(s', x) { assert RowOk(s, x); }
  }

  lemma {:induction false} CaptureKeeps(s: Sys, e: Event)
    requires Inv(s) && e.Capture? && Enabled(s, e)
    ensures Inv(Apply(s, e))
  {
    CapturePlaces(s, e);
    PlacedKeeps(s, Apply(s, e), Apply(s, e).issued[|s.issued|], e.epoch);
  }

  lemma {:induction false} LinkKeeps(s: Sys, e: Event)
    requires Inv(s) && e.Link? && Enabled(s, e)
    ensures Inv(Apply(s, e))
  {
    if Links(s, e.scope, e.row) {
      LinkPlaces(s, e);
      PlacedKeeps(s, Apply(s, e), Apply(s, e).issued[|s.issued|], e.epoch);
    }
  }

  // ----- changes of the queue

  /** The queue changes, and settled claims stay settled. */
  ghost predicate Updates(s: Sys, s': Sys) {
    && s'.client == s.client && s'.server == s.server
    && s'.sent == s.sent && s'.replies == s.replies && s'.issued == s.issued
    && s'.store.meta == s.store.meta
    && (forall y :: y in s'.picks ==> y in s.picks && s'.picks[y] == s.picks[y])
    && (forall i :: 0 <= i < |s.issued| && Settled(s, i) ==> Settled(s', i))
  }

  lemma {:induction false} UpdateKeeps(s: Sys, s': Sys)
    requires Inv(s) && Updates(s, s')
    requires forall i :: 0 <= i < |s.issued| ==> SlotOk(s', i) && OutcomeOk(s', i)
    requires forall id :: RowOk(s', id)
    ensures Inv(s')
  {
    forall i, j | 0 <= i < j < |s'.issued| ensures EpochOk(s', i, j) { assert EpochOk(s, i, j); }
    forall i | 0 <= i < |s'.issued| ensures PredecessorOk(s', i) && RecordOk(s', i) && StreamOk(s', i) {
      assert PredecessorOk(s, i) && RecordOk(s, i) && StreamOk(s, i);
    }
    assert MetaOk(s');
    forall q | q in s'.sent ensures RequestOk(s', q) { assert RequestOk(s, q); }
    forall y | y in s'.picks ensures PickOk(s', s'.picks[y]) { assert PickOk(s, s.picks[y]); }
    forall p, i | p in s'.replies && 0 <= i < |s'.issued| ensures ReplyOk(s', p, i) { assert ReplyOk(s, p, i); }
    forall epoch ensures CursorOk(s', epoch) { assert CursorOk(s, epoch); }
    forall b | 0 <= b < |s'.server.processed| ensures OrderOk(s', b) { assert OrderOk(s, b); }
  }

  lemma {:induction false} AttachKeeps(s: Sys, row: Id, attachment: Id)
    requires Inv(s)
    ensures Inv(Apply(s, Attach(row, attachment)))
  {
    var s' := Apply(s, Attach(row, attachment));
    forall i | 0 <= i < |s.issued| ensures SlotOk(s', i) && OutcomeOk(s', i) && (Settled(s, i) ==> Settled(s', i)) {
      assert SlotOk(s, i) && OutcomeOk(s, i);
    }
    forall x ensures RowOk(s', x) { assert RowOk(s, x); }
    UpdateKeeps(s, s');
  }

  /** A reply that the client accepts says what the server recorded. */
  lemma {:induction false} AcceptedReply(s: Sys, y: Id, reply: Reply)
    requires Inv(s) && Enabled(s, Receive(y, reply)) && Terminal(reply, s.picks[y].work.op)
    ensures PickOk(s, s.picks[y])
    ensures var k := s.picks[y].work.ordinal - 1;
            Recorded(s, k) && (ReadsRejected(reply) <==> !RecordAt(s, k).applied)
  {
    assert PickOk(s, s.picks[y]);
    assert ReplyOk(s, reply, s.picks[y].work.ordinal - 1);
  }

  /** The step that settles claim k with an accepted reply. */
  ghost predicate Settles(s: Sys, s': Sys, k: int, reply: Reply) {
    && 0 <= k < |s.issued| && s.issued[k].row in s.store.queue
    && Recorded(s, k) && (ReadsRejected(reply) <==> !RecordAt(s, k).applied)
    && var c := s.issued[k];
       var r := s.store.queue[c.row];
       && s'.store == s.store.(queue := s.store.queue[c.row :=
            if c.evidence then SettledEvidence(r, reply) else SettledRow(r, reply)])
       && s' == s.(picks := s'.picks, store := s'.store)
  }

  /** Every claim keeps its slot and shows its recorded outcome. */
  lemma {:induction false} SettledSlot(s: Sys, s': Sys, k: nat, reply: Reply, i: nat)
    requires Settles(s, s', k, reply) && i < |s.issued|
    requires SlotOk(s, k) && SlotOk(s, i) && OutcomeOk(s, k) && OutcomeOk(s, i)
    ensures SlotOk(s', i) && OutcomeOk(s', i) && (Settled(s, i) ==> Settled(s', i))
  {
  }

  lemma {:induction false} SettledRowOk(s: Sys, s': Sys, k: nat, reply: Reply, id: Id)
    requires Settles(s, s', k, reply) && SlotOk(s, k) && RowOk(s, id)
    ensures RowOk(s', id)
  {
  }

  lemma {:induction false} SettlesKeeps(s: Sys, s': Sys, k: nat, reply: Reply)
    requires Inv(s) && Settles(s, s', k, reply)
    requires forall y :: y in s'.picks ==> y in s.picks && s'.picks[y] == s.picks[y]
    ensures Inv(s')
  {
    forall i | 0 <= i < |s.issued| ensures SlotOk(s', i) && OutcomeOk(s', i) && (Settled(s, i) ==> Settled(s', i)) {
      SettledSlot(s, s', k, reply, i);
    }
    forall x ensures RowOk(s', x) { SettledRowOk(s, s', k, reply, x); }
    UpdateKeeps(s, s');
  }

  lemma {:induction false} ReceiveKeeps(s: Sys, y: Id, reply: Reply)
    requires Inv(s) && Enabled(s, Receive(y, reply))
    ensures Inv(Apply(s, Receive(y, reply)))
  {
    if Terminal(reply, s.picks[y].work.op) {
      AcceptedReply(s, y, reply);
      var k := s.picks[y].work.ordinal - 1;
      assert SlotOk(s, k);
      SettlesKeeps(s, Apply(s, Receive(y, reply)), k, reply);
    } else {
      CrashKeeps(s, y);
    }
  }

  lemma {:induction false} CrashKeeps(s: Sys, y: Id)
    requires Inv(s)
    ensures Inv(Apply(s, Crash(y)))
  {
    var s' := Apply(s, Crash(y));
    forall i | 0 <= i < |s.issued| ensures SlotOk(s', i) && OutcomeOk(s', i) && (Settled(s, i) ==> Settled(s', i)) {
      assert SlotOk(s, i) && OutcomeOk(s, i);
    }
    forall x ensures RowOk(s', x) { assert RowOk(s, x); }
    UpdateKeeps(s, s');
  }

  lemma {:induction false} NewEpochKeeps(s: Sys, scope: Id, epoch: Id)
    requires Inv(s) && Enabled(s, NewEpoch(scope, epoch))
    ensures Inv(Apply(s, NewEpoch(scope, epoch)))
  {
    var s' := Apply(s, NewEpoch(scope, epoch));
    var t := s'.(store := s'.store.(meta := s.store.meta));
    assert t == s;
    assert MetaOk(s');
    forall i | 0 <= i < |s.issued| ensures SlotOk(s', i) && OutcomeOk(s', i) && PredecessorOk(s', i) {
      assert SlotOk(s, i) && OutcomeOk(s, i) && PredecessorOk(s, i);
    }
    forall i, j | 0 <= i < j < |s'.issued| ensures EpochOk(s', i, j) { assert EpochOk(s, i, j); }
    forall i | 0 <= i < |s'.issued| ensures RecordOk(s', i) && StreamOk(s', i) { assert RecordOk(s, i) && StreamOk(s, i); }
    forall x ensures RowOk(s', x) { assert RowOk(s, x); }
    forall q | q in s'.sent ensures RequestOk(s', q) { assert RequestOk(s, q); }
    forall y | y in s'.picks ensures PickOk(s', s'.picks[y]) { assert PickOk(s, s.picks[y]); }
    forall p, i | p in s'.replies && 0 <= i < |s'.issued| ensures ReplyOk(s', p, i) { assert ReplyOk(s, p, i); }
    forall e ensures CursorOk(s', e) { assert CursorOk(s, e); }
    forall b | 0 <= b < |s'.server.processed| ensures OrderOk(s', b) { assert OrderOk(s, b); }
  }

  // ----- picking and sending

  function WorkAt(s: Sys, i: int): Work
    requires 0 <= i < |s.issued|
  {
    Work(s.issued[i].row, s.issued[i].op, i + 1, s.issued[i].evidence)
  }

  /** The queue shows a claim as pending exactly while it is not settled. */
  lemma {:induction false} PendingIsUnsettled(s: Sys, i: nat)
    requires DeviceInv(s) && i < |s.issued|
    ensures Pending(s.store, s.issued[i].scope, WorkAt(s, i)) <==> !Settled(s, i)
  {
    assert SlotOk(s, i);
  }

  /** What a pass picks has no unsettled predecessor in its scope. */
  lemma {:induction false} NextIsReady(s: Sys, scope: Id, w: Work)
    requires DeviceInv(s) && IsNext(s.store, scope, w)
    ensures PickOk(s, Pick(scope, w))
  {
    assert RowOk(s, w.row);
    var i := w.ordinal - 1;
    assert SlotOk(s, i);
    forall j | 0 <= j < i && s.issued[j].scope == s.issued[i].scope ensures Settled(s, j) {
      PendingIsUnsettled(s, j);
    }
  }

  /** Picks and requests do not touch the device, the server or the replies. */
  lemma {:induction false} NetworkKeeps(s: Sys, s': Sys)
    requires Inv(s) && s' == s.(picks := s'.picks, sent := s'.sent)
    requires forall q :: q in s'.sent ==> RequestOk(s, q)
    requires forall y :: y in s'.picks ==> PickOk(s, s'.picks[y])
    ensures Inv(s')
  {
    forall i | 0 <= i < |s.issued| ensures SlotOk(s', i) && OutcomeOk(s', i) && PredecessorOk(s', i) {
      assert SlotOk(s, i) && OutcomeOk(s, i) && PredecessorOk(s, i);
    }
    forall i, j | 0 <= i < j < |s'.issued| ensures EpochOk(s', i, j) { assert EpochOk(s, i, j); }
    forall i | 0 <= i < |s'.issued| ensures RecordOk(s', i) && StreamOk(s', i) { assert RecordOk(s, i) && StreamOk(s, i); }
    forall x ensures RowOk(s', x) { assert RowOk(s, x); }
    forall q | q in s'.sent ensures RequestOk(s', q) { assert RequestOk(s, q); }
    forall y | y in s'.picks ensures PickOk(s', s'.picks[y]) { assert PickOk(s, s'.picks[y]); }
    forall p, i | p in s'.replies && 0 <= i < |s'.issued| ensures ReplyOk(s', p, i) { assert ReplyOk(s, p, i); }
    forall e ensures CursorOk(s', e) { assert CursorOk(s, e); }
    forall b | 0 <= b < |s'.server.processed| ensures OrderOk(s', b) { assert OrderOk(s, b); }
    assert MetaOk(s) && MetaOk(s');
  }

  lemma {:induction false} LookKeeps(s: Sys, y: Id, scope: Id, w: Work)
    requires Inv(s) && Enabled(s, Look(y, scope, w))
    ensures Inv(Apply(s, Look(y, scope, w)))
  {
    NextIsReady(s, scope, w);
    NetworkKeeps(s, Apply(s, Look(y, scope, w)));
  }

  lemma {:induction false} SendKeeps(s: Sys, y: Id)
    requires Inv(s) && Enabled(s, Send(y))
    ensures Inv(Apply(s, Send(y)))
  {
    assert PickOk(s, s.picks[y]);
    NetworkKeeps(s, Apply(s, Send(y)));
  }

  // ----- the server

  /** A claim reaches the server right after its predecessor in the epoch. */
  lemma {:induction false} NoSequenceFlag(s: Sys, q: Request)
    requires Inv(s) && q in s.sent && q.op.id !in s.server.records
    ensures StreamFor(s.server, q.who, q.op).actor == q.who
    ensures q.op.sequence == StreamFor(s.server, q.who, q.op).last + 1
  {
    var i := q.at;
    assert RequestOk(s, q);
    assert SlotOk(s, i) && StreamOk(s, i) && PredecessorOk(s, i);
    if q.op.sequence > 1 {
      var j :| 0 <= j < i && s.issued[j].op.epoch == s.issued[i].op.epoch
               && s.issued[j].op.sequence == s.issued[i].op.sequence - 1;
      assert EpochOk(s, j, i);
      assert OutcomeOk(s, j) && StreamOk(s, j);
    }
  }

  /** Nothing that the client's part of the invariant reads has changed but the server. */
  ghost predicate Grows(s: Sys, s': Sys) {
    && s' == s.(server := s'.server, replies := s'.replies)
    && (forall id :: id in s.server.records ==> id in s'.server.records && s'.server.records[id] == s.server.records[id])
    && (s'.server.processed == s.server.processed || exists id :: s'.server.processed == s.server.processed + [id])
  }

  lemma {:induction false} GrowthKeepsDevice(s: Sys, s': Sys)
    requires DeviceInv(s) && Grows(s, s')
    ensures DeviceInv(s')
  {
    forall i | 0 <= i < |s.issued| ensures SlotOk(s', i) && PredecessorOk(s', i) {
      assert SlotOk(s, i) && PredecessorOk(s, i);
    }
    forall i, j | 0 <= i < j < |s'.issued| ensures EpochOk(s', i, j) { assert EpochOk(s, i, j); }
    forall x ensures RowOk(s', x) { assert RowOk(s, x); }
    assert MetaOk(s) && MetaOk(s');
  }

  lemma {:induction false} GrowthKeepsNetwork(s: Sys, s': Sys)
    requires NetworkInv(s) && Grows(s, s')
    requires forall p :: p in s'.replies && p !in s.replies && p.recorded ==> p.operation in s'.server.records
    requires forall p, i :: p in s'.replies && p !in s.replies && 0 <= i < |s.issued| ==> ReplyOk(s', p, i)
    ensures NetworkInv(s')
  {
    forall q | q in s'.sent ensures RequestOk(s', q) {
      assert RequestOk(s, q);
      forall j | 0 <= j < q.at && s'.issued[j].scope == s'.issued[q.at].scope ensures Settled(s', j) {
        assert Settled(s, j);
      }
    }
    forall y | y in s'.picks ensures PickOk(s', s'.picks[y]) {
      assert PickOk(s, s.picks[y]);
      var k := s.picks[y].work.ordinal - 1;
      forall j | 0 <= j < k && s'.issued[j].scope == s'.issued[k].scope ensures Settled(s', j) {
        assert Settled(s, j);
      }
    }
    forall p, i | p in s'.replies && 0 <= i < |s'.issued| ensures ReplyOk(s', p, i) {
      if p in s.replies { assert ReplyOk(s, p, i); }
    }
  }

  lemma {:induction false} ProcessedOk(v: Server, who: Id, op: Operation, d: Verdict)
    requires ServerOk(v)
    ensures ServerOk(Processed(v, who, op, d))
  {
    if Records(v, who, op, d) {
      var v' := Processed(v, who, op, d);
      assert op.id !in v.processed && op.id !in v.effects;
    }
  }

  /** The first processing of an own claim. */
  lemma {:induction false} ServeRecords(s: Sys, s': Sys, q: Request, d: Verdict)
    requires Inv(s) && q in s.sent && VerdictCoded(d) && Records(s.server, q.who, q.op, d)
    requires s' == s.(server := Processed(s.server, q.who, q.op, d), replies := s'.replies)
    ensures forall i :: 0 <= i < |s.issued| ==> RecordOk(s', i)
    ensures forall i :: 0 <= i < |s.issued| ==> StreamOk(s', i)
    ensures forall epoch :: CursorOk(s', epoch)
  {
    NoSequenceFlag(s, q);
    assert RequestOk(s, q) && SlotOk(s, q.at);
    forall i | 0 <= i < |s.issued| ensures RecordOk(s', i) && StreamOk(s', i) {
      assert RecordOk(s, i) && StreamOk(s, i) && SlotOk(s, i);
      if i == q.at {
        forall j | 0 <= j < i && s.issued[j].scope == s.issued[i].scope ensures Recorded(s', j) {
          assert Settled(s, j) && OutcomeOk(s, j);
        }
      } else {
        assert if i < q.at then EpochOk(s, i, q.at) else EpochOk(s, q.at, i);
      }
    }
    forall epoch ensures CursorOk(s', epoch) {
      assert CursorOk(s, epoch);
      assert s'.issued[q.at].op == q.op;
    }
  }

  lemma {:induction false} ServeOrders(s: Sys, s': Sys, q: Request, d: Verdict)
    requires Inv(s) && q in s.sent && Records(s.server, q.who, q.op, d)
    requires s' == s.(server := Processed(s.server, q.who, q.op, d), replies := s'.replies)
    ensures forall b :: 0 <= b < |s'.server.processed| ==> OrderOk(s', b)
  {
    assert RequestOk(s, q);
    forall b | 0 <= b < |s'.server.processed| ensures OrderOk(s', b) {
      if b < |s.server.processed| {
        assert OrderOk(s, b);
        assert s'.server.processed[..b] == s.server.processed[..b];
      } else {
        assert s'.server.processed[..b] == s.server.processed;
        forall i, j | 0 <= j < i < |s.issued| && s.issued[j].scope == s.issued[i].scope && s.issued[i].op.id == q.op.id
          ensures s.issued[j].op.id in s.server.processed
        {
          assert i < q.at ==> EpochOk(s, i, q.at);
          assert q.at < i ==> EpochOk(s, q.at, i);
          assert Settled(s, j) && OutcomeOk(s, j);
        }
      }
    }
  }

  lemma {:induction false} OutcomesStay(s: Sys, s': Sys)
    requires Inv(s) && Grows(s, s')
    ensures forall i :: 0 <= i < |s.issued| ==> OutcomeOk(s', i)
  {
    forall i | 0 <= i < |s.issued| ensures OutcomeOk(s', i) { assert OutcomeOk(s, i); }
  }

  lemma {:induction false} ServeReply(s: Sys, q: Request, d: Verdict, i: nat)
    requires Inv(s) && q in s.sent && VerdictCoded(d) && i < |s.issued|
    ensures ReplyOk(Apply(s, Serve(q, d)), ReplyTo(s.server, q.who, q.op, d), i)
  {
    assert RequestOk(s, q);
    assert RecordOk(s, q.at) && SlotOk(s, q.at);
    if i != q.at {
      assert if i < q.at then EpochOk(s, i, q.at) else EpochOk(s, q.at, i);
    }
  }

  lemma {:induction false} ServeKeeps(s: Sys, q: Request, d: Verdict)
    requires Inv(s) && Enabled(s, Serve(q, d))
    ensures Inv(Apply(s, Serve(q, d)))
  {
    var s' := Apply(s, Serve(q, d));
    assert RequestOk(s, q) && RecordOk(s, q.at);
    GrowthKeepsDevice(s, s');
    OutcomesStay(s, s');
    ProcessedOk(s.server, q.who, q.op, d);
    forall i | 0 <= i < |s.issued| ensures ReplyOk(s', ReplyTo(s.server, q.who, q.op, d), i) { ServeReply(s, q, d, i); }
    GrowthKeepsNetwork(s, s');
    if Records(s.server, q.who, q.op, d) {
      ServeRecords(s, s', q, d);
      ServeOrders(s, s', q, d);
    } else {
      SameServerKeeps(s, s');
    }
  }

  lemma {:induction false} SameServerKeeps(s: Sys, s': Sys)
    requires RecordInv(s) && s' == s.(replies := s'.replies)
    ensures RecordInv(s')
  {
    forall i | 0 <= i < |s.issued| ensures RecordOk(s', i) && StreamOk(s', i) && OutcomeOk(s', i) {
      assert RecordOk(s, i) && StreamOk(s, i) && OutcomeOk(s, i);
    }
    forall e ensures CursorOk(s', e) { assert CursorOk(s, e); }
    forall b | 0 <= b < |s'.server.processed| ensures OrderOk(s', b) { assert OrderOk(s, b); }
  }

  lemma {:induction false} ForeignKeeps(s: Sys, who: Id, op: Operation, d: Verdict)
    requires Inv(s) && Enabled(s, Foreign(who, op, d))
    ensures Inv(Apply(s, Foreign(who, op, d)))
  {
    var s' := Apply(s, Foreign(who, op, d));
    GrowthKeepsDevice(s, s');
    OutcomesStay(s, s');
    ProcessedOk(s.server, who, op, d);
    GrowthKeepsNetwork(s, s');
    forall i | 0 <= i < |s.issued| ensures RecordOk(s', i) && StreamOk(s', i) {
      assert RecordOk(s, i) && StreamOk(s, i);
      forall j | 0 <= j < i ensures Recorded(s', j) <==> Recorded(s, j) { }
    }
    forall e ensures CursorOk(s', e) { assert CursorOk(s, e); }
    forall b | 0 <= b < |s'.server.processed| ensures OrderOk(s', b) {
      if b < |s.server.processed| {
        assert OrderOk(s, b);
        assert s'.server.processed[..b] == s.server.processed[..b];
      }
    }
  }

  // ----- all events, all runs

  lemma {:induction false} StepKeeps(s: Sys, e: Event)
    requires Inv(s) && Enabled(s, e)
    ensures Inv(Apply(s, e))
  {
    match e
    case Capture(scope, epoch, id, body, photo) => CaptureKeeps(s, e);
    case NewEpoch(scope, epoch) => NewEpochKeeps(s, scope, epoch);
    case Look(y, scope, w) => LookKeeps(s, y, scope, w);
    case Send(y) => SendKeeps(s, y);
    case Serve(q, d) => ServeKeeps(s, q, d);
    case Receive(y, reply) => ReceiveKeeps(s, y, reply);
    case Crash(y) => CrashKeeps(s, y);
    case Attach(row, attachment) => AttachKeeps(s, row, attachment);
    case Link(scope, row, epoch, id, body) => LinkKeeps(s, e);
    case Foreign(who, op, d) => ForeignKeeps(s, who, op, d);
  }
}
