/** What the server answers and keeps, for every operation of every credential, and what its
    sequence flags tell about the stream. */
module CaptureLaws {
  import opened HistoryRows
  import opened CaptureTypes
  import opened CaptureProtocol
  import opened CaptureRuns
  import CaptureSafety

  // ----- one operation

  /** An operation posted under another actor's credential never takes effect: whatever the
      domain would decide, nothing is committed and no reply says that it was applied. */
  lemma {:induction false} OthersNeverApply(s: Server, who: Id, op: Operation, v: Verdict)
    requires op.actor != who
    ensures Processed(s, who, op, v).effects == s.effects
    ensures ReplyTo(s, who, op, v).state != Applied
    ensures op.id !in s.records && op.id in Processed(s, who, op, v).records ==>
              var r := Processed(s, who, op, v).records[op.id];
              !r.applied && r.code == Some("INVALID_OPERATION") && r.actor == who
  {
  }

  /** A first processing is refused where the epoch has another actor or the transaction
      fails; otherwise it records the operation with the decision of the domain, and the
      reply carries the same. */
  lemma {:induction false} FirstProcessing(s: Server, who: Id, op: Operation, v: Verdict)
    requires op.id !in s.records && op.actor == who
    ensures var key := StreamKey(op.client, op.epoch);
            var s', reply := Processed(s, who, op, v), ReplyTo(s, who, op, v);
            if v.Fails? || (key in s.streams && s.streams[key].actor != who) then
              s' == s && reply == Reply(op.id, Rejected, false, Some("OPERATION_UNAVAILABLE"))
            else
              && s'.records.Keys == s.records.Keys + {op.id} && (forall id :: id in s.records ==> s'.records[id] == s.records[id])
              && s'.records[op.id].op == op && s'.records[op.id].actor == who
              && s'.records[op.id].applied == v.applied && s'.records[op.id].code == v.code
              && s'.processed == s.processed + [op.id]
              && s'.effects == (if v.applied then s.effects + [op.id] else s.effects)
              && reply == Reply(op.id, if v.applied then Applied else Rejected, true, v.code)
  {
  }

  /** A repeated operation changes nothing; its own actor learns the recorded code, and no
      other learns anything. */
  lemma {:induction false} Repeated(s: Server, who: Id, op: Operation, v: Verdict)
    requires op.id in s.records
    ensures Processed(s, who, op, v) == s
    ensures var r, reply := s.records[op.id], ReplyTo(s, who, op, v);
            if r.actor == who then reply == Reply(r.op.id, Duplicate, true, r.code)
            else reply == Reply(op.id, Rejected, false, Some("OPERATION_UNAVAILABLE"))
  {
  }

  // ----- what every server keeps

  predicate InStream(r: Record, key: StreamKey) {
    r.op.client == key.client && r.op.epoch == key.epoch
  }

  /** The stream has recorded sequence n. */
  ghost predicate HasSequence(s: Server, key: StreamKey, n: int) {
    exists id :: id in s.records && InStream(s.records[id], key) && s.records[id].op.sequence == n
  }

  /** A cursor stands at the greatest sequence that its stream has recorded, or at 0. */
  ghost predicate CursorTells(s: Server, key: StreamKey) {
    key in s.streams ==>
      s.streams[key].last >= 0 && (s.streams[key].last > 0 ==> HasSequence(s, key, s.streams[key].last))
  }

  predicate RecordTells(s: Server, id: Id) {
    id in s.records ==>
      && var r := s.records[id];
         var key := StreamKey(r.op.client, r.op.epoch);
         && key in s.streams && r.op.sequence <= s.streams[key].last && s.streams[key].actor == r.actor
         && r.op.id == id && (r.applied ==> r.op.actor == r.actor)
  }

  ghost predicate Lawful(s: Server) {
    ServerOk(s) && (forall key :: CursorTells(s, key)) && (forall id :: RecordTells(s, id))
  }

  lemma {:induction false} SequenceStays(s: Server, s': Server, key: StreamKey, n: int)
    requires HasSequence(s, key, n) && forall id :: id in s.records ==> id in s'.records && s'.records[id] == s.records[id]
    ensures HasSequence(s', key, n)
  {
    var id :| id in s.records && InStream(s.records[id], key) && s.records[id].op.sequence == n;
    assert s'.records[id] == s.records[id];
  }

  lemma {:induction false} ProcessedLawful(s: Server, who: Id, op: Operation, v: Verdict)
    requires Lawful(s)
    ensures Lawful(Processed(s, who, op, v))
  {
    var s' := Processed(s, who, op, v);
    CaptureSafety.ProcessedOk(s, who, op, v);
    if Records(s, who, op, v) {
      var mine := StreamKey(op.client, op.epoch);
      assert CursorTells(s, mine);
      forall key ensures CursorTells(s', key) {
        assert CursorTells(s, key);
        if key == mine && s'.streams[key].last == op.sequence {
          assert InStream(s'.records[op.id], key);
        } else if key in s.streams && s.streams[key].last > 0 {
          SequenceStays(s, s', key, s.streams[key].last);
        }
      }
      forall id ensures RecordTells(s', id) { assert RecordTells(s, id); }
    }
  }

  /** In every run, with any traffic of this and other devices, whatever took effect was
      recorded under the credential of the actor who captured it, and every cursor stands at
      the greatest recorded sequence of its stream. */
  lemma {:induction false} RunsLawful(client: Id, server: Server, events: seq<Event>)
    requires Lawful(server)
    ensures Lawful(Run(Start(client, server), events).server)
  {
    if events != [] {
      var n := |events| - 1;
      RunsLawful(client, server, events[..n]);
      var before, e := Run(Start(client, server), events[..n]), events[n];
      match e
      case Serve(q, v) => ProcessedLawful(before.server, q.who, q.op, v);
      case Foreign(who, op, v) => ProcessedLawful(before.server, who, op, v);
      case _ =>
    }
  }

  lemma {:induction false} EffectsAreOwn(client: Id, server: Server, events: seq<Event>, id: Id)
    requires Lawful(server) && id in Run(Start(client, server), events).server.effects
    ensures var s := Run(Start(client, server), events).server;
            id in s.records && s.records[id].op.id == id && s.records[id].op.actor == s.records[id].actor
  {
    RunsLawful(client, server, events);
    assert RecordTells(Run(Start(client, server), events).server, id);
  }

  /** SEQUENCE_REUSED says that the stream has recorded this sequence or a later one (or that
      it is no sequence at all), SEQUENCE_GAP that it has not recorded the one before, nor any
      later; without a flag the operation continues its stream. */
  lemma {:induction false} FlagsTell(s: Server, who: Id, op: Operation, v: Verdict)
    requires Lawful(s) && Records(s, who, op, v)
    ensures var key, flags := StreamKey(op.client, op.epoch), NewRecord(s, who, op, v).flags;
            && (SEQUENCE_REUSED in flags <==> op.sequence <= 0 || exists n :: n >= op.sequence && HasSequence(s, key, n))
            && (SEQUENCE_GAP in flags <==> op.sequence > 1 && forall n :: n >= op.sequence - 1 ==> !HasSequence(s, key, n))
            && (flags == {} <==> op.sequence == 1 + StreamFor(s, who, op).last)
  {
    var key := StreamKey(op.client, op.epoch);
    var last := StreamFor(s, who, op).last;
    assert CursorTells(s, key);
    forall n | HasSequence(s, key, n) ensures n <= last {
      var id :| id in s.records && InStream(s.records[id], key) && s.records[id].op.sequence == n;
      assert RecordTells(s, id);
    }
  }
}
