/** What the capture protocol guarantees in every run, whatever is interleaved, lost,
    repeated or delayed. */
module CaptureRuns {
  import opened HistoryRows
  import opened CaptureTypes
  import opened CaptureDevice
  import opened CaptureProtocol
  import opened CaptureSafety

  /** A list of events; one that cannot happen changes nothing. */
  ghost function Run(s: Sys, events: seq<Event>): Sys {
    if events == [] then s
    else
      var before := Run(s, events[..|events| - 1]);
      var e := events[|events| - 1];
      if Enabled(before, e) then Apply(before, e) else before
  }

  /** A server in any state that the device, whose identity is new, has not used. */
  ghost predicate Fresh(client: Id, server: Server) {
    ServerOk(server) && forall key :: key in server.streams ==> key.client != client
  }

  lemma {:induction false} RunKeeps(s: Sys, events: seq<Event>)
    requires Inv(s)
    ensures Inv(Run(s, events))
  {
    if events != [] {
      var before := Run(s, events[..|events| - 1]);
      RunKeeps(s, events[..|events| - 1]);
      if Enabled(before, events[|events| - 1]) { StepKeeps(before, events[|events| - 1]); }
    }
  }

  lemma {:induction false} RunOne(s: Sys, events: seq<Event>, e: Event)
    requires Enabled(Run(s, events), e)
    ensures Run(s, events + [e]) == Apply(Run(s, events), e)
  {
    assert (events + [e])[..|events|] == events;
  }

  lemma {:induction false} RunJoin(s: Sys, xs: seq<Event>, ys: seq<Event>)
    ensures Run(s, xs + ys) == Run(Run(s, xs), ys)
  {
    if ys == [] {
      assert xs + ys == xs;
    } else {
      var n := |ys| - 1;
      assert (xs + ys)[..|xs| + n] == xs + ys[..n];
      RunJoin(s, xs, ys[..n]);
    }
  }

  lemma {:induction false} StartOk(client: Id, server: Server)
    requires Fresh(client, server)
    ensures Inv(Start(client, server))
  {
    var s := Start(client, server);
    forall epoch ensures CursorOk(s, epoch) { }
    forall b | 0 <= b < |server.processed| ensures OrderOk(s, b) { }
  }

  lemma {:induction false} CountDistinct(s: seq<Id>, id: Id)
    requires forall a, b :: 0 <= a < b < |s| ==> s[a] != s[b]
    ensures multiset(s)[id] == if id in s then 1 else 0
  {
    if s != [] {
      var front := s[..|s| - 1];
      CountDistinct(front, id);
      assert s == front + [s[|s| - 1]];
      assert front[..] == front;
    }
  }

  /** Every captured operation takes effect at most once.  A settled one took effect exactly
      when the device shows it as applied, however the device learned the outcome. */
  lemma {:induction false} AtMostOnce(client: Id, server: Server, events: seq<Event>, i: nat)
    requires Fresh(client, server) && i < |Run(Start(client, server), events).issued|
    ensures var s := Run(Start(client, server), events);
            var times := multiset(s.server.effects)[s.issued[i].op.id];
            && times <= 1
            && (times == 1 <==> Recorded(s, i) && RecordAt(s, i).applied)
            && (Settled(s, i) ==> Recorded(s, i) && (ShownApplied(s, i) <==> times == 1))
  {
    var s := Run(Start(client, server), events);
    StartOk(client, server);
    RunKeeps(Start(client, server), events);
    assert OutcomeOk(s, i);
    CountDistinct(s.server.effects, s.issued[i].op.id);
  }

  /** Operations of one scope are first processed in ordinal order: when an operation is
      recorded, all operations of its scope with smaller ordinals were recorded before. */
  lemma {:induction false} OrdinalOrder(client: Id, server: Server, events: seq<Event>, j: nat, i: nat, b: nat)
    requires Fresh(client, server)
    requires var s := Run(Start(client, server), events);
             && j < i < |s.issued| && s.issued[j].scope == s.issued[i].scope
             && b < |s.server.processed| && s.server.processed[b] == s.issued[i].op.id
    ensures var s := Run(Start(client, server), events);
            exists a :: 0 <= a < b && s.server.processed[a] == s.issued[j].op.id
  {
    var s := Run(Start(client, server), events);
    StartOk(client, server);
    RunKeeps(Start(client, server), events);
    assert OrderOk(s, b);
    assert s.issued[j].op.id in s.server.processed[..b];
    var a :| 0 <= a < b && s.server.processed[..b][a] == s.issued[j].op.id;
    assert s.server.processed[a] == s.issued[j].op.id;
  }

  /** No operation of the device is ever recorded with SEQUENCE_GAP or SEQUENCE_REUSED, or
      refused because another actor owns its epoch. */
  lemma {:induction false} NeverFlagged(client: Id, server: Server, events: seq<Event>, i: nat)
    requires Fresh(client, server) && i < |Run(Start(client, server), events).issued|
    ensures var s := Run(Start(client, server), events);
            && (Recorded(s, i) ==> RecordAt(s, i).flags == {} && RecordAt(s, i).op == s.issued[i].op)
            && (forall q, v: Verdict :: q in s.sent && q.at == i && v.Decides? && !Recorded(s, i) ==>
                  Records(s.server, q.who, q.op, v) && NewRecord(s.server, q.who, q.op, v).flags == {})
  {
    var s := Run(Start(client, server), events);
    StartOk(client, server);
    RunKeeps(Start(client, server), events);
    assert RecordOk(s, i);
    forall q, v: Verdict | q in s.sent && q.at == i && v.Decides? && !Recorded(s, i)
      ensures Records(s.server, q.who, q.op, v) && NewRecord(s.server, q.who, q.op, v).flags == {}
    {
      assert RequestOk(s, q);
      NoSequenceFlag(s, q);
    }
  }

  /** Every epoch belongs to one scope, and within it sequences are 1, 2, 3, … in ordinal order. */
  lemma {:induction false} EpochsAreScoped(client: Id, server: Server, events: seq<Event>, j: nat, i: nat)
    requires Fresh(client, server)
    requires var s := Run(Start(client, server), events);
             j < i < |s.issued| && s.issued[j].op.epoch == s.issued[i].op.epoch
    ensures var s := Run(Start(client, server), events);
            && s.issued[j].scope == s.issued[i].scope
            && 1 <= s.issued[j].op.sequence < s.issued[i].op.sequence
            && exists k :: j <= k < i && s.issued[k].op.epoch == s.issued[i].op.epoch
                           && s.issued[k].op.sequence == s.issued[i].op.sequence - 1
  {
    var s := Run(Start(client, server), events);
    StartOk(client, server);
    RunKeeps(Start(client, server), events);
    assert EpochOk(s, j, i) && SlotOk(s, j) && PredecessorOk(s, i);
    var k :| 0 <= k < i && s.issued[k].op.epoch == s.issued[i].op.epoch
             && s.issued[k].op.sequence == s.issued[i].op.sequence - 1;
    assert k < j ==> EpochOk(s, k, j);
  }

  /** A photo leaves the device only after the server applied the link that carries it. */
  lemma {:induction false} PhotoKept(client: Id, server: Server, events: seq<Event>, i: nat)
    requires Fresh(client, server)
    requires var s := Run(Start(client, server), events);
             i < |s.issued| && s.issued[i].photo && !s.issued[i].evidence
    ensures var s := Run(Start(client, server), events);
            var row := s.issued[i].row;
            && row in s.store.queue
            && (s.store.queue[row].photo.None? ==>
                  exists k :: i < k < |s.issued| && s.issued[k].row == row && s.issued[k].evidence
                              && Recorded(s, k) && RecordAt(s, k).applied)
  {
    var s := Run(Start(client, server), events);
    StartOk(client, server);
    RunKeeps(Start(client, server), events);
    var row := s.issued[i].row;
    assert SlotOk(s, i) && RowOk(s, row);
    if s.store.queue[row].photo.None? {
      var k := s.store.queue[row].evidenceOrdinal - 1;
      assert SlotOk(s, k) && OutcomeOk(s, k);
      assert Settled(s, k) && ShownApplied(s, k);
    }
  }

  lemma {:induction false} SettledAfter(s: Sys, e: Event, i: nat)
    requires Inv(s) && Enabled(s, e) && i < |s.issued| && Settled(s, i)
    ensures i < |Apply(s, e).issued| && Apply(s, e).issued[i] == s.issued[i] && Settled(Apply(s, e), i)
    ensures Recorded(s, i) ==> Recorded(Apply(s, e), i) && RecordAt(Apply(s, e), i) == RecordAt(s, i)
  {
    assert SlotOk(s, i);
  }

  /** What an event leaves in place: records, and the outcomes that the device shows. */
  lemma {:induction false} SettledStays(s: Sys, e: Event, i: nat)
    requires Inv(s) && Enabled(s, e) && i < |s.issued| && Settled(s, i)
    ensures i < |Apply(s, e).issued| && Apply(s, e).issued[i] == s.issued[i]
    ensures Settled(Apply(s, e), i) && (ShownApplied(Apply(s, e), i) <==> ShownApplied(s, i))
  {
    var s' := Apply(s, e);
    StepKeeps(s, e);
    assert OutcomeOk(s, i) && SlotOk(s, i);
    SettledAfter(s, e, i);
    assert OutcomeOk(s', i);
  }

  /** Whatever happens later, a settled claim stays settled as it was shown. */
  lemma {:induction false} SettledForever(s: Sys, events: seq<Event>, i: nat)
    requires Inv(s) && i < |s.issued| && Settled(s, i)
    ensures var t := Run(s, events);
            && i < |t.issued| && t.issued[i] == s.issued[i]
            && Settled(t, i) && (ShownApplied(t, i) <==> ShownApplied(s, i))
  {
    if events != [] {
      var n := |events| - 1;
      SettledForever(s, events[..n], i);
      RunKeeps(s, events[..n]);
      if Enabled(Run(s, events[..n]), events[n]) { SettledStays(Run(s, events[..n]), events[n], i); }
    }
  }
}
