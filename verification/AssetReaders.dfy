/** The readers on every asset that operations can produce: none of them raises, and the
    derived assignment intervals agree with the maintained projection. */
module AssetReaders {
  import opened HistoryRows
  import opened HistoryViews
  import opened HistoryChain
  import opened HistoryHealth
  import opened AssetCommands
  import opened EffectiveEvents
  import opened EffectiveHealth
  import opened HistoryAudit
  import Sorting

  lemma {:induction false} HistoryReadable(a: Asset, k: Class)
    requires Valid(a)
    ensures Table(a.log, k) && Replayable(a.log, k)
  {
    SoundIsWellFormed(a.log, k, a.base, a.world.evidence);
    AcceptedIsReplayable(a.log, k, a.base, a.world.evidence);
  }

  /** The last effective event is the last row of its class. */
  lemma {:induction false} LastShown(a: Asset, k: Class, out: seq<Row>)
    requires Valid(a) && Shows(a.log, k, out)
    ensures var at := LastOf(a.log, k, |a.log|);
            if at.None? then out == [] else out != [] && out[|out| - 1] == a.log[at.value]
  {
    var log, at := a.log, LastOf(a.log, k, |a.log|);
    if out != [] {
      var i := ShownRow(log, k, out, |out| - 1);
    }
    if at.Some? {
      LastIsEffective(log, k, |log|);
      LastIsShown(log, k, out, at.value);
    }
  }

  lemma {:induction false} ShownRow(log: seq<Row>, k: Class, out: seq<Row>, n: nat) returns (i: nat)
    requires Chain(log) && Shows(log, k, out) && n < |out|
    ensures i < |log| && log[i] == out[n] && log[i].cls == k && out[n].version == i + 1
  {
    assert out[n] in out;
    i :| 0 <= i < |log| && log[i] == out[n];
    assert EffectiveAt(log, k, i);
  }

  lemma {:induction false} LastIsShown(log: seq<Row>, k: Class, out: seq<Row>, x: nat)
    requires Chain(log) && Shows(log, k, out) && x < |log| && EffectiveAt(log, k, x)
    requires forall i :: x < i < |log| ==> log[i].cls != k
    ensures out != [] && out[|out| - 1] == log[x]
  {
    assert log[x] in out;
    var t :| 0 <= t < |out| && out[t] == log[x];
    var y := ShownRow(log, k, out, |out| - 1);
    assert out[t].version <= out[|out| - 1].version;
  }

  ghost predicate Open(v: Interval) { v.ended.None? }

  /** The intervals of a list of events: one for each event that names an assignee, in
      order, from its own time to that of the event after it. */
  ghost predicate IntervalsOf(events: seq<Row>, out: seq<Interval>) {
    exists at: seq<nat> ::
      && |at| == |out| && (forall i, j :: 0 <= i < j < |at| ==> at[i] < at[j])
      && (forall n: nat :: n in at <==> n < |events| && events[n].to != Null)
      && (forall i :: 0 <= i < |at| ==> at[i] < |events| && Spans(events, at[i], out[i]))
  }

  predicate Spans(events: seq<Row>, n: nat, v: Interval)
    requires n < |events|
  {
    && v.event == events[n].id && v.assignee == events[n].to && v.started == events[n].occurredAt
    && v.ended == (if n + 1 < |events| then Some(events[n + 1].occurredAt) else None)
  }

  /** `assignment_history` over an asset: the intervals of its effective events.  At most the
      last interval is open, it is open exactly while the asset is assigned, and the
      projection names its event. */
  method AssignmentHistory(a: Asset) returns (r: Option<seq<Interval>>, ghost shown: seq<Row>)
    requires Valid(a)
    ensures r.Some? && Shows(a.log, Assignment, shown) && IntervalsOf(shown, r.value)
    ensures forall i :: 0 <= i < |r.value| - 1 ==> !Open(r.value[i])
    ensures a.current.assignment == Null <==> forall i :: 0 <= i < |r.value| ==> !Open(r.value[i])
    ensures a.current.assignment != Null ==>
              && r.value != [] && Open(r.value[|r.value| - 1])
              && a.current.assignment == Ref(r.value[|r.value| - 1].event)
              && r.value[|r.value| - 1].assignee == Now(a, Assignment)
  {
    HistoryReadable(a, Assignment);
    var events := EffectiveRows(a.log, Assignment);
    var out := Intervals(events.value);
    r := Some(out);
    shown := events.value;
    OpenOnlyLast(a, shown, out);
    IntervalsFit(shown, out);
  }

  lemma {:induction false} IntervalsFit(events: seq<Row>, out: seq<Interval>)
    requires |out| == |Establishing(events, |events|)|
    requires forall i :: 0 <= i < |out| ==> out[i] == IntervalAt(events, Establishing(events, |events|)[i])
    ensures IntervalsOf(events, out)
  {
    EstablishingExact(events, |events|);
    var at := Establishing(events, |events|);
    assert forall i :: 0 <= i < |at| ==> at[i] < |events| && Spans(events, at[i], out[i]);
  }

  lemma {:induction false} OpenOnlyLast(a: Asset, events: seq<Row>, out: seq<Interval>)
    requires Valid(a) && Shows(a.log, Assignment, events)
    requires |out| == |Establishing(events, |events|)|
    requires forall i :: 0 <= i < |out| ==> out[i] == IntervalAt(events, Establishing(events, |events|)[i])
    ensures forall i :: 0 <= i < |out| - 1 ==> !Open(out[i])
    ensures a.current.assignment == Null <==> forall i :: 0 <= i < |out| ==> !Open(out[i])
    ensures a.current.assignment != Null ==>
              && out != [] && Open(out[|out| - 1])
              && a.current.assignment == Ref(out[|out| - 1].event)
              && out[|out| - 1].assignee == Now(a, Assignment)
  {
    LastShown(a, Assignment, events);
    EstablishingOrder(events, |events|);
    assert Get(a.current, Assignment) == ProjectionAt(a.log, Assignment, a.base, |a.log|);
  }
}
