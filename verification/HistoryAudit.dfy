/** The audit reader `audit_rows`, which names the row that each REVERSAL cancels, and the
    assignment intervals derived from effective events. */
module HistoryAudit {
  import opened HistoryRows
  import opened HistoryViews
  import opened EffectiveEvents

  /** The dictionary key of a CORRECTED row; the root may be missing in malformed history. */
  datatype Slot = Slot(root: Option<Id>, generation: int)

  predicate Corrects(rows: seq<Row>, k: Class, slot: Slot, p: int) {
    In(rows, k, p) && rows[p].role == CORRECTED && rows[p].root == slot.root && rows[p].generation == slot.generation
  }

  /** `dict.get`: the cell holds the identity of a CORRECTED row in the slot, if there is one. */
  predicate Names(rows: seq<Row>, k: Class, slot: Slot, cell: Option<Id>) {
    if cell.Some? then exists p :: 0 <= p < |rows| && Corrects(rows, k, slot, p) && rows[p].id == cell.value
    else forall p :: 0 <= p < |rows| ==> !Corrects(rows, k, slot, p)
  }

  /** What the audit column of row i holds. */
  predicate AuditedAt(rows: seq<Row>, k: Class, i: int, cell: Option<Id>)
    requires 0 <= i < |rows|
  {
    if rows[i].cls != k || rows[i].role != REVERSAL then cell == None
    else if rows[i].generation == 1 then cell == rows[i].root
    else Names(rows, k, Slot(rows[i].root, rows[i].generation - 1), cell)
  }

  predicate Audited(rows: seq<Row>, k: Class, cells: seq<Option<Id>>) {
    |cells| == |rows| && forall i :: 0 <= i < |rows| ==> AuditedAt(rows, k, i, cells[i])
  }

  /** `audit_rows`; the rows themselves stay as they are, even when malformed. */
  method AuditRows(rows: seq<Row>, k: Class) returns (cells: seq<Option<Id>>)
    ensures Audited(rows, k, cells)
  {
    var corrected: map<Slot, Id> := map[];
    for n := 0 to |rows|
      invariant forall slot :: slot in corrected ==>
                  exists p :: 0 <= p < n && Corrects(rows, k, slot, p) && rows[p].id == corrected[slot]
      invariant forall p, slot :: 0 <= p < n && Corrects(rows, k, slot, p) ==> slot in corrected
    {
      var row := rows[n];
      if row.cls == k && row.role == CORRECTED {
        var slot := Slot(row.root, row.generation);
        assert Corrects(rows, k, slot, n);
        corrected := corrected[slot := row.id];
      }
    }
    cells := [];
    for n := 0 to |rows|
      invariant |cells| == n
      invariant forall i :: 0 <= i < n ==> AuditedAt(rows, k, i, cells[i])
    {
      var row, cell := rows[n], None;
      if row.cls == k && row.role == REVERSAL {
        var slot := Slot(row.root, row.generation - 1);
        cell := if row.generation == 1 then row.root else if slot in corrected then Some(corrected[slot]) else None;
      }
      assert AuditedAt(rows, k, n, cell);
      cells := cells + [cell];
    }
  }

  // ----- what the audit column means on replayable rows

  /** The cell of a reversal names the authority it cancels. */
  lemma {:induction false} CellNamesAuthority(rows: seq<Row>, k: Class, cells: seq<Option<Id>>, i: nat) returns (p: nat)
    requires Table(rows, k) && Replayable(rows, k) && Audited(rows, k, cells)
    requires In(rows, k, i) && rows[i].role == REVERSAL
    ensures rows[i].root.Some? && p < |rows| && cells[i] == Some(rows[p].id) && rows[p].cls == k
    ensures IsAuthority(rows, Key(k, rows[i].root.value, rows[i].generation), p)
    ensures rows[p].role != REVERSAL && RootOf(rows[p]) == rows[i].root.value
    ensures rows[p].generation == rows[i].generation - 1
  {
    assert RowFiled(rows, k, i) && RowReplayable(rows, k, i) && AuditedAt(rows, k, i, cells[i]);
    var key := Key(k, rows[i].root.value, rows[i].generation);
    if rows[i].generation == 1 {
      assert cells[i] == rows[i].root;
      p :| 0 <= p < |rows| && IsRoot(rows, k, p, key.root);
      assert RowFiled(rows, k, p);
    } else {
      var below := Slot(rows[i].root, rows[i].generation - 1);
      var a :| 0 <= a < |rows| && IsAuthority(rows, key, a);
      assert Corrects(rows, k, below, a);
      assert Names(rows, k, below, cells[i]);
      p :| 0 <= p < |rows| && Corrects(rows, k, below, p) && rows[p].id == cells[i].value;
    }
  }

  /** One key has one reversal. */
  lemma {:induction false} OneReversal(rows: seq<Row>, k: Class, i: nat, j: nat)
    requires Replayable(rows, k) && In(rows, k, i) && In(rows, k, j)
    requires rows[i].role == REVERSAL && rows[j].role == REVERSAL
    requires rows[i].root == rows[j].root && rows[i].generation == rows[j].generation
    ensures i == j
  {
    assert RowFiled(rows, k, i) && RowReplayable(rows, k, i);
    var key := Key(k, rows[i].root.value, rows[i].generation);
    var a :| 0 <= a < |rows| && IsAuthority(rows, key, a);
    GroupMember(rows, key, |rows|, i);
    GroupMember(rows, key, |rows|, j);
  }

  /** Distinct reversals cancel distinct rows. */
  lemma {:induction false} CancellationInjective(rows: seq<Row>, k: Class, cells: seq<Option<Id>>, i: nat, j: nat)
    requires Table(rows, k) && Replayable(rows, k) && Audited(rows, k, cells)
    requires In(rows, k, i) && In(rows, k, j) && rows[i].role == REVERSAL && rows[j].role == REVERSAL
    requires cells[i] == cells[j]
    ensures i == j
  {
    var p := CellNamesAuthority(rows, k, cells, i);
    var q := CellNamesAuthority(rows, k, cells, j);
    assert p == q;
    OneReversal(rows, k, i, j);
  }

  /** The rows that some reversal's cell names. */
  predicate Cancelled(rows: seq<Row>, k: Class, cells: seq<Option<Id>>, i: int)
    requires 0 <= i < |rows| == |cells|
  {
    exists j :: 0 <= j < |rows| && rows[j].cls == k && rows[j].role == REVERSAL && cells[j] == Some(rows[i].id)
  }

  /** The pair filed under a replayable key. */
  lemma {:induction false} PairOfKey(rows: seq<Row>, k: Class, i: nat) returns (a: nat, c: nat)
    requires Replayable(rows, k) && In(rows, k, i) && rows[i].role != NONE
    ensures rows[i].root.Some? && rows[i].generation >= 1
    ensures In(rows, k, a) && In(rows, k, c) && rows[a].role == REVERSAL && rows[c].role == CORRECTED
    ensures rows[a].root == rows[i].root == rows[c].root
    ensures rows[a].generation == rows[i].generation == rows[c].generation
    ensures rows[i].role == CORRECTED ==> c == i
  {
    assert RowFiled(rows, k, i) && RowReplayable(rows, k, i);
    var key := Key(k, rows[i].root.value, rows[i].generation);
    var p :| 0 <= p < |rows| && IsAuthority(rows, key, p);
    var g := Group(rows, key, |rows|);
    assert Continues(rows, g, rows[p]);
    a, c := ReversalOf(rows, g), CorrectedOf(rows, g);
    GroupMember(rows, key, |rows|, a);
    GroupMember(rows, key, |rows|, c);
    GroupMember(rows, key, |rows|, i);
  }

  /** Below a CORRECTED row every generation of its root is present. */
  lemma {:induction false} GenerationBelow(rows: seq<Row>, k: Class, c: nat, g: int) returns (d: nat)
    requires Replayable(rows, k) && In(rows, k, c) && rows[c].role == CORRECTED && 1 <= g <= rows[c].generation
    ensures In(rows, k, d) && rows[d].role == CORRECTED && rows[d].root == rows[c].root && rows[d].generation == g
    decreases rows[c].generation
  {
    if g == rows[c].generation {
      d := c;
    } else {
      assert RowFiled(rows, k, c) && RowReplayable(rows, k, c);
      var key := Key(k, rows[c].root.value, rows[c].generation);
      var p :| 0 <= p < |rows| && IsAuthority(rows, key, p);
      d := GenerationBelow(rows, k, p, g);
    }
  }

  lemma {:induction false} SupersededIsCancelled(rows: seq<Row>, k: Class, cells: seq<Option<Id>>, i: nat, j: nat)
    requires Table(rows, k) && Replayable(rows, k) && Audited(rows, k, cells)
    requires In(rows, k, i) && rows[i].role != REVERSAL && Supersedes(rows, k, i, j)
    ensures Cancelled(rows, k, cells, i)
  {
    assert RowFiled(rows, k, i);
    if rows[i].role == CORRECTED { var x, y := PairOfKey(rows, k, i); }
    var d := GenerationBelow(rows, k, j, rows[i].generation + 1);
    var a, c := PairOfKey(rows, k, d);
    var p := CellNamesAuthority(rows, k, cells, a);
    if rows[i].role == CORRECTED {
      var u, v := PairOfKey(rows, k, i);
      var u', v' := PairOfKey(rows, k, p);
      SameCorrected(rows, k, i, p);
    }
    assert p == i;
  }

  lemma {:induction false} SameCorrected(rows: seq<Row>, k: Class, i: nat, j: nat)
    requires Replayable(rows, k) && In(rows, k, i) && In(rows, k, j)
    requires rows[i].role == CORRECTED && rows[j].role == CORRECTED
    requires rows[i].root == rows[j].root && rows[i].generation == rows[j].generation
    ensures i == j
  {
    assert RowFiled(rows, k, i) && RowReplayable(rows, k, i);
    var key := Key(k, rows[i].root.value, rows[i].generation);
    var p :| 0 <= p < |rows| && IsAuthority(rows, key, p);
    GroupMember(rows, key, |rows|, i);
    GroupMember(rows, key, |rows|, j);
  }

  /** What is neither a reversal nor cancelled is exactly the effective history. */
  lemma {:induction false} UncancelledIsEffective(rows: seq<Row>, k: Class, cells: seq<Option<Id>>, i: nat)
    requires Table(rows, k) && Replayable(rows, k) && Audited(rows, k, cells) && In(rows, k, i)
    ensures EffectiveAt(rows, k, i) <==> rows[i].role != REVERSAL && !Cancelled(rows, k, cells, i)
  {
    if rows[i].role != REVERSAL {
      if Cancelled(rows, k, cells, i) {
        var j :| 0 <= j < |rows| && rows[j].cls == k && rows[j].role == REVERSAL && cells[j] == Some(rows[i].id);
        var p := CellNamesAuthority(rows, k, cells, j);
        assert p == i;
        var a, c := PairOfKey(rows, k, j);
        assert Supersedes(rows, k, i, c);
      } else if !EffectiveAt(rows, k, i) {
        var j :| 0 <= j < |rows| && Supersedes(rows, k, i, j);
        SupersededIsCancelled(rows, k, cells, i, j);
      }
    }
  }

  // ----- assignment intervals

  datatype Interval = Interval(event: Id, assignee: Fact, started: Time, ended: Option<Time>)

  function IntervalAt(events: seq<Row>, n: nat): Interval
    requires n < |events|
  {
    Interval(events[n].id, events[n].to, events[n].occurredAt,
             if n + 1 < |events| then Some(events[n + 1].occurredAt) else None)
  }

  /** The positions, below n, of events that establish an assignment. */
  function Establishing(events: seq<Row>, n: nat): (s: seq<nat>)
    requires n <= |events|
    ensures forall i :: 0 <= i < |s| ==> s[i] < n
  {
    if n == 0 then []
    else if events[n - 1].to != Null then Establishing(events, n - 1) + [n - 1]
    else Establishing(events, n - 1)
  }

  /** They are in order, and only the last of them can be the last event. */
  lemma {:induction false} EstablishingOrder(events: seq<Row>, n: nat)
    requires n <= |events|
    ensures var s := Establishing(events, n); forall i :: 0 <= i < |s| - 1 ==> s[i] < n - 1
    ensures n > 0 ==> (events[n - 1].to != Null <==>
              Establishing(events, n) != [] && Establishing(events, n)[|Establishing(events, n)| - 1] == n - 1)
  {}

  /** They are exactly the events that name an assignee, each once and in order. */
  lemma {:induction false} EstablishingExact(events: seq<Row>, n: nat)
    requires n <= |events|
    ensures var s := Establishing(events, n);
            && (forall x :: x in s <==> 0 <= x < n && events[x].to != Null)
            && (forall i, j :: 0 <= i < j < |s| ==> s[i] < s[j])
  {
    if n > 0 { EstablishingExact(events, n - 1); }
  }

  /** The interval loop of `assignment_history`. */
  method Intervals(events: seq<Row>) returns (out: seq<Interval>)
    ensures |out| == |Establishing(events, |events|)|
    ensures forall i :: 0 <= i < |out| ==> out[i] == IntervalAt(events, Establishing(events, |events|)[i])
  {
    out := [];
    for n := 0 to |events|
      invariant |out| == |Establishing(events, n)|
      invariant forall i :: 0 <= i < |out| ==> out[i] == IntervalAt(events, Establishing(events, n)[i])
    {
      if events[n].to != Null {
        assert Establishing(events, n + 1) == Establishing(events, n) + [n];
        out := out + [Interval(events[n].id, events[n].to, events[n].occurredAt,
                               if n + 1 < |events| then Some(events[n + 1].occurredAt) else None)];
      }
    }
  }
}
