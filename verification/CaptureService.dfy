/** The server side of capture: one transaction per operation, and the order in which a
    batch is processed. */
module CaptureService {
  import opened HistoryRows
  import opened CaptureTypes
  import opened Sorting

  function KeyOf(op: Operation): StreamKey {
    StreamKey(op.client, op.epoch)
  }

  // ----- the order of a batch

  function SequenceOf(ops: seq<Operation>): nat -> int {
    (i: nat) => if i < |ops| then ops[i].sequence else 0
  }

  /** The order within one stream: sequence, then position in the batch. */
  predicate Precedes(key: nat -> int, x: nat, y: nat) {
    key(x) < key(y) || (key(x) == key(y) && x < y)
  }

  ghost predicate Lexical(s: seq<nat>, key: nat -> int) {
    forall a, b :: 0 <= a < b < |s| ==> Precedes(key, s[a], s[b])
  }

  /** A stable insertion of the largest position keeps the order. */
  lemma {:induction false} InsertLexical(x: nat, s: seq<nat>, key: nat -> int)
    requires Lexical(s, key) && forall y :: y in s ==> y < x
    ensures Lexical(Insert(x, s, key), key)
    ensures forall y :: y in Insert(x, s, key) <==> y == x || y in s
  {
    if s == [] || key(x) < key(s[0]) {
      forall b | 0 <= b < |s| ensures Precedes(key, x, s[b]) { assert b > 0 ==> Precedes(key, s[0], s[b]); }
    } else {
      assert forall y :: y in s[1..] ==> y in s;
      InsertLexical(x, s[1..], key);
      var t := Insert(x, s[1..], key);
      forall b | 0 <= b < |t| ensures Precedes(key, s[0], t[b]) {
        assert t[b] in t && s[0] in s;
        if t[b] != x {
          assert t[b] in s[1..];
          var c :| 0 <= c < |s[1..]| && s[1..][c] == t[b];
          assert Precedes(key, s[0], s[c + 1]);
        }
      }
    }
  }

  lemma {:induction false} SortLexical(s: seq<nat>, key: nat -> int)
    requires forall a, b :: 0 <= a < b < |s| ==> s[a] < s[b]
    ensures Lexical(Sort(s, key), key)
    ensures forall y :: y in Sort(s, key) <==> y in s
  {
    if s != [] {
      var front := s[..|s| - 1];
      SortLexical(front, key);
      InsertLexical(s[|s| - 1], Sort(front, key), key);
      assert s == front + [s[|s| - 1]];
    }
  }

  /** Same stream: in order.  Between two entries of a stream: only that stream. */
  ghost predicate StreamOrdered(ops: seq<Operation>, order: seq<nat>) {
    && (forall a, b :: 0 <= a < b < |order| ==> SameInOrder(ops, order, a, b))
    && (forall a, b, c :: 0 <= a < b < c < |order| ==> Grouped(ops, order, a, b, c))
  }

  predicate SameInOrder(ops: seq<Operation>, order: seq<nat>, a: nat, b: nat)
    requires a < |order| && b < |order|
  {
    order[a] < |ops| && order[b] < |ops| && KeyOf(ops[order[a]]) == KeyOf(ops[order[b]]) ==>
      Precedes(SequenceOf(ops), order[a], order[b])
  }

  predicate Grouped(ops: seq<Operation>, order: seq<nat>, a: nat, b: nat, c: nat)
    requires a < |order| && b < |order| && c < |order|
  {
    order[a] < |ops| && order[b] < |ops| && order[c] < |ops| && KeyOf(ops[order[a]]) == KeyOf(ops[order[c]]) ==>
      KeyOf(ops[order[b]]) == KeyOf(ops[order[a]])
  }

  /** The positions of a batch, each once, with every stream in order. */
  ghost predicate IsOrder(ops: seq<Operation>, order: seq<nat>) {
    && Distinct(order) && (forall i: nat :: i in order <==> i < |ops|)
    && StreamOrdered(ops, order)
  }

  ghost predicate GroupOk(ops: seq<Operation>, n: nat, k: StreamKey, g: seq<nat>) {
    && n <= |ops| && (forall a, b :: 0 <= a < b < |g| ==> g[a] < g[b])
    && (forall i: nat :: i in g <==> i < n && KeyOf(ops[i]) == k)
  }

  /** The groups hold the first n positions, each under its stream. */
  ghost predicate Filed(ops: seq<Operation>, n: nat, keys: seq<StreamKey>, groups: map<StreamKey, seq<nat>>) {
    && n <= |ops| && Distinct(keys) && (forall k :: k in groups <==> k in keys)
    && (forall k :: k in groups ==> GroupOk(ops, n, k, groups[k]))
    && (forall i :: 0 <= i < n ==> KeyOf(ops[i]) in keys)
  }

  method File(ops: seq<Operation>) returns (keys: seq<StreamKey>, groups: map<StreamKey, seq<nat>>)
    ensures Filed(ops, |ops|, keys, groups)
  {
    keys, groups := [], map[];
    for n := 0 to |ops|
      invariant Filed(ops, n, keys, groups)
    {
      var k := KeyOf(ops[n]);
      if k !in groups {
        keys := keys + [k];
        groups := groups[k := [n]];
      } else {
        assert GroupOk(ops, n, k, groups[k]);
        forall a | 0 <= a < |groups[k]| ensures groups[k][a] < n { assert groups[k][a] in groups[k]; }
        groups := groups[k := groups[k] + [n]];
      }
      assert GroupOk(ops, n + 1, k, groups[k]);
      forall x | x in groups && x != k ensures GroupOk(ops, n + 1, x, groups[x]) {
        assert GroupOk(ops, n, x, groups[x]);
      }
    }
  }

  /** The groups of the first k streams have been emitted. */
  ghost predicate Emitted(ops: seq<Operation>, done: seq<StreamKey>, order: seq<nat>) {
    && Distinct(order) && StreamOrdered(ops, order)
    && (forall i: nat :: i in order <==> i < |ops| && KeyOf(ops[i]) in done)
  }

  lemma {:induction false} Emit(ops: seq<Operation>, done: seq<StreamKey>, order: seq<nat>, k: StreamKey, g: seq<nat>)
    requires Emitted(ops, done, order) && k !in done
    requires Lexical(g, SequenceOf(ops)) && forall i: nat :: i in g <==> i < |ops| && KeyOf(ops[i]) == k
    ensures Emitted(ops, done + [k], order + g)
  {
    var all := order + g;
    forall a | 0 <= a < |order| ensures order[a] < |ops| && KeyOf(ops[order[a]]) != k { assert order[a] in order; }
    forall a | 0 <= a < |g| ensures g[a] < |ops| && KeyOf(ops[g[a]]) == k { assert g[a] in g; }
    forall a, b | 0 <= a < b < |all| ensures all[a] != all[b] && SameInOrder(ops, all, a, b) {
      if b < |order| {
        assert SameInOrder(ops, order, a, b);
      } else if a >= |order| {
        assert Precedes(SequenceOf(ops), g[a - |order|], g[b - |order|]);
      }
    }
    forall a, b, c | 0 <= a < b < c < |all| ensures Grouped(ops, all, a, b, c) {
      if c < |order| { assert Grouped(ops, order, a, b, c); }
    }
  }

  /** `ordered`. */
  method Ordered(ops: seq<Operation>) returns (order: seq<nat>)
    ensures IsOrder(ops, order)
  {
    var keys, groups := File(ops);
    order := [];
    for k := 0 to |keys|
      invariant Emitted(ops, keys[..k], order)
    {
      assert keys[k] in groups && GroupOk(ops, |ops|, keys[k], groups[keys[k]]);
      var g := Sort(groups[keys[k]], SequenceOf(ops));
      SortLexical(groups[keys[k]], SequenceOf(ops));
      Emit(ops, keys[..k], order, keys[k], g);
      assert keys[..k] + [keys[k]] == keys[..k + 1];
      order := order + g;
    }
    assert keys[..|keys|] == keys;
  }

  // ----- transactions

  class CaptureServer {
    var records: map<Id, Record>
    var streams: map<StreamKey, Stream>
    var processed: seq<Id>
    var effects: seq<Id>

    constructor ()
      ensures Contents() == Server(map[], map[], [], [])
    {
      records, streams, processed, effects := map[], map[], [], [];
    }

    ghost function Contents(): Server
      reads this
    {
      Server(records, streams, processed, effects)
    }

    /** `_sequence`; None where it refuses the actor. */
    method Sequence(who: Id, op: Operation) returns (flags: Option<set<Flag>>)
      modifies this`streams
      ensures var was := StreamFor(old(Contents()), who, op);
              && (flags.Some? <==> was.actor == who)
              && (flags.Some? ==> flags.value == Flags(was, op))
              && (flags.Some? ==> streams == old(streams)[KeyOf(op) := Stream(who, Max(op.sequence, was.last))])
    {
      var key := KeyOf(op);
      if key !in streams { streams := streams[key := Stream(who, 0)]; }
      var row := streams[key];
      if row.actor != who {
        flags := None;
      } else {
        var list: set<Flag> := {};
        if op.sequence <= row.last {
          list := {SEQUENCE_REUSED};
        } else if op.sequence != row.last + 1 {
          list := {SEQUENCE_GAP};
        }
        streams := streams[key := row.(last := Max(op.sequence, row.last))];
        flags := Some(list);
      }
    }

    /** `process` in its transaction: what raises leaves the tables as they were. */
    method Process(who: Id, op: Operation, v: Verdict) returns (reply: Reply)
      modifies this
      ensures Contents() == Processed(old(Contents()), who, op, v)
      ensures reply == ReplyTo(old(Contents()), who, op, v)
      ensures op.actor != who ==> effects == old(effects) && reply.state != Applied
      ensures op.id in old(records) ==> Contents() == old(Contents())
    {
      if op.id in records {
        reply := if records[op.id].actor == who then ReplyOf(records[op.id], true) else Unavailable(op);
      } else {
        var saved := streams;
        var flags := Sequence(who, op);
        if flags.None? || v.Fails? {
          streams := saved;
          reply := Unavailable(op);
        } else {
          var row := if op.actor != who then Record(op, who, false, Some("INVALID_OPERATION"), flags.value)
                     else Record(op, who, v.applied, v.code, flags.value);
          if row.applied { effects := effects + [op.id]; }
          records := records[op.id := row];
          processed := processed + [op.id];
          reply := ReplyOf(row, false);
        }
      }
    }

    /** `batch`: a transaction per operation, each with its own credential check.  The
        responses are None where a credential has expired; what committed before stays. */
    method Batch(ops: seq<Operation>, who: nat -> Option<Id>, verdict: nat -> Verdict)
      returns (responses: Option<seq<Reply>>, order: seq<nat>, turns: nat)
      modifies this
      ensures IsOrder(ops, order) && turns <= |order|
      ensures Identified(who, order, turns) && Contents() == After(old(Contents()), ops, who, verdict, order, turns)
      ensures responses.None? <==> turns < |order|
      ensures responses.None? ==> who(order[turns]).None?
      ensures responses.Some? ==>
                |responses.value| == |ops| && Replies(old(Contents()), ops, who, verdict, order, turns, responses.value)
    {
      order := Ordered(ops);
      turns := 0;
      var out := seq(|ops|, _ => Reply(0, Rejected, false, None));
      responses := Some(out);
      while turns < |order| && responses.Some?
        invariant turns <= |order| && |out| == |ops| && Identified(who, order, turns)
        invariant Contents() == After(old(Contents()), ops, who, verdict, order, turns)
        invariant responses.None? ==> turns < |order| && who(order[turns]).None?
        invariant Replies(old(Contents()), ops, who, verdict, order, turns, out)
        decreases |order| - turns, responses.Some?
      {
        var index := order[turns];
        assert index in order;
        var identity := who(index);
        if identity.None? {
          responses := None;
        } else {
          var reply := Process(identity.value, ops[index], verdict(index));
          NextReply(old(Contents()), ops, who, verdict, order, turns, out, reply);
          out := out[index := reply];
          turns := turns + 1;
        }
      }
      if responses.Some? { responses := Some(out); }
    }
  }

  ghost predicate Identified(who: nat -> Option<Id>, order: seq<nat>, n: nat) {
    n <= |order| && forall k :: 0 <= k < n ==> who(order[k]).Some?
  }

  /** The server after the first n transactions of a batch. */
  ghost function After(s: Server, ops: seq<Operation>, who: nat -> Option<Id>, verdict: nat -> Verdict,
                       order: seq<nat>, n: nat): Server
    requires Identified(who, order, n)
  {
    if n == 0 then s
    else
      var i := order[n - 1];
      var before := After(s, ops, who, verdict, order, n - 1);
      if i < |ops| then Processed(before, who(i).value, ops[i], verdict(i)) else before
  }

  /** Turn k answers at the position of its own operation. */
  ghost predicate Answered(s: Server, ops: seq<Operation>, who: nat -> Option<Id>, verdict: nat -> Verdict,
                           order: seq<nat>, k: nat, out: seq<Reply>) {
    k < |order| && order[k] < |ops| && order[k] < |out| && Identified(who, order, k) && who(order[k]).Some? &&
    out[order[k]] == ReplyTo(After(s, ops, who, verdict, order, k), who(order[k]).value, ops[order[k]], verdict(order[k]))
  }

  ghost predicate Replies(s: Server, ops: seq<Operation>, who: nat -> Option<Id>, verdict: nat -> Verdict,
                          order: seq<nat>, n: nat, out: seq<Reply>) {
    forall k :: 0 <= k < n ==> Answered(s, ops, who, verdict, order, k, out)
  }

  lemma {:induction false} NextReply(s: Server, ops: seq<Operation>, who: nat -> Option<Id>, verdict: nat -> Verdict,
                                     order: seq<nat>, n: nat, out: seq<Reply>, reply: Reply)
    requires IsOrder(ops, order) && n < |order| && |out| == |ops| && Replies(s, ops, who, verdict, order, n, out)
    requires Identified(who, order, n) && who(order[n]).Some? && order[n] < |ops|
    requires reply == ReplyTo(After(s, ops, who, verdict, order, n), who(order[n]).value, ops[order[n]], verdict(order[n]))
    ensures Replies(s, ops, who, verdict, order, n + 1, out[order[n] := reply])
  {
    var out' := out[order[n] := reply];
    forall k | 0 <= k < n ensures Answered(s, ops, who, verdict, order, k, out') {
      assert Answered(s, ops, who, verdict, order, k, out);
      assert order[k] != order[n];
    }
    assert Answered(s, ops, who, verdict, order, n, out');
  }

  // ----- a batch may arrive in any order

  /** Unseen operations of one stream with the next sequences, in any order. */
  ghost predicate Catches(s: Server, actor: Id, ops: seq<Operation>) {
    && (forall i, j :: 0 <= i < j < |ops| ==> ops[i].id != ops[j].id && ops[i].sequence != ops[j].sequence)
    && (forall i :: 0 <= i < |ops| ==> ops[i].id !in s.records && KeyOf(ops[i]) == KeyOf(ops[0]))
    && (forall i :: 0 <= i < |ops| ==>
          var last := StreamFor(s, actor, ops[0]).last; last < ops[i].sequence <= last + |ops|)
    && (ops != [] ==> StreamFor(s, actor, ops[0]).actor == actor)
  }

  /** Distinct increasing integers in a range of their number fill it. */
  lemma {:induction false} Consecutive(t: seq<int>, low: int)
    requires forall a, b :: 0 <= a < b < |t| ==> t[a] < t[b]
    requires forall a :: 0 <= a < |t| ==> low < t[a] <= low + |t|
    ensures forall a :: 0 <= a < |t| ==> t[a] == low + 1 + a
  {
    forall a | 0 <= a < |t| ensures t[a] == low + 1 + a {
      Spread(t, 0, a);
      Spread(t, a, |t| - 1);
    }
  }

  lemma {:induction false} Spread(t: seq<int>, a: nat, b: nat)
    requires a <= b < |t| && forall x, y :: 0 <= x < y < |t| ==> t[x] < t[y]
    ensures t[b] - t[a] >= b - a
  {
    if a < b {
      Spread(t, a, b - 1);
      assert t[b - 1] < t[b];
    }
  }

  lemma {:induction false} OrderLength(ops: seq<Operation>, order: seq<nat>)
    requires IsOrder(ops, order)
    ensures |order| == |ops|
  {
    Positions(order, |ops|);
  }

  /** The order of such a batch is the order of its sequences. */
  lemma {:induction false} CatchesInOrder(s: Server, actor: Id, ops: seq<Operation>, order: seq<nat>, k: nat)
    requires Catches(s, actor, ops) && IsOrder(ops, order) && k < |order|
    ensures |order| == |ops| && order[k] < |ops|
    ensures ops[order[k]].sequence == StreamFor(s, actor, ops[0]).last + 1 + k
  {
    OrderLength(ops, order);
    forall a | 0 <= a < |order| ensures order[a] < |ops| { assert order[a] in order; }
    var t := seq(|order|, a requires 0 <= a < |order| => ops[order[a]].sequence);
    forall a, b | 0 <= a < b < |t| ensures t[a] < t[b] {
      assert SameInOrder(ops, order, a, b);
      var i, j := order[a], order[b];
      assert i != j;
      assert ops[i].sequence != ops[j].sequence;
    }
    Consecutive(t, StreamFor(s, actor, ops[0]).last);
    assert t[k] == ops[order[k]].sequence;
  }

  /** The state of the batch after n turns. */
  ghost predicate Caught(s: Server, t: Server, actor: Id, ops: seq<Operation>, order: seq<nat>, n: nat) {
    && (ops != [] ==> StreamFor(t, actor, ops[0]) == Stream(actor, StreamFor(s, actor, ops[0]).last + n))
    && (forall k :: 0 <= k < |order| ==> order[k] < |ops|)
    && (forall k :: 0 <= k < |order| ==> (ops[order[k]].id in t.records <==> k < n))
    && (forall k :: 0 <= k < |order| && k < n ==> t.records[ops[order[k]].id].flags == {})
  }

  lemma {:induction false} CatchTurn(s: Server, t: Server, actor: Id, ops: seq<Operation>, order: seq<nat>, n: nat, v: Verdict)
    requires Catches(s, actor, ops) && IsOrder(ops, order) && n < |order| && Caught(s, t, actor, ops, order, n) && v.Decides?
    ensures Caught(s, Processed(t, actor, ops[order[n]], v), actor, ops, order, n + 1)
  {
    CatchesInOrder(s, actor, ops, order, n);
    var i := order[n];
    assert KeyOf(ops[i]) == KeyOf(ops[0]);
    forall k | 0 <= k < |order| && k != n ensures ops[order[k]].id != ops[i].id {
      assert order[k] != i;
      assert if order[k] < i then ops[order[k]].id != ops[i].id else ops[i].id != ops[order[k]].id;
    }
  }

  /** A batch of one stream's next operations is recorded without a sequence flag whatever
      the order in which the operations arrive. */
  lemma {:induction false} BatchUnflagged(s: Server, actor: Id, ops: seq<Operation>, who: nat -> Option<Id>,
                                          verdict: nat -> Verdict, order: seq<nat>, n: nat)
    requires Catches(s, actor, ops) && IsOrder(ops, order) && n <= |order|
    requires forall i: nat :: i < |ops| ==> who(i) == Some(actor) && verdict(i).Decides?
    ensures Identified(who, order, n) && |order| == |ops|
    ensures Caught(s, After(s, ops, who, verdict, order, n), actor, ops, order, n)
  {
    OrderLength(ops, order);
    forall a | 0 <= a < |order| ensures order[a] < |ops| { assert order[a] in order; }
    if n > 0 {
      BatchUnflagged(s, actor, ops, who, verdict, order, n - 1);
      CatchTurn(s, After(s, ops, who, verdict, order, n - 1), actor, ops, order, n - 1, verdict(order[n - 1]));
    }
  }
}
