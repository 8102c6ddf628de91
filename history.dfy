/** Sequences of calls to the four operations, run one after another as the
    canister's single-threaded execution runs them, and what holds over a
    whole history: the invariant persists, issued ids strictly increase, and
    no id is issued again, deleted or not. */
module History {
  import opened Backend

  /** One call, with the timestamp its update call would have read. */
  datatype Op =
    | GetOp(id: u64)
    | AddOp(payload: MessagePayload, now: u64)
    | UpdateOp(id: u64, payload: MessagePayload, now: u64)
    | DeleteOp(id: u64)

  /** The state after one call. */
  function Step(s: State, op: Op): (r: State)
    requires op.AddOp? ==> s.counter < U64_MAX
    ensures Valid(s) ==> Valid(r)
    ensures s.counter <= r.counter && r.counter as int <= s.counter as int + 1
    ensures r.counter as int == s.counter as int + 1 <==> op.AddOp?
  {
    match op
    case GetOp(_) => s
    case AddOp(p, now) => Add(s, p, now).0
    case UpdateOp(id, p, now) => Update(s, id, p, now).0
    case DeleteOp(id) => Delete(s, id).0
  }

  /** Enough room left in the counter for every call to be an add. */
  predicate Room(s: State, ops: seq<Op>)
  {
    s.counter as int + |ops| <= U64_MAX as int
  }

  /** The state after the calls, first to last. */
  function Run(s: State, ops: seq<Op>): (r: State)
    requires Room(s, ops)
    ensures Valid(s) ==> Valid(r)
    ensures s.counter <= r.counter
    ensures r.counter as int <= s.counter as int + |ops|
    decreases |ops|
  {
    if ops == [] then s else Run(Step(s, ops[0]), ops[1..])
  }

  /** The ids add_message returned, in order. */
  function Issued(s: State, ops: seq<Op>): (ids: seq<u64>)
    requires Room(s, ops)
    decreases |ops|
  {
    if ops == [] then []
    else
      var s1 := Step(s, ops[0]);
      (if ops[0].AddOp? then [s1.counter] else []) + Issued(s1, ops[1..])
  }

  /** The ids delete_message removed (its calls that did not return NotFound), in order. */
  function Removed(s: State, ops: seq<Op>): (ids: seq<u64>)
    requires Room(s, ops)
    decreases |ops|
  {
    if ops == [] then []
    else
      var s1 := Step(s, ops[0]);
      (if ops[0].DeleteOp? && ops[0].id in s.storage then [ops[0].id] else []) + Removed(s1, ops[1..])
  }

  predicate StrictlyIncreasing(xs: seq<u64>)
  {
    forall i, j :: 0 <= i < j < |xs| ==> xs[i] < xs[j]
  }

  /** Every issued id lies above the starting counter and at most at the final one. */
  lemma {:induction false} IssuedBounded(s: State, ops: seq<Op>)
    requires Room(s, ops)
    ensures forall i :: 0 <= i < |Issued(s, ops)| ==> s.counter < Issued(s, ops)[i] <= Run(s, ops).counter
    decreases |ops|
  {
    if ops != [] {
      var s1 := Step(s, ops[0]);
      IssuedBounded(s1, ops[1..]);
      var head: seq<u64> := if ops[0].AddOp? then [s1.counter] else [];
      assert Issued(s, ops) == head + Issued(s1, ops[1..]);
      assert Run(s, ops) == Run(s1, ops[1..]);
    }
  }

  /** The ids come out strictly increasing. */
  lemma {:induction false} IssuedIncreasing(s: State, ops: seq<Op>)
    requires Room(s, ops)
    ensures StrictlyIncreasing(Issued(s, ops))
    decreases |ops|
  {
    if ops != [] {
      var s1 := Step(s, ops[0]);
      IssuedIncreasing(s1, ops[1..]);
      IssuedBounded(s1, ops[1..]);
      var head: seq<u64> := if ops[0].AddOp? then [s1.counter] else [];
      var tail := Issued(s1, ops[1..]);
      assert Issued(s, ops) == head + tail;
      assert forall j :: 0 <= j < |tail| ==> s1.counter < tail[j];
    }
  }

  /** Every issued id lies above the starting counter and at most at the final
      one, and the ids come out strictly increasing: each is new. */
  lemma IssuedFresh(s: State, ops: seq<Op>)
    requires Room(s, ops)
    ensures forall i :: 0 <= i < |Issued(s, ops)| ==> s.counter < Issued(s, ops)[i] <= Run(s, ops).counter
    ensures StrictlyIncreasing(Issued(s, ops))
  {
    IssuedBounded(s, ops);
    IssuedIncreasing(s, ops);
  }

  /** An issued id was never a key before the history began. */
  lemma IssuedNotStored(s: State, ops: seq<Op>)
    requires Room(s, ops) && Valid(s)
    ensures forall i :: 0 <= i < |Issued(s, ops)| ==> Issued(s, ops)[i] !in s.storage
  {
    IssuedFresh(s, ops);
  }

  /** A removed id was a key of a valid state, so it never exceeds the final counter. */
  lemma {:induction false} RemovedBounded(s: State, ops: seq<Op>)
    requires Room(s, ops) && Valid(s)
    ensures forall i :: 0 <= i < |Removed(s, ops)| ==> 1 <= Removed(s, ops)[i] <= Run(s, ops).counter
    decreases |ops|
  {
    if ops != [] {
      var s1 := Step(s, ops[0]);
      RemovedBounded(s1, ops[1..]);
    }
  }

  /** Running two histories in turn is running their concatenation. */
  lemma {:induction false} RunAppend(s: State, ops1: seq<Op>, ops2: seq<Op>)
    requires Room(s, ops1 + ops2)
    ensures Room(s, ops1) && Room(Run(s, ops1), ops2)
    ensures Run(s, ops1 + ops2) == Run(Run(s, ops1), ops2)
    decreases |ops1|
  {
    if ops1 != [] {
      assert (ops1 + ops2)[0] == ops1[0];
      assert (ops1 + ops2)[1..] == ops1[1..] + ops2;
      RunAppend(Step(s, ops1[0]), ops1[1..], ops2);
    } else {
      assert ops1 + ops2 == ops2;
    }
  }

  /** The ids issued over a concatenation are those of its two parts, in turn. */
  lemma {:induction false} IssuedAppend(s: State, ops1: seq<Op>, ops2: seq<Op>)
    requires Room(s, ops1 + ops2)
    ensures Room(s, ops1) && Room(Run(s, ops1), ops2)
    ensures Issued(s, ops1 + ops2) == Issued(s, ops1) + Issued(Run(s, ops1), ops2)
    decreases |ops1|
  {
    RunAppend(s, ops1, ops2);
    if ops1 != [] {
      assert (ops1 + ops2)[0] == ops1[0];
      assert (ops1 + ops2)[1..] == ops1[1..] + ops2;
      IssuedAppend(Step(s, ops1[0]), ops1[1..], ops2);
    } else {
      assert ops1 + ops2 == ops2;
    }
  }

  /** The ids removed over a concatenation are those of its two parts, in turn. */
  lemma {:induction false} RemovedAppend(s: State, ops1: seq<Op>, ops2: seq<Op>)
    requires Room(s, ops1 + ops2)
    ensures Room(s, ops1) && Room(Run(s, ops1), ops2)
    ensures Removed(s, ops1 + ops2) == Removed(s, ops1) + Removed(Run(s, ops1), ops2)
    decreases |ops1|
  {
    RunAppend(s, ops1, ops2);
    if ops1 != [] {
      assert (ops1 + ops2)[0] == ops1[0];
      assert (ops1 + ops2)[1..] == ops1[1..] + ops2;
      RemovedAppend(Step(s, ops1[0]), ops1[1..], ops2);
    } else {
      assert ops1 + ops2 == ops2;
    }
  }

  /** Ids are never reissued: whatever was issued or deleted before a point in
      the history is smaller than every id issued after it. */
  lemma NeverReissued(s: State, ops1: seq<Op>, ops2: seq<Op>)
    requires Room(s, ops1 + ops2) && Valid(s)
    ensures Room(s, ops1) && Room(Run(s, ops1), ops2)
    ensures Issued(s, ops1 + ops2) == Issued(s, ops1) + Issued(Run(s, ops1), ops2)
    ensures Removed(s, ops1 + ops2) == Removed(s, ops1) + Removed(Run(s, ops1), ops2)
    ensures forall i, j :: 0 <= i < |Issued(s, ops1)| && 0 <= j < |Issued(Run(s, ops1), ops2)| ==>
      Issued(s, ops1)[i] < Issued(Run(s, ops1), ops2)[j]
    ensures forall i, j :: 0 <= i < |Removed(s, ops1)| && 0 <= j < |Issued(Run(s, ops1), ops2)| ==>
      Removed(s, ops1)[i] < Issued(Run(s, ops1), ops2)[j]
  {
    IssuedAppend(s, ops1, ops2);
    RemovedAppend(s, ops1, ops2);
    IssuedFresh(s, ops1);
    RemovedBounded(s, ops1);
    IssuedFresh(Run(s, ops1), ops2);
  }

  /** The keys after a history: those held at its start or issued during it,
      less those deleted during it. With an empty start, each issued id holds
      exactly one message until deleted, and nothing else is ever a key. */
  lemma {:induction false} KeysAfter(s: State, ops: seq<Op>)
    requires Room(s, ops) && Valid(s)
    ensures forall k :: k in Run(s, ops).storage <==>
      (k in s.storage || k in Issued(s, ops)) && k !in Removed(s, ops)
    decreases |ops|
  {
    if ops != [] {
      var s1 := Step(s, ops[0]);
      KeysAfter(s1, ops[1..]);
      IssuedFresh(s1, ops[1..]);
    }
  }

  /** From first start, get of an id that add never returned is NotFound. */
  lemma NeverIssuedNotFound(ops: seq<Op>, id: u64)
    requires Room(Initial, ops) && id !in Issued(Initial, ops)
    ensures Get(Run(Initial, ops), id).Err?
  {
    KeysAfter(Initial, ops);
  }

  /** Ids issued over any history are pairwise distinct. */
  lemma IssuedDistinct(s: State, ops: seq<Op>)
    requires Room(s, ops)
    ensures forall i, j :: 0 <= i < |Issued(s, ops)| && 0 <= j < |Issued(s, ops)| && i != j ==>
      Issued(s, ops)[i] != Issued(s, ops)[j]
  {
    IssuedFresh(s, ops);
  }

  /** From first start, the first add issues id 1 (the counter starts at 0 and
      is taken to be incremented before it is read). */
  lemma FirstIdIsOne(p: MessagePayload, now: u64, ops: seq<Op>)
    requires Room(Initial, [AddOp(p, now)] + ops)
    ensures Issued(Initial, [AddOp(p, now)] + ops)[0] == 1
  {
  }

  /** An example run: add gives id 1, update changes its title,
      delete returns the last record, and a later get finds nothing. */
  lemma Walkthrough(now: u64, later: u64)
    ensures var a := MessagePayload("a", "b", "c");
      var x := MessagePayload("x", "b", "c");
      var (s1, m1) := Add(Initial, a, now);
      var (s2, r2) := Update(s1, 1, x, later);
      var (s3, r3) := Delete(s2, 1);
      && m1.id == 1
      && r2 == Ok(Message(1, "x", "b", "c", now, Some(later)))
      && r3 == r2
      && Get(s3, 1).Err?
  {
  }
}
