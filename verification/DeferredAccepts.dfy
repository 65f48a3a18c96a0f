/**
 The queue of task events that arrive while the agent is busy: a JavaScript Map with a size
 limit, kept here as the sequence of its entries in insertion order.
 */
module DeferredAccepts {
  import opened Wrappers

  /** The chain an event named, and whether it said the gas is sponsored. */
  datatype Hint = Hint(chain: Option<string>, sponsored: bool)
  datatype TaskEvent = TaskEvent(task: string, hint: Hint)

  predicate Has(q: seq<TaskEvent>, task: string) {
    exists i :: 0 <= i < |q| && q[i].task == task
  }

  ghost predicate Distinct(q: seq<TaskEvent>) {
    forall i, j :: 0 <= i < j < |q| ==> q[i].task != q[j].task
  }

  function Keys(q: seq<TaskEvent>): (r: seq<string>)
    ensures |r| == |q| && forall i :: 0 <= i < |q| ==> r[i] == q[i].task
  {
    seq(|q|, i requires 0 <= i < |q| => q[i].task)
  }

  /** Map.set: an entry already there keeps its place and takes the new value; a new one goes last. */
  function Put(q: seq<TaskEvent>, e: TaskEvent): (r: seq<TaskEvent>)
    ensures Has(q, e.task) ==> |r| == |q| && forall i :: 0 <= i < |q| ==> r[i] == if q[i].task == e.task then e else q[i]
    ensures !Has(q, e.task) ==> r == q + [e]
  {
    if q == [] then [e]
    else if q[0].task == e.task then
      [e] + seq(|q| - 1, i requires 0 <= i < |q| - 1 => if q[i + 1].task == e.task then e else q[i + 1])
    else
      assert Has(q, e.task) <==> Has(q[1..], e.task) by {
        if Has(q, e.task) {
          var i :| 0 <= i < |q| && q[i].task == e.task;
          assert q[1..][i - 1].task == e.task;
        }
      }
      [q[0]] + Put(q[1..], e)
  }

  /** The queue after an event is added: a new event pushes the oldest out when the queue is full. */
  function Added(q: seq<TaskEvent>, limit: nat, e: TaskEvent): seq<TaskEvent> {
    if !Has(q, e.task) && |q| >= limit && q != [] then Put(q[1..], e) else Put(q, e)
  }

  class Queue {
    var pending: seq<TaskEvent>
    const limit: nat

    constructor (limit: nat)
      ensures this.limit == limit && pending == []
    {
      this.limit := limit;
      pending := [];
    }

    method Add(e: TaskEvent)
      modifies this
      ensures pending == Added(old(pending), limit, e)
    {
      if !Has(pending, e.task) && |pending| >= limit && pending != [] {
        pending := pending[1..];
      }
      pending := Put(pending, e);
    }

    method Next() returns (first: Option<TaskEvent>)
      modifies this
      ensures old(pending) == [] ==> first == None && pending == []
      ensures old(pending) != [] ==> first == Some(old(pending[0])) && pending == old(pending)[1..]
    {
      if pending == [] {
        return None;
      }
      first := Some(pending[0]);
      pending := pending[1..];
    }
  }

  // ---- What the queue is over any history of adds and takes -----------------------------------

  datatype Op = Add(e: TaskEvent) | Take

  function Apply(q: seq<TaskEvent>, limit: nat, op: Op): seq<TaskEvent> {
    match op
    case Add(e) => Added(q, limit, e)
    case Take => if q == [] then q else q[1..]
  }

  function Replay(ops: seq<Op>, limit: nat): seq<TaskEvent> {
    if ops == [] then [] else Apply(Replay(ops[..|ops| - 1], limit), limit, ops[|ops| - 1])
  }

  /** The tasks that joined the queue, in the order they did: an event for a queued task does not join again. */
  function Arrivals(ops: seq<Op>, limit: nat): seq<string> {
    if ops == [] then []
    else
      var before := ops[..|ops| - 1];
      var op := ops[|ops| - 1];
      Arrivals(before, limit) + if Joins(Replay(before, limit), op) then [op.e.task] else []
  }

  /** How many tasks left because they were taken. */
  function Taken(ops: seq<Op>, limit: nat): nat {
    if ops == [] then 0
    else
      var before := ops[..|ops| - 1];
      Taken(before, limit) + (if ops[|ops| - 1].Take? && Replay(before, limit) != [] then 1 else 0)
  }

  /** How many left because a new task arrived at a full queue. */
  function Evicted(ops: seq<Op>, limit: nat): nat {
    if ops == [] then 0
    else
      var before := ops[..|ops| - 1];
      var op := ops[|ops| - 1];
      var q := Replay(before, limit);
      Evicted(before, limit) + (if Joins(q, op) && |q| == limit then 1 else 0)
  }

  /** The hint of the last event added for a task. */
  function LatestHint(ops: seq<Op>, task: string): Option<Hint> {
    if ops == [] then None
    else
      var op := ops[|ops| - 1];
      if op.Add? && op.e.task == task then Some(op.e.hint) else LatestHint(ops[..|ops| - 1], task)
  }

  /** An event for a queued task: nothing moves, and only that task's hint changes. */
  lemma PutExisting(q: seq<TaskEvent>, e: TaskEvent)
    requires Distinct(q) && Has(q, e.task)
    ensures Distinct(Put(q, e)) && Keys(Put(q, e)) == Keys(q)
    ensures forall x :: x in Put(q, e) ==> x == e || (x in q && x.task != e.task)
  {
  }

  /** An event for a new task: it goes last, and the oldest entry leaves a full queue. */
  lemma AddNew(q: seq<TaskEvent>, limit: nat, e: TaskEvent)
    requires limit >= 1 && Distinct(q) && |q| <= limit && !Has(q, e.task)
    ensures Distinct(Added(q, limit, e))
    ensures Added(q, limit, e) == (if |q| == limit then q[1..] else q) + [e]
  {
    if |q| == limit {
      TailOf(q, e.task);
      AppendNew(q[1..], e);
    } else {
      AppendNew(q, e);
    }
  }

  lemma TailOf(q: seq<TaskEvent>, task: string)
    requires q != [] && Distinct(q) && !Has(q, task)
    ensures Distinct(q[1..]) && !Has(q[1..], task)
  {
  }

  lemma AppendNew(q: seq<TaskEvent>, e: TaskEvent)
    requires Distinct(q) && !Has(q, e.task)
    ensures Distinct(q + [e]) && Put(q, e) == q + [e]
  {
  }

  /** The queue is the end of the arrivals, and stays so. */
  ghost predicate IsEndOf(q: seq<TaskEvent>, limit: nat, arrivals: seq<string>) {
    Distinct(q) && |q| <= limit && |q| <= |arrivals| && Keys(q) == arrivals[|arrivals| - |q|..]
  }

  predicate Joins(p: seq<TaskEvent>, op: Op) { op.Add? && !Has(p, op.e.task) }

  lemma OneTaken(p: seq<TaskEvent>, limit: nat, arrivals: seq<string>)
    requires p != [] && IsEndOf(p, limit, arrivals)
    ensures IsEndOf(p[1..], limit, arrivals)
  {
    assert Keys(p[1..]) == Keys(p)[1..];
  }

  lemma OneJoined(p: seq<TaskEvent>, limit: nat, arrivals: seq<string>, e: TaskEvent)
    requires limit >= 1 && IsEndOf(p, limit, arrivals) && !Has(p, e.task)
    ensures IsEndOf(Added(p, limit, e), limit, arrivals + [e.task])
    ensures |Added(p, limit, e)| == if |p| == limit then |p| else |p| + 1
  {
    AddNew(p, limit, e);
    var kept := if |p| == limit then p[1..] else p;
    if |p| == limit {
      OneTaken(p, limit, arrivals);
    }
    OneAppended(kept, limit, arrivals, e);
  }

  lemma OneAppended(kept: seq<TaskEvent>, limit: nat, arrivals: seq<string>, e: TaskEvent)
    requires IsEndOf(kept, limit, arrivals) && |kept| < limit && Distinct(kept + [e])
    ensures IsEndOf(kept + [e], limit, arrivals + [e.task])
  {
    assert Keys(kept + [e]) == Keys(kept) + [e.task];
  }

  lemma OneOpMore(p: seq<TaskEvent>, limit: nat, arrivals: seq<string>, op: Op)
    requires limit >= 1 && IsEndOf(p, limit, arrivals)
    ensures IsEndOf(Apply(p, limit, op), limit, arrivals + if Joins(p, op) then [op.e.task] else [])
    ensures |Apply(p, limit, op)| == |p| + (if Joins(p, op) && |p| < limit then 1 else 0) - (if op.Take? && p != [] then 1 else 0)
  {
    assert arrivals + [] == arrivals;
    if op.Take? {
      if p != [] {
        OneTaken(p, limit, arrivals);
      }
    } else if Joins(p, op) {
      OneJoined(p, limit, arrivals, op.e);
    } else {
      PutExisting(p, op.e);
    }
  }

  /**
   After any history the queue holds distinct tasks, at most `limit`: the most recent arrivals,
   oldest first. Every arrival that is not there was taken, or pushed out by an arrival at a
   full queue.
   */
  lemma {:induction false} QueueRefinesArrivals(ops: seq<Op>, limit: nat)
    requires limit >= 1
    ensures var q := Replay(ops, limit);
            var arrivals := Arrivals(ops, limit);
            IsEndOf(q, limit, arrivals) && |arrivals| == |q| + Taken(ops, limit) + Evicted(ops, limit)
  {
    if ops == [] {
    } else {
      var before := ops[..|ops| - 1];
      QueueRefinesArrivals(before, limit);
      OneOpMore(Replay(before, limit), limit, Arrivals(before, limit), ops[|ops| - 1]);
    }
  }

  /** Each queued entry carries the hint of the latest event for its task. */
  lemma {:induction false} QueueKeepsLatestHints(ops: seq<Op>, limit: nat)
    requires limit >= 1
    ensures forall x :: x in Replay(ops, limit) ==> LatestHint(ops, x.task) == Some(x.hint)
  {
    if ops == [] {
    } else {
      var before := ops[..|ops| - 1];
      QueueKeepsLatestHints(before, limit);
      QueueRefinesArrivals(before, limit);
      var p := Replay(before, limit);
      match ops[|ops| - 1]
      case Take =>
      case Add(e) =>
        if Has(p, e.task) {
          PutExisting(p, e);
        } else {
          AddNew(p, limit, e);
          HasItsEntries(p, e.task);
        }
    }
  }

  lemma HasItsEntries(q: seq<TaskEvent>, task: string)
    requires !Has(q, task)
    ensures forall x :: x in q ==> x.task != task
  {
  }
}
