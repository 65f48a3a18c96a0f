/**
 The agent's one work slot. Polls, task events and open-submission passes compete for it;
 whatever arrives while it is held waits, as a due poll or in the deferred queue, and the
 holder hands it on when it ends. JavaScript runs each stretch of code between two awaits
 without interruption, so the steps here are those stretches: entry points up to their first
 await, and the finally block that frees the slot. Any order of steps is a run.
 */
module WorkSlot {
  import opened Wrappers
  import opened DeferredAccepts

  const QUEUE_LIMIT: nat := 200

  /** What can hold the slot. `deferred`: the event was taken from the queue. */
  datatype Activity = Poll | OpenPass | Accept(e: TaskEvent, deferred: bool)

  /** The slot's flags, the queue, and the assigned tasks held for gas. */
  datatype Slot = Slot(working: bool, pollDue: bool, queue: seq<TaskEvent>, gasHeld: set<string>)

  /** A slot after a step, and the activity the step started, if any. */
  datatype Outcome = Outcome(slot: Slot, started: Option<Activity>)

  function PollAndWork(s: Slot): Outcome {
    if s.working then Outcome(s.(pollDue := true), None)
    else Outcome(s.(working := true, pollDue := false), Some(Poll))
  }

  /** `mayRun`: open submission is on and its back-off has passed. */
  function OpenSubmissionPass(s: Slot, mayRun: bool): Outcome {
    if !mayRun || s.working || s.pollDue || s.queue != [] then Outcome(s, None)
    else Outcome(s.(working := true), Some(OpenPass))
  }

  /** `turnedAway`: the tasks an applied mark or a release cooldown keeps from being accepted now. */
  function DrainDeferredAccepts(s: Slot, turnedAway: set<string>): Outcome
    decreases |s.queue|, 0
  {
    if s.working then Outcome(s, None)
    else if s.pollDue then PollAndWork(s)
    else if s.gasHeld != {} || s.queue == [] then Outcome(s, None)
    else AcceptFromWs(s.(queue := s.queue[1..]), s.queue[0], true, turnedAway)
  }

  function AcceptFromWs(s: Slot, e: TaskEvent, deferred: bool, turnedAway: set<string>): Outcome
    decreases |s.queue|, 1
  {
    if s.working then Outcome(s.(queue := Added(s.queue, QUEUE_LIMIT, e)), None)
    else if e.task in turnedAway then DrainDeferredAccepts(s, turnedAway)
    else Outcome(s.(working := true), Some(Accept(e, deferred)))
  }

  /** The finally block of every holder; `gasHeld` is what its work left held for gas. */
  function Finish(s: Slot, gasHeld: set<string>, turnedAway: set<string>): Outcome {
    DrainDeferredAccepts(s.(working := false, gasHeld := gasHeld), turnedAway)
  }

  /** The first index from `i` on whose task is not turned away, or the length. */
  function FirstWelcome(q: seq<TaskEvent>, turnedAway: set<string>): (k: nat)
    ensures k <= |q|
    ensures forall i :: 0 <= i < k ==> q[i].task in turnedAway
    ensures k < |q| ==> q[k].task !in turnedAway
  {
    if q == [] || q[0].task !in turnedAway then 0 else 1 + FirstWelcome(q[1..], turnedAway)
  }

  /**
   What draining a free slot does: a due poll first, nothing while a task is held for gas,
   else the oldest event that is not turned away, dropping those before it.
   */
  lemma {:induction false} DrainTakesTheOldestWelcome(s: Slot, turnedAway: set<string>)
    requires !s.working
    ensures var r := DrainDeferredAccepts(s, turnedAway);
            var k := FirstWelcome(s.queue, turnedAway);
            if s.pollDue then r == Outcome(s.(working := true, pollDue := false), Some(Poll))
            else if s.gasHeld != {} then r == Outcome(s, None)
            else if k == |s.queue| then r == Outcome(s.(queue := []), None)
            else r == Outcome(s.(working := true, queue := s.queue[k + 1..]), Some(Accept(s.queue[k], true)))
    decreases |s.queue|
  {
    if !s.pollDue && s.gasHeld == {} && s.queue != [] {
      var rest := s.(queue := s.queue[1..]);
      if s.queue[0].task in turnedAway {
        DrainTakesTheOldestWelcome(rest, turnedAway);
        var k := FirstWelcome(s.queue, turnedAway);
        if k < |s.queue| {
          assert s.queue[1..][k - 1..][1..] == s.queue[k + 1..];
        }
      }
    }
  }

  // ---- The runtime's own variables ------------------------------------------------------------

  class Runtime {
    var working: bool
    var pollDue: bool
    const wsDeferred: Queue
    var resumeGasHeld: set<string>

    ghost function View(): Slot
      reads this, wsDeferred
    {
      Slot(working, pollDue, wsDeferred.pending, resumeGasHeld)
    }

    constructor ()
      ensures View() == Slot(false, false, [], {}) && wsDeferred.limit == QUEUE_LIMIT && fresh(wsDeferred)
    {
      working, pollDue, resumeGasHeld := false, false, {};
      wsDeferred := new Queue(QUEUE_LIMIT);
    }

    method StartPoll() returns (started: Option<Activity>)
      modifies this
      ensures Outcome(View(), started) == PollAndWork(old(View()))
    {
      if working {
        pollDue := true;
        return None;
      }
      working := true;
      pollDue := false;
      started := Some(Poll);
    }

    method StartOpenPass(mayRun: bool) returns (started: Option<Activity>)
      modifies this
      ensures Outcome(View(), started) == OpenSubmissionPass(old(View()), mayRun)
    {
      if !mayRun || working || pollDue || wsDeferred.pending != [] {
        return None;
      }
      working := true;
      started := Some(OpenPass);
    }

    method Drain(turnedAway: set<string>) returns (started: Option<Activity>)
      requires wsDeferred.limit == QUEUE_LIMIT
      modifies this, wsDeferred
      ensures Outcome(View(), started) == DrainDeferredAccepts(old(View()), turnedAway)
      decreases |wsDeferred.pending|, 0
    {
      if working {
        return None;
      }
      if pollDue {
        started := StartPoll();
        return;
      }
      if resumeGasHeld != {} {
        return None;
      }
      var next := wsDeferred.Next();
      if next.None? {
        return None;
      }
      started := AcceptEvent(next.value, true, turnedAway);
    }

    method AcceptEvent(e: TaskEvent, deferred: bool, turnedAway: set<string>) returns (started: Option<Activity>)
      requires wsDeferred.limit == QUEUE_LIMIT
      modifies this, wsDeferred
      ensures Outcome(View(), started) == AcceptFromWs(old(View()), e, deferred, turnedAway)
      decreases |wsDeferred.pending|, 1
    {
      if working {
        wsDeferred.Add(e);
        return None;
      }
      if e.task in turnedAway {
        started := Drain(turnedAway);
        return;
      }
      working := true;
      started := Some(Accept(e, deferred));
    }

    method FreeSlot(gasHeld: set<string>, turnedAway: set<string>) returns (started: Option<Activity>)
      requires wsDeferred.limit == QUEUE_LIMIT
      modifies this, wsDeferred
      ensures Outcome(View(), started) == Finish(old(View()), gasHeld, turnedAway)
    {
      resumeGasHeld := gasHeld;
      working := false;
      started := Drain(turnedAway);
    }
  }

  // ---- Every run ------------------------------------------------------------------------------

  /** The slot, and the activities started whose finally block has not run. */
  datatype System = System(slot: Slot, running: multiset<Activity>)

  datatype Event =
    | PollTimer
    | OpenTimer(mayRun: bool)
    | SocketEvent(e: TaskEvent, turnedAway: set<string>)
    | Ends(a: Activity, gasHeld: set<string>, turnedAway: set<string>)

  ghost predicate Enabled(sys: System, ev: Event) {
    ev.Ends? ==> ev.a in sys.running
  }

  ghost function Started(running: multiset<Activity>, o: Outcome): System {
    System(o.slot, match o.started case None => running case Some(a) => running + multiset{a})
  }

  ghost function Step(sys: System, ev: Event): System {
    match ev
    case PollTimer => Started(sys.running, PollAndWork(sys.slot))
    case OpenTimer(mayRun) => Started(sys.running, OpenSubmissionPass(sys.slot, mayRun))
    case SocketEvent(e, turnedAway) => Started(sys.running, AcceptFromWs(sys.slot, e, false, turnedAway))
    case Ends(a, gasHeld, turnedAway) => Started(sys.running - multiset{a}, Finish(sys.slot, gasHeld, turnedAway))
  }

  ghost const INITIAL: System := System(Slot(false, false, [], {}), multiset{})

  /** A run: the states between events, from the initial one, each event enabled where it happens. */
  ghost predicate IsRun(states: seq<System>, events: seq<Event>) {
    && |states| == |events| + 1
    && states[0] == INITIAL
    && forall i :: 0 <= i < |events| ==> Enabled(states[i], events[i]) && states[i + 1] == Step(states[i], events[i])
  }

  /** Mutual exclusion, and no lost wake-up while the slot is free. */
  ghost predicate Safe(sys: System) {
    var s := sys.slot;
    && |sys.running| == (if s.working then 1 else 0)
    && (!s.working ==> !s.pollDue && (s.queue == [] || s.gasHeld != {}))
    && Distinct(s.queue) && |s.queue| <= QUEUE_LIMIT
  }

  lemma StepIsSafe(sys: System, ev: Event)
    requires Safe(sys) && Enabled(sys, ev)
    ensures Safe(Step(sys, ev))
  {
    var s := sys.slot;
    match ev
    case PollTimer => TimersAreSafe(sys, false);
    case OpenTimer(mayRun) => TimersAreSafe(sys, mayRun);
    case SocketEvent(e, turnedAway) =>
      ArrivingIsSafe(sys, e, turnedAway);
    case Ends(a, gasHeld, turnedAway) =>
      EndingIsSafe(sys, a, gasHeld, turnedAway);
  }

  lemma TimersAreSafe(sys: System, mayRun: bool)
    requires Safe(sys)
    ensures Safe(Started(sys.running, PollAndWork(sys.slot)))
    ensures Safe(Started(sys.running, OpenSubmissionPass(sys.slot, mayRun)))
  {
  }

  lemma ArrivingIsSafe(sys: System, e: TaskEvent, turnedAway: set<string>)
    requires Safe(sys)
    ensures Safe(Started(sys.running, AcceptFromWs(sys.slot, e, false, turnedAway)))
  {
    if sys.slot.working {
      AddedKeepsDistinct(sys.slot.queue, e);
    } else {
      DrainTakesTheOldestWelcome(sys.slot, turnedAway);
    }
  }

  lemma EndingIsSafe(sys: System, a: Activity, gasHeld: set<string>, turnedAway: set<string>)
    requires Safe(sys) && a in sys.running
    ensures Safe(Started(sys.running - multiset{a}, Finish(sys.slot, gasHeld, turnedAway)))
  {
    assert |sys.running - multiset{a}| == |sys.running| - 1;
    DrainTakesTheOldestWelcome(sys.slot.(working := false, gasHeld := gasHeld), turnedAway);
  }

  lemma AddedKeepsDistinct(q: seq<TaskEvent>, e: TaskEvent)
    requires Distinct(q) && |q| <= QUEUE_LIMIT
    ensures Distinct(Added(q, QUEUE_LIMIT, e)) && |Added(q, QUEUE_LIMIT, e)| <= QUEUE_LIMIT
  {
    if Has(q, e.task) {
      PutExisting(q, e);
    } else {
      AddNew(q, QUEUE_LIMIT, e);
    }
  }

  /**
   In every run, whatever the timers, the socket and the work do: at most one activity runs,
   exactly when the slot is held; and whenever it is free, no poll is due and nothing is
   queued, unless a task is held for gas.
   */
  lemma {:induction false} EveryRunIsSafe(states: seq<System>, events: seq<Event>)
    requires IsRun(states, events)
    ensures forall i :: 0 <= i < |states| ==> Safe(states[i])
    decreases |events|
  {
    if events == [] {
    } else {
      var n := |events| - 1;
      EveryRunIsSafe(states[..n + 1], events[..n]);
      assert states[..n + 1][n] == states[n];
      StepIsSafe(states[n], events[n]);
      assert forall i :: 0 <= i <= n ==> states[i] == states[..n + 1][i];
    }
  }

  /**
   A poll that came due runs next: from the moment it is due until the holder ends nothing
   starts, and when the holder ends the poll starts, before any deferred event.
   */
  lemma {:induction false} DuePollRunsNext(states: seq<System>, events: seq<Event>, i: nat, j: nat)
    requires IsRun(states, events)
    requires i <= j < |events| && states[i].slot.pollDue
    requires forall k :: i <= k < j ==> !events[k].Ends?
    requires events[j].Ends?
    ensures forall k :: i <= k <= j ==> states[k].running == states[i].running && states[k].slot.pollDue
    ensures states[j + 1].running == multiset{Poll} && !states[j + 1].slot.pollDue
    ensures states[j + 1].slot.queue == states[j].slot.queue
    decreases j - i
  {
    EveryRunIsSafe(states, events);
    assert Safe(states[i]) && Safe(states[j]);
    if i < j {
      assert Enabled(states[i], events[i]) && states[i + 1] == Step(states[i], events[i]);
      DuePollRunsNext(states, events, i + 1, j);
    } else {
      var ev := events[j];
      DrainTakesTheOldestWelcome(states[j].slot.(working := false, gasHeld := ev.gasHeld), ev.turnedAway);
      assert |states[j].running - multiset{ev.a}| == 0;
      assert states[j + 1] == Step(states[j], ev);
    }
  }

  /**
   No event is lost to a free slot: when a holder ends with no poll due and nothing held for
   gas, the oldest deferred event that is not turned away starts, and only turned-away events
   are dropped.
   */
  lemma DeferredEventRunsNext(sys: System, ev: Event)
    requires Safe(sys) && Enabled(sys, ev) && ev.Ends?
    requires !sys.slot.pollDue && ev.gasHeld == {}
    ensures var k := FirstWelcome(sys.slot.queue, ev.turnedAway);
            var next := Step(sys, ev);
            if k < |sys.slot.queue|
            then next.running == multiset{Accept(sys.slot.queue[k], true)} && next.slot.queue == sys.slot.queue[k + 1..]
            else next.running == multiset{} && next.slot.queue == []
  {
    assert |sys.running - multiset{ev.a}| == 0;
    DrainTakesTheOldestWelcome(sys.slot.(working := false, gasHeld := {}), ev.turnedAway);
  }

  // ---- What each event comes to ---------------------------------------------------------------

  /**
   No poll is lost: the poll timer starts a poll at once on a free slot; on a held one nothing starts
   until the holder ends, and then a poll does.
   */
  lemma EveryPollRuns(states: seq<System>, events: seq<Event>, i: nat, j: nat)
    requires IsRun(states, events) && i < |events| && events[i].PollTimer?
    requires states[i].slot.working ==> i < j < |events| && events[j].Ends? && forall k :: i <= k < j ==> !events[k].Ends?
    ensures states[i].running == multiset{} ==> states[i + 1].running == multiset{Poll}
    ensures states[i].running != multiset{} ==>
              i < j < |events| && states[j + 1].running == multiset{Poll} && forall k :: i <= k <= j ==> states[k].running == states[i].running
  {
    EveryRunIsSafe(states, events);
    assert Safe(states[i]) && states[i + 1] == Step(states[i], events[i]);
    if states[i].slot.working {
      DuePollRunsNext(states, events, i + 1, j);
    } else {
      assert states[i].running == multiset{};
    }
  }

  /** The event waits, under its latest hint. */
  ghost predicate Waits(s: Slot, e: TaskEvent) { e in s.queue }

  lemma AddedWaits(q: seq<TaskEvent>, e: TaskEvent)
    requires Distinct(q) && |q| <= QUEUE_LIMIT
    ensures e in Added(q, QUEUE_LIMIT, e)
    ensures forall x :: x in q && x.task != e.task && x !in Added(q, QUEUE_LIMIT, e) ==> |q| == QUEUE_LIMIT && x == q[0] && !Has(q, e.task)
  {
    if Has(q, e.task) {
      var i :| 0 <= i < |q| && q[i].task == e.task;
      assert Put(q, e)[i] == e;
      forall x | x in q && x.task != e.task
        ensures x in Put(q, e)
      {
        var k :| 0 <= k < |q| && q[k] == x;
        assert Put(q, e)[k] == x;
      }
    } else {
      AddNew(q, QUEUE_LIMIT, e);
      assert e == Added(q, QUEUE_LIMIT, e)[|Added(q, QUEUE_LIMIT, e)| - 1];
      assert |q| == QUEUE_LIMIT ==> forall x :: x in q ==> x == q[0] || x in q[1..];
    }
  }

  /**
   A task's event: on a free slot it starts, unless it is turned away; on a held one it waits, with its
   own hint, and whoever is pushed out for it was the oldest of a full queue.
   */
  lemma EveryEventStartsOrWaits(states: seq<System>, events: seq<Event>, i: nat)
    requires IsRun(states, events) && i < |events| && events[i].SocketEvent?
    ensures var before, next, ev := states[i], states[i + 1], events[i];
            && (before.running != multiset{} ==>
                  && next.running == before.running && Waits(next.slot, ev.e)
                  && forall x :: Waits(before.slot, x) && x.task != ev.e.task && !Waits(next.slot, x) ==>
                       |before.slot.queue| == QUEUE_LIMIT && x == before.slot.queue[0])
            && (before.running == multiset{} && ev.e.task !in ev.turnedAway ==>
                  next.running == multiset{Accept(ev.e, false)} && next.slot.queue == before.slot.queue)
  {
    EveryRunIsSafe(states, events);
    assert Safe(states[i]) && states[i + 1] == Step(states[i], events[i]);
    AddedWaits(states[i].slot.queue, events[i].e);
  }

  /** An open pass starts exactly when it may run, the slot is free and nothing waits. */
  lemma OpenPassStartsExactly(states: seq<System>, events: seq<Event>, i: nat)
    requires IsRun(states, events) && i < |events| && events[i].OpenTimer?
    ensures if events[i].mayRun && states[i].running == multiset{} && states[i].slot.queue == []
            then states[i + 1].running == multiset{OpenPass} && states[i + 1].slot.queue == []
            else states[i + 1] == states[i]
  {
    EveryRunIsSafe(states, events);
    assert Safe(states[i]) && states[i + 1] == Step(states[i], events[i]);
  }

  /** A task held for gas keeps the queue as it is when a holder ends. */
  lemma HeldForGasNothingIsTaken(states: seq<System>, events: seq<Event>, i: nat)
    requires IsRun(states, events) && i < |events| && events[i].Ends? && events[i].gasHeld != {} && !states[i].slot.pollDue
    ensures states[i + 1].running == multiset{} && states[i + 1].slot.queue == states[i].slot.queue && states[i + 1].slot.gasHeld == events[i].gasHeld
  {
    EveryRunIsSafe(states, events);
    assert Safe(states[i]) && states[i + 1] == Step(states[i], events[i]);
    assert |states[i].running - multiset{events[i].a}| == 0;
  }

  /** The task waits, or is being worked on. */
  ghost predicate IsKept(sys: System, task: string) {
    Has(sys.slot.queue, task) || exists e: TaskEvent, d: bool :: e.task == task && Accept(e, d) in sys.running
  }

  /**
   A waiting task is lost in no step but one that turns it away or, for a new task at a full queue,
   pushes it out as the oldest: else it waits on, or it is what starts.
   */
  lemma NoWaitingTaskIsLost(states: seq<System>, events: seq<Event>, i: nat, e: TaskEvent)
    requires IsRun(states, events) && i < |events| && Waits(states[i].slot, e)
    ensures || IsKept(states[i + 1], e.task)
            || (events[i].Ends? && e.task in events[i].turnedAway)
            || (events[i].SocketEvent? && (e.task in events[i].turnedAway || (|states[i].slot.queue| == QUEUE_LIMIT && e == states[i].slot.queue[0])))
  {
    EveryRunIsSafe(states, events);
    var s, ev := states[i].slot, events[i];
    assert Safe(states[i]) && states[i + 1] == Step(states[i], ev);
    match ev
    case PollTimer => WaitsIsHas(s.queue, e);
    case OpenTimer(_) => WaitsIsHas(s.queue, e);
    case SocketEvent(x, turnedAway) =>
      if s.working {
        AddedWaits(s.queue, x);
        if e.task == x.task {
          WaitsIsHas(states[i + 1].slot.queue, x);
        } else if e in states[i + 1].slot.queue {
          WaitsIsHas(states[i + 1].slot.queue, e);
        }
      } else {
        DrainTakesTheOldestWelcome(s, turnedAway);
        TakenOrWaits(s, turnedAway, e);
        WaitsIsHas(s.queue, e);
      }
    case Ends(a, gasHeld, turnedAway) =>
      var freed := s.(working := false, gasHeld := gasHeld);
      DrainTakesTheOldestWelcome(freed, turnedAway);
      TakenOrWaits(freed, turnedAway, e);
  }

  lemma WaitsIsHas(q: seq<TaskEvent>, e: TaskEvent)
    requires e in q
    ensures Has(q, e.task)
  {
    var i :| 0 <= i < |q| && q[i] == e;
  }

  lemma TakenOrWaits(s: Slot, turnedAway: set<string>, e: TaskEvent)
    requires !s.working && e in s.queue
    ensures var r := DrainDeferredAccepts(s, turnedAway);
            e.task in turnedAway || Has(r.slot.queue, e.task) || r.started == Some(Accept(e, true))
  {
    DrainTakesTheOldestWelcome(s, turnedAway);
    WaitsIsHas(s.queue, e);
    var k := FirstWelcome(s.queue, turnedAway);
    var i :| 0 <= i < |s.queue| && s.queue[i] == e;
    if k < i {
      assert s.queue[k + 1..][i - k - 1] == e;
      WaitsIsHas(s.queue[k + 1..], e);
    }
  }
}
