/**
 Where the judge's care runs out: storage outages, and lists read in part that miss a task.
 */
module JudgeOutages {
  import opened Wrappers
  import opened EscrowTx
  import opened JudgeRecord
  import opened JudgeHistory
  import opened JudgeBounds

  const NO_IO := Io(Expected(true, None, None, None), None)

  /** A pass that names the task once, its window open, and judges it. */
  function OnePass(now: int, a: JudgeAnswer): seq<Event> { [Begins(false), Looks(now, OPEN), Judges(now, NO_IO, false, a)] }

  /** Nothing is in the way of judging the task. */
  predicate IsOpen(r: Record, now: int) {
    !r.done && r.picked.None? && r.confirm.None? && r.retryAt <= now && r.attempts < MAX_JUDGE_ATTEMPTS
  }

  /** What happened is a run in which judging came to what it can, and it leads here. */
  ghost predicate LeadsTo(events: seq<Event>, stored: set<string>, s: System) {
    && IsRun(NOTHING, events) && AllFit(NOTHING, events, stored) && NeverForgotten(events)
    && After(NOTHING, events) == s
  }

  lemma OneMore(events: seq<Event>, stored: set<string>, s: System, e: Event)
    requires LeadsTo(events, stored, s) && Possible(s.task, e) && Fits(s.task.record, e, stored) && !(e.Leaves? && e.complete)
    ensures LeadsTo(events + [e], stored, Step(s, e))
  {
    OneMoreIsRun(NOTHING, events, e);
    OneMoreFits(NOTHING, events, e, stored);
    AfterOneMore(NOTHING, events, e);
  }

  /** The tally after a task was judged. */
  function Judged(t: Tally, a: JudgeAnswer): Tally {
    t.(completed := t.completed + (if Completes(a) then 1 else 0), starts := t.starts + (if StartsRanking(a) then 1 else 0),
       waits := t.waits + (if a.StorageFailed? then 1 else 0), missed := if a.Winner? then 0 else t.missed)
  }

  predicate SignsNothing(a: JudgeAnswer) { a.Winner? ==> a.answer.NoGas? }

  lemma PassSteps(s: System, now: int, a: JudgeAnswer)
    requires IsOpen(s.task.record, now) && SignsNothing(a)
    ensures var begun := Step(s, Begins(false));
            var named := Step(begun, Looks(now, OPEN));
            && begun == s.(task := Task(s.task.record, BEGUN))
            && named == s.(task := Task(s.task.record, Turn(OnList, None, 0, 0, 1)))
            && Step(named, Judges(now, NO_IO, false, a)).task.record == JudgeTask(s.task.record, now, NO_IO, false, a)
            && Step(named, Judges(now, NO_IO, false, a)).tally == Judged(s.tally, a)
  {
  }

  lemma OneMorePass(events: seq<Event>, stored: set<string>, s: System, now: int, a: JudgeAnswer) returns (t: System)
    requires LeadsTo(events, stored, s) && IsOpen(s.task.record, now) && SignsNothing(a) && CanComeTo(s.task.record, a, stored)
    ensures LeadsTo(events + OnePass(now, a), stored, t)
    ensures t.task.record == JudgeTask(s.task.record, now, NO_IO, false, a) && t.tally == Judged(s.tally, a)
  {
    PassSteps(s, now, a);
    var begun := Step(s, Begins(false));
    var named := Step(begun, Looks(now, OPEN));
    var begins, looks, judges := Begins(false), Looks(now, OPEN), Judges(now, NO_IO, false, a);
    OneMore(events, stored, s, begins);
    OneMore(events + [begins], stored, begun, looks);
    OneMore(events + [begins] + [looks], stored, named, judges);
    assert events + OnePass(now, a) == events + [begins] + [looks] + [judges];
    t := Step(named, judges);
  }

  // ---- A storage outage -----------------------------------------------------------------------

  function AllOf(roots: seq<string>): set<string> { set root | root in roots }

  /** The roots not given up on. */
  function StillFailing(roots: seq<string>, giveUpOn: set<string>): (r: seq<string>)
    ensures forall root :: root in r <==> root in roots && root !in giveUpOn
  {
    if roots == [] then []
    else if roots[0] in giveUpOn then StillFailing(roots[1..], giveUpOn)
    else [roots[0]] + StillFailing(roots[1..], giveUpOn)
  }

  /** What judging comes to when all results are stored and none comes out of storage. */
  function NoneServed(roots: seq<string>, w: Waits): JudgeAnswer {
    var failing := StillFailing(roots, GiveUpOn(w));
    if failing != [] then StorageFailed(failing) else NothingReadable(true)
  }

  /** The waits after one more pass. */
  function NextWaits(roots: seq<string>, w: Waits): Waits {
    var failing := StillFailing(roots, GiveUpOn(w));
    if failing != [] then Waits(w.passes + 1, CountRoots(w.roots, failing)) else w
  }

  /** The waits after n passes in which storage serves none of the results. */
  function WaitsAfter(roots: seq<string>, n: nat): Waits {
    if n == 0 then Waits(0, map[]) else NextWaits(roots, WaitsAfter(roots, n - 1))
  }

  /** These passes, 15 minutes apart. */
  function Outage(roots: seq<string>, n: nat): seq<Event> {
    if n == 0 then []
    else Outage(roots, n - 1) + OnePass((n - 1) * JUDGE_RETRY_MS, NoneServed(roots, WaitsAfter(roots, n - 1)))
  }

  /** Each root was counted on every pass that waited. */
  predicate AllCounted(roots: set<string>, w: Waits) { forall root :: root in roots ==> root in w.roots && w.roots[root] >= w.passes }

  /** Every pass was a wait, or the task no longer waits. */
  predicate WaitsKnown(roots: set<string>, k: nat, w: Waits) {
    && w.passes <= 3 && w.passes <= k
    && (w.passes < k ==> roots <= GiveUpOn(w))
    && (w.passes > 0 ==> AllCounted(roots, w))
    && w.roots.Keys <= roots
  }

  lemma {:induction false} CountsGrow(roots: map<string, nat>, failed: seq<string>, root: string)
    ensures root in CountRoots(roots, failed) <==> root in roots || root in failed
    ensures root in CountRoots(roots, failed) ==>
              CountRoots(roots, failed)[root] >= Get(roots, root, 0) + (if root in failed then 1 else 0)
    decreases |failed|
  {
    if failed == [] {
    } else {
      var more := roots[failed[0] := (if failed[0] in roots then roots[failed[0]] else 0) + 1];
      CountsGrow(more, failed[1..], root);
      assert root in failed <==> root == failed[0] || root in failed[1..];
    }
  }

  lemma OneMoreFailure(roots: seq<string>, w: Waits)
    requires w.passes < 3 && (w.passes > 0 ==> AllCounted(AllOf(roots), w)) && w.roots.Keys <= AllOf(roots)
    ensures var counted := CountRoots(w.roots, StillFailing(roots, GiveUpOn(w)));
            AllCounted(AllOf(roots), Waits(w.passes + 1, counted)) && counted.Keys <= AllOf(roots)
  {
    var failing := StillFailing(roots, GiveUpOn(w));
    forall root | root in AllOf(roots)
      ensures root in CountRoots(w.roots, failing) && CountRoots(w.roots, failing)[root] >= w.passes + 1
    {
      CountsGrow(w.roots, failing, root);
      assert root in GiveUpOn(w) ==> w.roots[root] >= MAX_STORAGE_WAITS;
    }
  }

  lemma ThreeAreEnough(roots: set<string>, w: Waits, root: string)
    requires root in roots && root !in GiveUpOn(w) && w.passes <= 3 && (w.passes > 0 ==> AllCounted(roots, w))
    ensures w.passes < 3
  {
    if w.passes > 0 {
      assert root in w.roots && w.roots[root] >= w.passes;
    }
  }

  lemma OnceMoreKnown(roots: seq<string>, k: nat, w: Waits)
    requires WaitsKnown(AllOf(roots), k, w)
    ensures WaitsKnown(AllOf(roots), k + 1, NextWaits(roots, w))
  {
    var failing := StillFailing(roots, GiveUpOn(w));
    if failing != [] {
      assert failing[0] in failing;
      ThreeAreEnough(AllOf(roots), w, failing[0]);
      OneMoreFailure(roots, w);
    } else {
      assert forall root :: root in failing <==> root in roots && root !in GiveUpOn(w);
    }
  }

  lemma {:induction false} WaitsAreKnown(roots: seq<string>, n: nat)
    ensures WaitsKnown(AllOf(roots), n, WaitsAfter(roots, n))
  {
    if n == 0 {
    } else {
      WaitsAreKnown(roots, n - 1);
      OnceMoreKnown(roots, n - 1, WaitsAfter(roots, n - 1));
    }
  }

  function During(k: nat, w: Waits): Record { NOTHING.(retryAt := k * JUDGE_RETRY_MS, waits := w) }

  lemma OnePassOfOutage(roots: seq<string>, k: nat, w: Waits)
    requires w.passes < MAX_TASK_STORAGE_WAITS
    ensures JudgeTask(During(k, w), k * JUDGE_RETRY_MS, NO_IO, false, NoneServed(roots, w)) == During(k + 1, NextWaits(roots, w))
    ensures CanComeTo(During(k, w), NoneServed(roots, w), AllOf(roots))
  {
  }

  lemma OneMoreOutage(roots: seq<string>, k: nat, before: seq<Event>, w: Waits)
    requires w.passes < MAX_TASK_STORAGE_WAITS && exists s :: LeadsTo(before, AllOf(roots), s) && s.task.record == During(k, w)
    ensures exists t :: LeadsTo(before + OnePass(k * JUDGE_RETRY_MS, NoneServed(roots, w)), AllOf(roots), t) &&
                        t.task.record == During(k + 1, NextWaits(roots, w))
  {
    var s :| LeadsTo(before, AllOf(roots), s) && s.task.record == During(k, w);
    OnePassOfOutage(roots, k, w);
    var t := OneMorePass(before, AllOf(roots), s, k * JUDGE_RETRY_MS, NoneServed(roots, w));
  }

  lemma {:induction false} OutageIsRun(roots: seq<string>, n: nat)
    ensures exists s :: LeadsTo(Outage(roots, n), AllOf(roots), s) && s.task.record == During(n, WaitsAfter(roots, n))
  {
    if n == 0 {
      assert LeadsTo([], AllOf(roots), Start(NOTHING));
    } else {
      OutageIsRun(roots, n - 1);
      WaitsAreKnown(roots, n - 1);
      OneMoreOutage(roots, n - 1, Outage(roots, n - 1), WaitsAfter(roots, n - 1));
    }
  }

  /**
   Storage serves none of a task's results, however many and however often: at most 3 passes are
   counted as waits of the 6 there are, no attempt is spent, and every pass finds the task again.
   */
  lemma OutageNeverSpendsAnAttempt(roots: seq<string>, n: nat)
    ensures IsRun(NOTHING, Outage(roots, n)) && AllFit(NOTHING, Outage(roots, n), AllOf(roots))
    ensures var r := After(NOTHING, Outage(roots, n)).task.record;
            && r.waits == WaitsAfter(roots, n) && r.waits.passes <= 3 && (n >= 3 ==> AllOf(roots) <= GiveUpOn(r.waits))
            && r.attempts == 0 && !r.done && r.picked.None? && r.retryAt <= n * JUDGE_RETRY_MS
  {
    OutageIsRun(roots, n);
    WaitsAreKnown(roots, n);
    if n >= 3 {
      ThreeWaitsGiveUp(AllOf(roots), n, WaitsAfter(roots, n));
    }
  }

  lemma ThreeWaitsGiveUp(roots: set<string>, n: nat, w: Waits)
    requires n >= 3 && WaitsKnown(roots, n, w)
    ensures roots <= GiveUpOn(w)
  {
    forall root | root in roots
      ensures root in GiveUpOn(w)
    {
      if root !in GiveUpOn(w) {
        ThreeAreEnough(roots, w, root);
      }
    }
  }

  // ---- Lists read in part ---------------------------------------------------------------------

  /** The task judged and its pick not sent for want of gas; then a list in part without it. */
  lemma OneMissedRead(events: seq<Event>, s: System) returns (all: seq<Event>, t: System)
    requires LeadsTo(events, {}, s) && s.task.record == NOTHING
    ensures LeadsTo(all, {}, t) && t.task.record == NOTHING
    ensures t.tally.completed == s.tally.completed + 1 && t.tally.lost == s.tally.lost + 1
  {
    var a := Winner("w", "c", NoGas);
    t := OneMorePass(events, {}, s, 0, a);
    all := events + OnePass(0, a);
    assert t.task.record == NOTHING.(picked := Some(Pick("w", "c", None, 0, 0)));
    OneMore(all, {}, t, Begins(false));
    all, t := all + [Begins(false)], Step(t, Begins(false));
    OneMore(all, {}, t, Leaves(false));
    all, t := all + [Leaves(false)], Step(t, Leaves(false));
  }

  lemma {:induction false} MissedReads(n: nat) returns (events: seq<Event>, s: System)
    ensures LeadsTo(events, {}, s) && s.task.record == NOTHING && s.tally.completed == n && s.tally.lost == n
  {
    if n == 0 {
      events, s := [], Start(NOTHING);
    } else {
      events, s := MissedReads(n - 1);
      events, s := OneMissedRead(events, s);
    }
  }

  /** A ranking that fails. */
  lemma OneFailure(events: seq<Event>, s: System, k: nat) returns (all: seq<Event>, t: System)
    requires LeadsTo(events, {}, s) && k < MAX_JUDGE_ATTEMPTS && s.task.record == NOTHING.(attempts := k)
    ensures LeadsTo(all, {}, t) && t.task.record == NOTHING.(attempts := k + 1)
    ensures t.tally.completed == s.tally.completed + 1 && t.tally.lost == s.tally.lost
  {
    t := OneMorePass(events, {}, s, 0, RankFailed);
    all := events + OnePass(0, RankFailed);
  }

  /** The budget is met: for every n, a run in which lists in part drop n picks completes 3 + n judgements. */
  lemma MissedReadsJudgeWithoutEnd(n: nat) returns (events: seq<Event>)
    ensures IsRun(NOTHING, events) && AllFit(NOTHING, events, {}) && NeverForgotten(events)
    ensures After(NOTHING, events).tally.completed == 3 + n && After(NOTHING, events).tally.lost == n
  {
    var s: System;
    events, s := MissedReads(n);
    events, s := OneFailure(events, s, 0);
    events, s := OneFailure(events, s, 1);
    events, s := OneFailure(events, s, 2);
  }
}
