/**
 What a task costs its judge over whole runs, however often a list names it, and however the server,
 the escrow, storage, the model and the network answer.
 */
module JudgeBounds {
  import opened Wrappers
  import opened EscrowTx
  import opened JudgeRecord
  import opened JudgeHistory
  import opened Ranking

  /** What judging a task can come to: see JudgeRuns. */
  predicate CanComeTo(r: Record, a: JudgeAnswer, stored: set<string>) {
    match a
    case StorageFailed(roots) => roots != [] && forall root :: root in roots ==> root in stored && root !in GiveUpOn(r.waits)
    case RankYielded => r.yielded < MAX_JUDGE_YIELDS
    case _ => true
  }

  predicate Fits(r: Record, e: Event, stored: set<string>) {
    e.Judges? && Reaches(r, e.busy) ==> CanComeTo(r, e.verdict, stored)
  }

  /** Judging comes to what it can. */
  ghost predicate AllFit(start: Record, events: seq<Event>, stored: set<string>) {
    forall i :: 0 <= i < |events| ==> Fits(After(start, events[..i]).task.record, events[i], stored)
  }

  /** No list read whole was without the task, so it was never forgotten. */
  predicate NeverForgotten(events: seq<Event>) {
    forall i :: 0 <= i < |events| ==> !(events[i].Leaves? && events[i].complete)
  }

  lemma PrefixFits(start: Record, events: seq<Event>, stored: set<string>, n: nat)
    requires AllFit(start, events, stored) && n <= |events|
    ensures AllFit(start, events[..n], stored)
  {
    assert forall i :: 0 <= i < n ==> events[..n][..i] == events[..i] && events[..n][i] == events[i];
  }

  lemma OneMoreFits(start: Record, events: seq<Event>, e: Event, stored: set<string>)
    requires AllFit(start, events, stored) && Fits(After(start, events).task.record, e, stored)
    ensures AllFit(start, events + [e], stored)
  {
    var all := events + [e];
    assert all[..|events|] == events;
    assert forall i :: 0 <= i < |events| ==> all[..i] == events[..i] && all[i] == events[i];
  }

  // ---- Judgements -----------------------------------------------------------------------------

  /** Every completed judgement was paid for by an attempt or a dropped pick, or left a pick or an end behind. */
  predicate Paid(r: Record, t: Tally) {
    && t.completed <= r.attempts + t.lost + (if Settled(r) then 1 else 0)
    && t.completed <= MAX_JUDGE_ATTEMPTS + t.lost
    && r.yielded <= MAX_JUDGE_YIELDS
    && t.starts <= (MAX_JUDGE_YIELDS + 1) * t.completed + r.yielded
    && (t.completed == MAX_JUDGE_ATTEMPTS + t.lost ==> r.yielded == 0)
  }

  /** A task waiting to be judged in this pass has no pick, and all its judgements are paid for; one with a pick found is not judged. */
  predicate InTurn(t: Task, tally: Tally) {
    var r, turn := t.record, t.turn;
    && (turn.stage == Begun ==> turn.ready == 0 && turn.toJudge == 0)
    && (turn.toJudge > 0 ==> turn.ready == 0 && r.picked.None? && tally.completed <= r.attempts + tally.lost)
    && (turn.ready > 0 && turn.stage !in {Sending, Judging} ==> Settled(r))
  }

  lemma JudgingStaysPaid(r: Record, t: Tally, now: int, io: Io, busy: bool, a: JudgeAnswer)
    requires Paid(r, t) && t.completed <= r.attempts + t.lost
    requires Reaches(r, busy) && a.RankYielded? ==> r.yielded < MAX_JUDGE_YIELDS
    ensures var reached := Reaches(r, busy);
            Paid(JudgeTask(r, now, io, busy, a),
                 t.(completed := t.completed + (if reached && Completes(a) then 1 else 0),
                    starts := t.starts + (if reached && StartsRanking(a) then 1 else 0)))
  {
    if a.Winner? && Reaches(r, busy) {
      var pick := NewPick(a, now);
      SendingSettlesOrSpends(r.(yielded := 0, picked := Some(pick)), pick, io, Unknown, a.answer);
    }
  }

  /** A judging that does not end the pass leaves the task to be judged again. */
  lemma JudgingStaysInTurn(r: Record, now: int, io: Io, busy: bool, a: JudgeAnswer)
    requires r.picked.None? && !EndsPass(r, busy, a)
    ensures JudgeTask(r, now, io, busy, a).picked.None? && JudgeTask(r, now, io, busy, a).attempts >= r.attempts
    ensures !(Reaches(r, busy) && StartsRanking(a))
  {
  }

  lemma JudgesStaysPaid(s: System, e: Event, stored: set<string>)
    requires e.Judges? && Possible(s.task, e) && Fits(s.task.record, e, stored)
    requires Paid(s.task.record, s.tally) && InTurn(s.task, s.tally)
    ensures Paid(Step(s, e).task.record, Step(s, e).tally) && InTurn(Step(s, e).task, Step(s, e).tally)
  {
    var r := s.task.record;
    JudgingStaysPaid(r, s.tally, e.now, e.io, e.busy, e.verdict);
    if !EndsPass(r, e.busy, e.verdict) {
      JudgingStaysInTurn(r, e.now, e.io, e.busy, e.verdict);
    }
  }

  lemma LooksStaysPaid(s: System, e: Event)
    requires e.Looks? && Possible(s.task, e)
    requires Paid(s.task.record, s.tally) && InTurn(s.task, s.tally)
    ensures Paid(Step(s, e).task.record, Step(s, e).tally) && InTurn(Step(s, e).task, Step(s, e).tally)
  {
    LookingIsFree(s.task.record, e.now, e.seen);
  }

  lemma SendsStaysPaid(s: System, e: Event)
    requires e.Sends? && Possible(s.task, e)
    requires Paid(s.task.record, s.tally) && InTurn(s.task, s.tally)
    ensures Paid(Step(s, e).task.record, Step(s, e).tally) && InTurn(Step(s, e).task, Step(s, e).tally)
  {
    var pick := HeldPick(s.task.turn.held.value, e.now);
    SendingSettlesOrSpends(s.task.record.(picked := Some(pick)), pick, e.io, e.lookup, e.answer);
  }

  lemma StepStaysPaid(s: System, e: Event, stored: set<string>)
    requires Possible(s.task, e) && Fits(s.task.record, e, stored) && !(e.Leaves? && e.complete)
    requires Paid(s.task.record, s.tally) && InTurn(s.task, s.tally)
    ensures Paid(Step(s, e).task.record, Step(s, e).tally) && InTurn(Step(s, e).task, Step(s, e).tally)
  {
    match e
    case Begins(_) =>
    case Looks(_, _) => LooksStaysPaid(s, e);
    case Leaves(_) => LeavingInPart(s.task.record);
    case Sends(_, _, _, _) => SendsStaysPaid(s, e);
    case Judges(_, _, _, _) => JudgesStaysPaid(s, e, stored);
  }

  // ---- Waits on storage -----------------------------------------------------------------------

  /** Every wait is on a stored result not given up on. */
  predicate WaitsPaid(w: Waits, waits: nat, stored: set<string>) {
    && w.passes == waits
    && w.roots.Keys <= stored
    && (waits > 0 ==> 0 < |w.roots.Keys| && waits < MAX_TASK_STORAGE_WAITS + |w.roots.Keys|)
  }

  lemma WaitingStaysPaid(w: Waits, waits: nat, stored: set<string>, failed: seq<string>)
    requires WaitsPaid(w, waits, stored)
    requires failed != [] && forall root :: root in failed ==> root in stored && root !in GiveUpOn(w)
    ensures WaitsPaid(Waits(w.passes + 1, CountRoots(w.roots, failed)), waits + 1, stored)
  {
    var after := CountRoots(w.roots, failed).Keys;
    assert failed[0] in failed && failed[0] in after;
    SubsetOfSameSize(w.roots.Keys, after);
    SubsetOfSameSize({failed[0]}, after);
    if w.passes >= MAX_TASK_STORAGE_WAITS {
      assert GiveUpOn(w) == w.roots.Keys;
      assert failed[0] !in w.roots.Keys;
    }
  }

  predicate WaitsOnStorage(r: Record, e: Event) { e.Judges? && Reaches(r, e.busy) && e.verdict.StorageFailed? }

  /** Short of forgetting the task, only waiting on storage changes the storage waits. */
  lemma StepWaits(t: Task, e: Event)
    requires !(e.Leaves? && e.complete)
    ensures StepRecord(t, e).waits ==
            if WaitsOnStorage(t.record, e)
            then Waits(t.record.waits.passes + 1, CountRoots(t.record.waits.roots, e.verdict.failedRoots))
            else t.record.waits
  {
    var r := t.record;
    match e
    case Begins(_) =>
    case Looks(now, seen) => LookingIsFree(r, now, seen);
    case Leaves(_) => LeavingInPart(r);
    case Sends(now, io, lookup, a) =>
      if t.turn.held.Some? {
        var pick := HeldPick(t.turn.held.value, now);
        SendingSettlesOrSpends(r.(picked := Some(pick)), pick, io, lookup, a);
      }
    case Judges(now, io, busy, a) =>
      if a.Winner? {
        var pick := NewPick(a, now);
        SendingSettlesOrSpends(r.(yielded := 0, picked := Some(pick)), pick, io, Unknown, a.answer);
      }
  }

  lemma StepStaysWaitsPaid(s: System, e: Event, stored: set<string>)
    requires WaitsPaid(s.task.record.waits, s.tally.waits, stored) && Fits(s.task.record, e, stored)
    requires !(e.Leaves? && e.complete)
    ensures WaitsPaid(Step(s, e).task.record.waits, Step(s, e).tally.waits, stored)
  {
    StepWaits(s.task, e);
    if WaitsOnStorage(s.task.record, e) {
      WaitingStaysPaid(s.task.record.waits, s.tally.waits, stored, e.verdict.failedRoots);
    }
  }

  // ---- The budgets ----------------------------------------------------------------------------

  lemma {:induction false} RunStaysPaid(start: Record, events: seq<Event>, stored: set<string>)
    requires IsRun(start, events) && AllFit(start, events, stored) && NeverForgotten(events)
    ensures var s := After(start, events);
            Paid(s.task.record, s.tally) && InTurn(s.task, s.tally) && WaitsPaid(s.task.record.waits, s.tally.waits, stored)
  {
    if events == [] {
    } else {
      var last := |events| - 1;
      PrefixIsRun(start, events, last);
      PrefixFits(start, events, stored, last);
      RunStaysPaid(start, events[..last], stored);
      StepStaysPaid(After(start, events[..last]), events[last], stored);
      StepStaysWaitsPaid(After(start, events[..last]), events[last], stored);
    }
  }

  /**
   Until a task is forgotten it is judged to the end at most 3 times and once more for each pick a
   list in part dropped, its ranking is started at most four times as often, and it waits on storage
   fewer passes than 6 plus the stored results.
   */
  lemma JudgingIsBounded(start: Record, events: seq<Event>, stored: set<string>)
    requires IsRun(start, events) && AllFit(start, events, stored) && NeverForgotten(events)
    ensures var t := After(start, events).tally;
            && t.completed <= 3 + t.lost && t.starts <= 12 + 4 * t.lost
            && (t.waits > 0 ==> t.waits <= 5 + |stored|)
  {
    RunStaysPaid(start, events, stored);
    SubsetOfSameSize(After(start, events).task.record.waits.roots.Keys, stored);
  }

  /** A task on every list is judged to the end at most 3 times, its ranking started at most 12 times. */
  lemma ListedJudgingIsBounded(start: Record, events: seq<Event>, stored: set<string>)
    requires IsRun(start, events) && AllFit(start, events, stored)
    requires forall i :: 0 <= i < |events| ==> !events[i].Leaves?
    ensures After(start, events).tally.completed <= 3 && After(start, events).tally.starts <= 12
  {
    JudgingIsBounded(start, events, stored);
    NothingLostOnTheList(start, events);
  }

  lemma {:induction false} NothingLostOnTheList(start: Record, events: seq<Event>)
    requires forall i :: 0 <= i < |events| ==> !events[i].Leaves?
    ensures After(start, events).tally.lost == 0
  {
    if events == [] {
    } else {
      NothingLostOnTheList(start, events[..|events| - 1]);
    }
  }
}
