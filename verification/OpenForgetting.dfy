/**
 When a task is forgotten: after how many board reads without it; and what a board that moves a
 task's deadline costs.
 */
module OpenForgetting {
  import opened Wrappers
  import opened EscrowTx
  import opened OpenRecord
  import opened OpenBounds

  // ---- Two complete reads ---------------------------------------------------------------------

  predicate IsCompleteRead(e: Event) { e.Read? && e.board.complete }

  /** A complete read without the task at `j`, and no complete read with it since. */
  ghost predicate MissingSince(events: seq<Event>, j: nat) {
    && j < |events| && IsCompleteRead(events[j]) && !events[j].board.listed
    && forall k :: j < k < |events| && IsCompleteRead(events[k]) ==> !events[k].board.listed
  }

  lemma StepKeepsAbsence(s: System, e: Event)
    requires s.record.absent <= 1 && !e.Read?
    ensures Step(s, e).record.absent == s.record.absent
  {
  }

  lemma ReadingCounts(s: System, e: Event)
    requires s.record.absent <= 1 && e.Read?
    ensures var after := Step(s, e).record.absent;
            && after <= 1
            && (after == 1 ==> if e.board.complete then !e.board.listed else s.record.absent == 1)
  {
  }

  lemma {:induction false} AbsentSince(start: Record, events: seq<Event>)
    requires Fresh(start)
    ensures After(start, events).record.absent <= 1
    ensures After(start, events).record.absent == 1 ==> exists j :: MissingSince(events, j)
  {
    if events == [] {
    } else {
      var last := |events| - 1;
      var front, e := events[..last], events[last];
      AbsentSince(start, front);
      var s := After(start, front);
      if e.Read? {
        ReadingCounts(s, e);
      } else {
        StepKeepsAbsence(s, e);
      }
      if After(start, events).record.absent == 1 {
        if IsCompleteRead(e) {
          assert MissingSince(events, last);
        } else {
          var j :| MissingSince(front, j);
          assert forall k :: 0 <= k < last ==> events[k] == front[k];
          assert MissingSince(events, j);
        }
      }
    }
  }

  /** A task is forgotten only on the second complete read without it, no complete read between the two listing it. */
  lemma ForgottenAfterTwoCompleteReads(start: Record, events: seq<Event>, board: Board)
    requires Fresh(start) && Forgets(After(start, events).record, board)
    ensures board.complete && !board.listed && exists j :: MissingSince(events, j)
  {
    AbsentSince(start, events);
  }

  function Missed(nowSec: int): Event { Read(Board(false, true, nowSec), false) }
  function SeenInPart(nowSec: int): Event { Read(Board(true, false, nowSec), false) }

  /** Not two in a row of all reads: a read in part that lists the task between the two does not count for it. */
  lemma SeenInPartIsForgottenAllTheSame()
    ensures var events := [Skipped(0), Missed(0), SeenInPart(0)];
            After(NOTHING, events).record.logged && Forgets(After(NOTHING, events).record, Missed(0).board)
  {
    AfterOneMore(NOTHING, [], Skipped(0));
    AfterOneMore(NOTHING, [Skipped(0)], Missed(0));
    AfterOneMore(NOTHING, [Skipped(0), Missed(0)], SeenInPart(0));
    assert [] + [Skipped(0)] == [Skipped(0)];
    assert [Skipped(0)] + [Missed(0)] == [Skipped(0), Missed(0)];
    assert [Skipped(0), Missed(0)] + [SeenInPart(0)] == [Skipped(0), Missed(0), SeenInPart(0)];
  }

  // ---- A deadline that moves ------------------------------------------------------------------

  /** All of this could happen to a task nothing is known of, the board giving these deadlines and no read forgetting the task. */
  ghost predicate IsHistory(events: seq<Event>, marginSec: nat, given: set<int>) {
    && IsRun(NOTHING, events, marginSec) && NeverForgotten(NOTHING, events)
    && InTurn(events) && DeadlinesIn(NOTHING, events, given)
  }

  predicate IsBy(events: seq<Event>, nowSec: int) { forall i :: 0 <= i < |events| ==> SecondOf(events[i]) <= nowSec }

  lemma OneMoreIsRun(events: seq<Event>, e: Event, marginSec: nat)
    requires IsRun(NOTHING, events, marginSec) && NeverForgotten(NOTHING, events)
    requires Possible(After(NOTHING, events).record, e, marginSec) && !ForgetsAt(After(NOTHING, events).record, e)
    ensures IsRun(NOTHING, events + [e], marginSec) && NeverForgotten(NOTHING, events + [e])
  {
    var all := events + [e];
    assert all[..|events|] == events;
    forall i | 0 <= i < |all|
      ensures Possible(After(NOTHING, all[..i]).record, all[i], marginSec) && !ForgetsAt(After(NOTHING, all[..i]).record, all[i])
    {
      if i < |events| {
        assert all[..i] == events[..i] && all[i] == events[i];
      }
    }
  }

  lemma OneMoreInTurn(events: seq<Event>, e: Event)
    requires InTurn(events) && IsBy(events, SecondOf(e))
    ensures InTurn(events + [e]) && IsBy(events + [e], SecondOf(e))
  {
  }

  lemma OneMoreHappens(events: seq<Event>, e: Event, marginSec: nat, given: set<int>)
    requires IsHistory(events, marginSec, given) && IsBy(events, SecondOf(e)) && (e.Checked? ==> e.deadline in given)
    requires Possible(After(NOTHING, events).record, e, marginSec) && !ForgetsAt(After(NOTHING, events).record, e)
    ensures IsHistory(events + [e], marginSec, given) && IsBy(events + [e], SecondOf(e))
    ensures After(NOTHING, events + [e]) == Step(After(NOTHING, events), e)
  {
    OneMoreIsRun(events, e, marginSec);
    OneMoreInTurn(events, e);
    AfterOneMore(NOTHING, events, e);
  }

  function ForWantOfGas(nowSec: int): Send { Send(nowSec, Expected(true, None, None, None), None, Unknown, NoGas) }

  /** A run whose result cannot be sent for want of gas. */
  function Unpaid(start: int, deadline: int): Event {
    Checked(deadline, start * 1000, start * 1000, Go(Produced("", ForWantOfGas(start))))
  }

  function NoResult(start: int, deadline: int): Event { Checked(deadline, start * 1000, start * 1000, Go(ModelFailed)) }

  /** The task listed, at this time. */
  function Listed(nowSec: int): Event { Read(Board(true, true, nowSec), false) }

  lemma UnpaidStep(s: System, start: int, deadline: int, marginSec: nat)
    requires IsFree(s.record, start * 1000) && deadline - start >= marginSec && start < deadline
    ensures Possible(s.record, Unpaid(start, deadline), marginSec)
    ensures Step(s, Unpaid(start, deadline)).record == s.record.(unsent := Some(Unsent("", deadline, 1, None)))
    ensures Step(s, Unpaid(start, deadline)).tally.runs == s.tally.runs + 1
    ensures Step(s, Unpaid(start, deadline)).tally.produced == s.tally.produced + 1
  {
    assert start * 1000 / 1000 == start;
  }

  lemma ListedStep(s: System, nowSec: int)
    requires s.record.unsent.Some? && s.record.unsent.value.deadline == nowSec && s.record.absent == 0
    ensures Step(s, Listed(nowSec)).record == s.record.(unsent := None)
    ensures Step(s, Listed(nowSec)).tally.runs == s.tally.runs && Step(s, Listed(nowSec)).tally.produced == s.tally.produced
  {
  }

  /** A result made by `start`, and let go at its deadline. */
  lemma MadeAndLetGo(events: seq<Event>, marginSec: nat, given: set<int>, start: int, deadline: int) returns (all: seq<Event>)
    requires IsHistory(events, marginSec, given) && IsBy(events, start) && deadline in given
    requires IsFree(After(NOTHING, events).record, start * 1000) && After(NOTHING, events).record.absent == 0
    requires deadline - start >= marginSec && start < deadline
    ensures IsHistory(all, marginSec, given) && IsBy(all, deadline)
    ensures After(NOTHING, all).record == After(NOTHING, events).record
    ensures After(NOTHING, all).tally.runs == After(NOTHING, events).tally.runs + 1
    ensures After(NOTHING, all).tally.produced == After(NOTHING, events).tally.produced + 1
  {
    assert start * 1000 / 1000 == start;
    UnpaidStep(After(NOTHING, events), start, deadline, marginSec);
    OneMoreHappens(events, Unpaid(start, deadline), marginSec, given);
    all := events + [Unpaid(start, deadline)];
    ListedStep(After(NOTHING, all), deadline);
    OneMoreHappens(all, Listed(deadline), marginSec, given);
    all := all + [Listed(deadline)];
  }

  /**
   A result let go at its deadline does not finish its task, so a board that lists the task again
   with a later deadline has it run again: for every n, some run makes n of them, its attempts at 0.
   */
  lemma {:induction false} MovedDeadlinesRunWithoutEnd(marginSec: nat, n: nat) returns (events: seq<Event>, given: set<int>, now: int)
    ensures IsHistory(events, marginSec, given) && IsBy(events, now)
    ensures After(NOTHING, events).record == NOTHING && After(NOTHING, events).tally.runs == n
  {
    if n == 0 {
      events, given, now := [], {}, 0;
    } else {
      events, given, now := MovedDeadlinesRunWithoutEnd(marginSec, n - 1);
      var next := now + marginSec + 1;
      events := MadeAndLetGo(events, marginSec, given + {next}, now, next);
      given, now := given + {next}, next;
    }
  }

  /** With two deadlines the margin apart: a failed run, a result let go at the first, and a third run for the second. */
  lemma ThirdRun(given: set<int>, a: int, b: int, marginSec: nat) returns (events: seq<Event>)
    requires a in given && b in given && b >= a + marginSec
    ensures IsHistory(events, marginSec, given)
    ensures After(NOTHING, events).tally.runs == 3 && After(NOTHING, events).tally.produced == 2
  {
    var start := a - marginSec - 901;
    var failed, again := NoResult(start, a), Unpaid(a, b);
    assert start * 1000 / 1000 == start && a * 1000 / 1000 == a;
    OneMoreHappens([], failed, marginSec, given);
    var first := [] + [failed];
    assert IsFree(After(NOTHING, first).record, (start + 900) * 1000);
    events := MadeAndLetGo(first, marginSec, given, start + 900, a);
    OneMoreHappens(events, again, marginSec, given);
    events := events + [again];
  }

  /** The exact condition for two runs, and for one result, until the task is forgotten: deadlines closer than the margin. */
  lemma TwoRunsExactlyWithinTheMargin(given: set<int>, marginSec: nat)
    ensures Within(given, marginSec) <==>
            forall events :: IsHistory(events, marginSec, given) ==> After(NOTHING, events).tally.runs <= 2
    ensures Within(given, marginSec) <==>
            forall events :: IsHistory(events, marginSec, given) ==> After(NOTHING, events).tally.produced <= 1
  {
    if Within(given, marginSec) {
      forall events | IsHistory(events, marginSec, given)
        ensures After(NOTHING, events).tally.runs <= 2 && After(NOTHING, events).tally.produced <= 1
      {
        TwoRunsWithinTheMargin(NOTHING, events, marginSec, given);
      }
    } else {
      var a, b :| a in given && b in given && b >= a + marginSec;
      var events := ThirdRun(given, a, b, marginSec);
    }
  }
}
