/**
 Whole runs of judging with everything a judgement is told: what judging a task comes to is computed
 from the list, the escrow, storage and the model, with what the record knows, and never supposed.
 */
module JudgeRuns {
  import opened Wrappers
  import opened EscrowTx
  import opened JudgeRecord
  import opened JudgeHistory
  import opened JudgeBounds
  import JudgeTask
  import OpenJudge
  import Ranking
  import Tournament

  /**
   How judging goes in one pass: it stops before the list is read, or goes by what it is told. `briefRead`
   is asked once there is something to judge; `card` is the hash of the scorecard, `answer` the server's to the pick.
   */
  datatype Judging =
    | NoGasForIt
    | CrashedBefore(final: bool)
    | EmptyTask
    | ListUnread
    | OnWorld(world: JudgeTask.World, briefRead: bool, card: string, answer: SelectAnswer)

  /** What it comes to, for a task with this record. */
  function AnswerTo(r: Record, j: Judging): JudgeAnswer {
    if j.OnWorld? then AnswerOf(VerdictFor(r, j.world), j.briefRead, j.card, j.answer) else AnswerEarly(j)
  }

  /** What judging comes to that stops before the list is read. */
  function AnswerEarly(j: Judging): JudgeAnswer
    requires !j.OnWorld?
  {
    match j
    case NoGasForIt => CannotPay
    case CrashedBefore(final) => Crashed(final)
    case EmptyTask => NobodySubmitted
    case ListUnread => ListUnusable
  }

  /** The verdict, knowing what the record knows. */
  function VerdictFor(r: Record, w: JudgeTask.World): JudgeTask.Verdict {
    JudgeTask.VerdictOf(w, r.excluded, GiveUpOn(r.waits), r.yielded)
  }

  function AnswerOf(v: JudgeTask.Verdict, briefRead: bool, card: string, answer: SelectAnswer): JudgeAnswer {
    match v
    case ListUnusable => ListUnusable
    case WaitsOnStorage(roots) => StorageFailed(roots)
    case NothingReadable(storageUnreadable) => NothingReadable(storageUnreadable)
    case Yielded => if briefRead then RankYielded else BriefUnread
    case RankingFailed => if briefRead then RankFailed else BriefUnread
    case Nobody => if briefRead then NobodyAcceptable else BriefUnread
    case Winner(c) => if briefRead then Winner(c.submitter, card, answer) else BriefUnread
  }

  /** What judging comes to, from what it is told: a winner exactly when the ranking has one and the brief was read, and so on. */
  lemma ComesToExactly(r: Record, j: Judging)
    ensures var a := AnswerTo(r, j);
            && (a.CannotPay? <==> j.NoGasForIt?) && (a.NobodySubmitted? <==> j.EmptyTask?)
            && (forall final :: a == Crashed(final) <==> j == CrashedBefore(final))
            && (!j.OnWorld? ==> (a.ListUnusable? <==> j.ListUnread?))
    ensures j.OnWorld? ==>
              var a, v := AnswerTo(r, j), VerdictFor(r, j.world);
              && (a.ListUnusable? <==> v.ListUnusable?)
              && (a.StorageFailed? <==> v.WaitsOnStorage?) && (a.StorageFailed? ==> a.failedRoots == v.failedRoots)
              && (a.NothingReadable? <==> v.NothingReadable?) && (a.NothingReadable? ==> a.storageUnreadable == v.storageUnreadable)
              && (a.BriefUnread? <==> !j.briefRead && (v.Winner? || v.Nobody? || v.RankingFailed? || v.Yielded?))
              && (a.Winner? <==> j.briefRead && v.Winner?)
              && (a.Winner? ==> a.winner == v.c.submitter && a.card == j.card && a.answer == j.answer)
              && (a.NobodyAcceptable? <==> j.briefRead && v.Nobody?)
              && (a.RankFailed? <==> j.briefRead && v.RankingFailed?) && (a.RankYielded? <==> j.briefRead && v.Yielded?)
  {
  }

  /** The model's answers went through the check, and the escrow holds no other stored results. */
  ghost predicate IsFair(j: Judging, stored: set<string>) {
    j.OnWorld? ==> Tournament.Checked(j.world.rank) && OpenJudge.StoredRoots(j.world.source.escrow) <= stored
  }

  /** Whenever the task is judged, what judging comes to is what it is told makes of it. */
  ghost predicate IsJudged(start: Record, events: seq<Event>, judgings: seq<Judging>, stored: set<string>) {
    && IsRun(start, events) && |judgings| == |events|
    && forall i :: 0 <= i < |events| ==> IsFair(judgings[i], stored) && IsAnswered(After(start, events[..i]).task.record, events[i], judgings[i])
  }

  predicate IsAnswered(r: Record, e: Event, j: Judging) {
    e.Judges? && Reaches(r, e.busy) ==> e.verdict == AnswerTo(r, j)
  }

  lemma VerdictComesTo(r: Record, v: JudgeTask.Verdict, briefRead: bool, card: string, answer: SelectAnswer, stored: set<string>)
    returns (a: JudgeAnswer)
    requires v.WaitsOnStorage? ==> v.failedRoots != []
    requires v.WaitsOnStorage? ==> forall root :: root in v.failedRoots ==> root !in GiveUpOn(r.waits) && root in stored
    requires v.Yielded? ==> r.yielded < MAX_JUDGE_YIELDS
    ensures a == AnswerOf(v, briefRead, card, answer) && CanComeTo(r, a, stored)
    ensures a.Winner? ==> v.Winner? && v.c.submitter == a.winner
  {
    a := AnswerOf(v, briefRead, card, answer);
  }

  lemma VerdictRespectsTheRecord(r: Record, w: JudgeTask.World, stored: set<string>)
    requires Tournament.Checked(w.rank) && OpenJudge.StoredRoots(w.source.escrow) <= stored
    ensures var v := VerdictFor(r, w);
            && (v.WaitsOnStorage? ==> v.failedRoots != [])
            && (v.WaitsOnStorage? ==> forall root :: root in v.failedRoots ==> root !in GiveUpOn(r.waits) && root in stored)
            && (v.Yielded? ==> r.yielded < MAX_JUDGE_YIELDS)
            && (v.Winner? ==> Ranking.LowerCase(v.c.submitter) !in r.excluded)
  {
    JudgeTask.VerdictsRespectWhatIsKnown(w, r.excluded, GiveUpOn(r.waits), r.yielded);
  }

  lemma AnswerRespectsTheRecord(r: Record, j: Judging, stored: set<string>) returns (a: JudgeAnswer)
    requires IsFair(j, stored)
    ensures a == AnswerTo(r, j) && CanComeTo(r, a, stored)
    ensures a.Winner? ==> Ranking.LowerCase(a.winner) !in r.excluded
  {
    if j.OnWorld? {
      VerdictRespectsTheRecord(r, j.world, stored);
      a := VerdictComesTo(r, VerdictFor(r, j.world), j.briefRead, j.card, j.answer, stored);
    } else {
      a := AnswerTo(r, j);
    }
  }

  /** What judging comes to is possible, and a winner is none that was refused. */
  lemma AnswersRespectTheRecord(r: Record, e: Event, j: Judging, stored: set<string>)
    requires IsFair(j, stored) && IsAnswered(r, e, j)
    ensures Fits(r, e, stored)
    ensures PickedIn(r, e).Some? ==> Ranking.LowerCase(PickedIn(r, e).value) !in r.excluded
  {
    var a := AnswerRespectsTheRecord(r, j, stored);
  }

  lemma JudgedRunsFit(start: Record, events: seq<Event>, judgings: seq<Judging>, stored: set<string>)
    requires IsJudged(start, events, judgings, stored)
    ensures AllFit(start, events, stored)
  {
    forall i | 0 <= i < |events|
      ensures Fits(After(start, events[..i]).task.record, events[i], stored)
    {
      AnswersRespectTheRecord(After(start, events[..i]).task.record, events[i], judgings[i], stored);
    }
  }

  /** The budgets, of judging with everything it is told. */
  lemma JudgedRunsAreBounded(start: Record, events: seq<Event>, judgings: seq<Judging>, stored: set<string>)
    requires IsJudged(start, events, judgings, stored) && NeverForgotten(events)
    ensures var t := After(start, events).tally;
            && t.completed <= 3 + t.lost && t.starts <= 12 + 4 * t.lost
            && (t.waits > 0 ==> t.waits <= 5 + |stored|)
  {
    JudgedRunsFit(start, events, judgings, stored);
    JudgingIsBounded(start, events, stored);
  }

  // ---- Refused winners ------------------------------------------------------------------------

  predicate RefusesWinner(pick: Pick, lookup: Lookup, a: SelectAnswer) {
    !HasLanded(pick, lookup) && !IsHeldBack(pick, lookup) && a.Refused? && a.code in WINNER_REFUSALS
  }

  /** The winner the server refused in this event. */
  function RefusedIn(t: Task, e: Event): Option<string> {
    match e
    case Sends(now, _, lookup, a) =>
      var held := t.turn.held;
      if held.Some? && RefusesWinner(HeldPick(held.value, now), lookup, a) then Some(held.value.winner) else None
    case Judges(now, _, busy, a) =>
      if Reaches(t.record, busy) && a.Winner? && RefusesWinner(NewPick(a, now), Unknown, a.answer) then Some(a.winner) else None
    case _ => None
  }

  /** The winner picked in this event. */
  function PickedIn(r: Record, e: Event): Option<string> {
    if e.Judges? && Reaches(r, e.busy) && e.verdict.Winner? then Some(e.verdict.winner) else None
  }

  lemma StepKeepsExcluded(t: Task, e: Event)
    ensures !(e.Leaves? && e.complete) ==> t.record.excluded <= Next(t, e).record.excluded
    ensures RefusedIn(t, e).Some? ==> Ranking.LowerCase(RefusedIn(t, e).value) in Next(t, e).record.excluded
  {
    match e
    case Begins(_) =>
    case Looks(now, seen) => LookingIsFree(t.record, now, seen);
    case Leaves(_) => LeavingInPart(t.record);
    case Sends(now, io, lookup, a) =>
      if t.turn.held.Some? {
        var pick := HeldPick(t.turn.held.value, now);
        SendingSettlesOrSpends(t.record.(picked := Some(pick)), pick, io, lookup, a);
      }
    case Judges(now, io, busy, a) =>
      if a.Winner? {
        var pick := NewPick(a, now);
        SendingSettlesOrSpends(t.record.(yielded := 0, picked := Some(pick)), pick, io, Unknown, a.answer);
      }
  }

  /** From the i-th event to before the j-th, no list read whole was without the task. */
  predicate NotForgottenIn(events: seq<Event>, i: nat, j: nat)
    requires j <= |events|
  {
    forall k :: i <= k < j ==> !(events[k].Leaves? && events[k].complete)
  }

  lemma {:induction false} ExcludedGrow(start: Record, events: seq<Event>, i: nat, j: nat)
    requires i <= j <= |events| && NotForgottenIn(events, i, j)
    ensures After(start, events[..i]).task.record.excluded <= After(start, events[..j]).task.record.excluded
    decreases j - i
  {
    if i == j {
    } else {
      assert events[..i + 1][..i] == events[..i];
      StepKeepsExcluded(After(start, events[..i]).task, events[i]);
      ExcludedGrow(start, events, i + 1, j);
    }
  }

  lemma RefusedIsExcluded(start: Record, events: seq<Event>, i: nat, j: nat)
    requires i < j <= |events| && RefusedIn(After(start, events[..i]).task, events[i]).Some?
    requires NotForgottenIn(events, i + 1, j)
    ensures Ranking.LowerCase(RefusedIn(After(start, events[..i]).task, events[i]).value) in After(start, events[..j]).task.record.excluded
  {
    assert events[..i + 1][..i] == events[..i];
    StepKeepsExcluded(After(start, events[..i]).task, events[i]);
    ExcludedGrow(start, events, i + 1, j);
  }

  /** A winner the server refused is never judged the winner again, until a list read whole without the task forgets it. */
  lemma RefusedWinnerIsNotPickedAgain(start: Record, events: seq<Event>, judgings: seq<Judging>, stored: set<string>, i: nat, j: nat)
    requires IsJudged(start, events, judgings, stored) && i < j < |events| && NotForgottenIn(events, i + 1, j)
    requires RefusedIn(After(start, events[..i]).task, events[i]).Some?
    requires PickedIn(After(start, events[..j]).task.record, events[j]).Some?
    ensures Ranking.LowerCase(RefusedIn(After(start, events[..i]).task, events[i]).value) !=
            Ranking.LowerCase(PickedIn(After(start, events[..j]).task.record, events[j]).value)
  {
    RefusedIsExcluded(start, events, i, j);
    AnswersRespectTheRecord(After(start, events[..j]).task.record, events[j], judgings[j], stored);
  }
}
