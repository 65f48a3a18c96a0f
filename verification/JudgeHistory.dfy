/**
 What the judge's passes do with one task, event by event: each pass takes the task's pick as it finds
 it while looking, once for each time the list names the task, and sends and judges only afterwards.
 */
module JudgeHistory {
  import opened Wrappers
  import opened EscrowTx
  import opened JudgeRecord

  /**
   A pass begins, asking whether the task's scorecard is kept; the list names the task and the escrow is
   looked at; or the list is without it. Then its pick is sent as it was found, or the task is judged.
   */
  datatype Event =
    | Begins(kept: bool)
    | Looks(now: int, seen: LookAnswer)
    | Leaves(complete: bool)
    | Sends(now: int, io: Io, lookup: Lookup, answer: SelectAnswer)
    | Judges(now: int, io: Io, busy: bool, verdict: JudgeAnswer)

  datatype Stage = Begun | OnList | OffList | Sending | Judging

  /** In this pass: the pick as found, how often the list named the task with it ready, and what is yet to send and judge. */
  datatype Turn = Turn(stage: Stage, held: Option<Pick>, found: nat, ready: nat, toJudge: nat)

  datatype Task = Task(record: Record, turn: Turn)

  /** The task's pick window is open. */
  const OPEN := InPhase(PHASE_VERIFIER_PICK)

  const BEGUN := Turn(Begun, None, 0, 0, 0)
  const IDLE := Turn(Judging, None, 0, 0, 0)

  predicate Completes(a: JudgeAnswer) { a.RankFailed? || a.NobodyAcceptable? || a.Winner? }
  predicate StartsRanking(a: JudgeAnswer) { a.RankYielded? || Completes(a) }

  /** The task's judging gets past the check for waiting paid work. */
  predicate Reaches(r: Record, busy: bool) { r.attempts < MAX_JUDGE_ATTEMPTS && !Yields(r, busy) }

  /** Judging the task ends the pass. */
  predicate EndsPass(r: Record, busy: bool, a: JudgeAnswer) {
    r.attempts < MAX_JUDGE_ATTEMPTS && (Yields(r, busy) || StartsRanking(a))
  }

  predicate Possible(t: Task, e: Event) {
    match e
    case Begins(_) => true
    case Looks(_, _) => t.turn.stage in {Begun, OnList}
    case Leaves(_) => t.turn.stage == Begun
    case Sends(_, _, _, _) => t.turn.held.Some? && t.turn.ready > 0 && t.turn.stage != Judging
    case Judges(_, _, _, _) => t.turn.toJudge > 0
  }

  function HeldPick(pick: Pick, now: int): Pick { pick.(lastTriedAt := now) }

  function NewPick(a: JudgeAnswer, now: int): Pick
    requires a.Winner?
  {
    Pick(a.winner, a.card, None, 0, now)
  }

  /** A pick sent as it was found, whatever became of it since. */
  function SendFound(r: Record, found: Pick, now: int, io: Io, lookup: Lookup, a: SelectAnswer): Record {
    var pick := HeldPick(found, now);
    SendPick(r.(picked := Some(pick)), pick, io, lookup, a)
  }

  /** What a list without the task leaves of its record, and whether its pick may be sent. */
  function Unlist(r: Record, complete: bool): (Record, bool) {
    var (released, ready) := Unlisted(r);
    (if complete then Forget(released) else released, ready)
  }

  function StepRecord(t: Task, e: Event): Record {
    var r := t.record;
    match e
    case Begins(kept) => ConfirmScorecard(r, kept)
    case Looks(now, a) => Look(r, now, a).0
    case Leaves(complete) => Unlist(r, complete).0
    case Sends(now, io, lookup, a) => if t.turn.held.Some? then SendFound(r, t.turn.held.value, now, io, lookup, a) else r
    case Judges(now, io, busy, a) => JudgeTask(r, now, io, busy, a)
  }

  function StepTurn(t: Task, e: Event): Turn {
    var r, turn := t.record, t.turn;
    match e
    case Begins(_) => BEGUN
    case Looks(now, a) =>
      var decision := Look(r, now, a).1;
      if decision.Ready? then turn.(stage := OnList, held := r.picked, found := turn.found + 1, ready := turn.ready + 1)
      else if decision.ToJudge? then turn.(stage := OnList, toJudge := turn.toJudge + 1)
      else turn.(stage := OnList)
    case Leaves(complete) =>
      var (left, ready) := Unlist(r, complete);
      if ready then turn.(stage := OffList, held := left.picked, ready := 1) else turn.(stage := OffList)
    case Sends(_, _, _, _) => turn.(stage := Sending, ready := if turn.ready > 0 then turn.ready - 1 else 0)
    case Judges(_, _, busy, a) =>
      turn.(stage := Judging, toJudge := if EndsPass(r, busy, a) || turn.toJudge == 0 then 0 else turn.toJudge - 1)
  }

  function Next(t: Task, e: Event): Task { Task(StepRecord(t, e), StepTurn(t, e)) }

  function Follow(t: Task, events: seq<Event>): Task {
    if events == [] then t else Next(Follow(t, events[..|events| - 1]), events[|events| - 1])
  }

  ghost predicate AllPossible(t: Task, events: seq<Event>) {
    forall i :: 0 <= i < |events| ==> Possible(Follow(t, events[..i]), events[i])
  }

  lemma FollowOneMore(t: Task, events: seq<Event>, e: Event)
    ensures Follow(t, events + [e]) == Next(Follow(t, events), e)
    ensures AllPossible(t, events) && Possible(Follow(t, events), e) ==> AllPossible(t, events + [e])
  {
    var all := events + [e];
    assert all[..|events|] == events;
    assert forall i :: 0 <= i < |events| ==> all[..i] == events[..i] && all[i] == events[i];
  }

  lemma {:induction false} FollowBoth(t: Task, a: seq<Event>, b: seq<Event>)
    ensures Follow(t, a + b) == Follow(Follow(t, a), b)
  {
    if b == [] {
      assert a + b == a;
    } else {
      var last := |b| - 1;
      FollowBoth(t, a, b[..last]);
      assert a + b == (a + b[..last]) + [b[last]];
      FollowOneMore(t, a + b[..last], b[last]);
    }
  }

  lemma PossibleInBoth(t: Task, a: seq<Event>, b: seq<Event>)
    requires AllPossible(t, a) && AllPossible(Follow(t, a), b)
    ensures AllPossible(t, a + b)
  {
    forall i | 0 <= i < |a + b|
      ensures Possible(Follow(t, (a + b)[..i]), (a + b)[i])
    {
      if i < |a| {
        assert (a + b)[..i] == a[..i];
      } else {
        assert (a + b)[..i] == a + b[..i - |a|] && (a + b)[i] == b[i - |a|];
        FollowBoth(t, a, b[..i - |a|]);
      }
    }
  }

  /** A pass starts from the record alone. */
  lemma {:induction false} PassForgetsTheLast(r: Record, turn: Turn, other: Turn, kept: bool, rest: seq<Event>)
    ensures Follow(Task(r, turn), [Begins(kept)] + rest) == Follow(Task(r, other), [Begins(kept)] + rest)
    ensures AllPossible(Task(r, turn), [Begins(kept)] + rest) ==> AllPossible(Task(r, other), [Begins(kept)] + rest)
  {
    var a, b := Task(r, turn), Task(r, other);
    FollowOneMore(a, [], Begins(kept));
    FollowOneMore(b, [], Begins(kept));
    assert [] + [Begins(kept)] == [Begins(kept)];
    assert Follow(a, [Begins(kept)]) == Follow(b, [Begins(kept)]);
    FollowBoth(a, [Begins(kept)], rest);
    FollowBoth(b, [Begins(kept)], rest);
    var all := [Begins(kept)] + rest;
    forall i | 0 < i <= |all|
      ensures Follow(a, all[..i]) == Follow(b, all[..i])
    {
      assert all[..i] == [Begins(kept)] + rest[..i - 1];
      FollowBoth(a, [Begins(kept)], rest[..i - 1]);
      FollowBoth(b, [Begins(kept)], rest[..i - 1]);
    }
  }

  // ---- Whole histories ------------------------------------------------------------------------

  /**
   `completed` judgements and `starts` of a ranking, passes that waited on storage, picks dropped by a
   list without the task; the lists without it that the sent pick has met; and the transactions that
   may have reached the network and that no lookup has since found failed or unknown.
   */
  datatype Tally = Tally(completed: nat, starts: nat, waits: nat, lost: nat, missed: nat, outstanding: set<string>)

  datatype System = System(task: Task, tally: Tally)

  /** The transactions that may still land, once this pick was looked up and then perhaps signed again. */
  function LookedUp(out: set<string>, pick: Pick, lookup: Lookup): set<string> {
    if pick.txHash.Some? && !HoldsBack(lookup) then out - {pick.txHash.value} else out
  }

  function Signed(out: set<string>, pick: Pick, io: Io, lookup: Lookup, a: SelectAnswer): set<string> {
    if Signs(pick, io, lookup, a) && a.sending.Broke? && !FinalRevert(a.sending) then out + {a.sending.hash.value} else out
  }

  predicate IsSentPick(picked: Option<Pick>) { picked.Some? && picked.value.txHash.Some? }

  function StepTally(s: System, e: Event): Tally {
    var r, turn, t := s.task.record, s.task.turn, s.tally;
    match e
    case Begins(_) => t
    case Looks(_, _) => t
    case Leaves(complete) =>
      t.(lost := if r.picked.Some? && Unlist(r, complete).0.picked.None? then t.lost + 1 else t.lost,
         missed := if IsSentPick(r.picked) then t.missed + 1 else t.missed)
    case Sends(now, io, lookup, a) =>
      if turn.held.None? then t
      else
        var pick := HeldPick(turn.held.value, now);
        t.(outstanding := Signed(LookedUp(t.outstanding, pick, lookup), pick, io, lookup, a))
    case Judges(now, io, busy, a) =>
      if !Reaches(r, busy) then t
      else
        t.(completed := t.completed + (if Completes(a) then 1 else 0), starts := t.starts + (if StartsRanking(a) then 1 else 0),
           waits := t.waits + (if a.StorageFailed? then 1 else 0), missed := if a.Winner? then 0 else t.missed,
           outstanding := if a.Winner? then Signed(t.outstanding, NewPick(a, now), io, Unknown, a.answer) else t.outstanding)
  }

  function Step(s: System, e: Event): System { System(Next(s.task, e), StepTally(s, e)) }

  /** A record as a process starts with it, or as forgetting the task left it. */
  predicate Fresh(r: Record) { r == Forget(r) }

  function HashOf(picked: Option<Pick>): set<string> { if IsSentPick(picked) then {picked.value.txHash.value} else {} }

  function Start(r: Record): System {
    System(Task(r, IDLE), Tally(0, 0, 0, 0, if r.picked.Some? then r.picked.value.lookups else 0, HashOf(r.picked)))
  }

  function After(start: Record, events: seq<Event>): System {
    if events == [] then Start(start) else Step(After(start, events[..|events| - 1]), events[|events| - 1])
  }

  /** Passes from some moment on, each looking first, then sending, then judging. */
  ghost predicate IsRun(start: Record, events: seq<Event>) {
    Fresh(start) && forall i :: 0 <= i < |events| ==> Possible(After(start, events[..i]).task, events[i])
  }

  lemma PrefixIsRun(start: Record, events: seq<Event>, n: nat)
    requires IsRun(start, events) && n <= |events|
    ensures IsRun(start, events[..n])
  {
    forall i | 0 <= i < n
      ensures Possible(After(start, events[..n][..i]).task, events[..n][i])
    {
      assert events[..n][..i] == events[..i];
    }
  }

  lemma AfterOneMore(start: Record, events: seq<Event>, e: Event)
    ensures After(start, events + [e]) == Step(After(start, events), e)
  {
    assert (events + [e])[..|events|] == events;
  }

  lemma OneMoreIsRun(start: Record, events: seq<Event>, e: Event)
    requires IsRun(start, events) && Possible(After(start, events).task, e)
    ensures IsRun(start, events + [e])
  {
    var all := events + [e];
    assert all[..|events|] == events;
    forall i | 0 <= i < |all|
      ensures Possible(After(start, all[..i]).task, all[i])
    {
      if i < |events| {
        assert all[..i] == events[..i] && all[i] == events[i];
      }
    }
  }

  /** The task's part of a history goes on by itself. */
  lemma {:induction false} AfterFollows(start: Record, events: seq<Event>, more: seq<Event>)
    ensures After(start, events + more).task == Follow(After(start, events).task, more)
    ensures IsRun(start, events) && AllPossible(After(start, events).task, more) ==> IsRun(start, events + more)
  {
    if more == [] {
      assert events + more == events;
    } else {
      var last := |more| - 1;
      AfterFollows(start, events, more[..last]);
      assert events + more == (events + more[..last]) + [more[last]];
      AfterOneMore(start, events + more[..last], more[last]);
      if IsRun(start, events) && AllPossible(After(start, events).task, more) {
        assert forall i :: 0 <= i < last ==> more[..last][..i] == more[..i] && more[..last][i] == more[i];
        OneMoreIsRun(start, events + more[..last], more[last]);
      }
    }
  }

  // ---- What each event leaves alone -----------------------------------------------------------

  predicate Settled(r: Record) { r.done || r.picked.Some? }

  /** A sent pick ends the task, stays, or costs an attempt. */
  lemma SendingSettlesOrSpends(r: Record, pick: Pick, io: Io, lookup: Lookup, a: SelectAnswer)
    ensures var after := SendPick(r, pick, io, lookup, a);
            && after.waits == r.waits && after.yielded == r.yielded && r.excluded <= after.excluded
            && after.attempts >= r.attempts && (Settled(after) || after.attempts == r.attempts + 1)
  {
  }

  /** A look judges nothing and spends nothing. */
  lemma LookingIsFree(r: Record, now: int, a: LookAnswer)
    ensures var (after, decision) := Look(r, now, a);
            && after.(done := r.done, retryAt := r.retryAt, picked := r.picked) == r
            && (after.picked == r.picked || (after.picked.None? && after.done && !IsSentPick(r.picked)))
            && (Settled(r) ==> Settled(after))
            && (decision.ToJudge? ==> after == r && !Settled(r))
            && (decision.Ready? ==> after == r && !r.done && r.picked.Some?)
  {
  }

  /** A list in part without the task keeps all but its pick, and that too while it is looked up. */
  lemma LeavingInPart(r: Record)
    ensures var (left, ready) := Unlist(r, false);
            && left.(picked := r.picked) == r
            && (ready <==> left.picked.Some?)
            && (r.picked.None? ==> left.picked.None?)
  {
  }
}
