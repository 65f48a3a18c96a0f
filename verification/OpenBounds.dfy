/**
 What an open task costs this agent over whole runs, however the board, the server, the escrow, the
 model and the network answer. A run is a list of what happened to the task, pass after pass.
 */
module OpenBounds {
  import opened Wrappers
  import opened EscrowTx
  import opened OpenRecord

  datatype Event =
    | Read(board: Board, logsCleared: bool)
    | Resent(send: Send)
    | Skipped(nowSec: int)
    | Checked(deadline: int, nowMs: int, endMs: int, check: Check)

  /**
   Model runs, results made, results let go at their deadline; and of the last result: its evidence
   hash, how often it was sent, and the transactions that may have reached the network and that no
   lookup has since found failed or unknown.
   */
  datatype Tally = Tally(runs: nat, produced: nat, dropped: nat, evidence: string, sends: nat, outstanding: set<string>)

  datatype System = System(record: Record, tally: Tally)

  /** What the pass does in this state: an unsent result is sent, and only a free task, with time left, is checked. */
  predicate Possible(r: Record, e: Event, marginSec: nat) {
    match e
    case Read(_, _) => true
    case Resent(_) => r.unsent.Some?
    case Skipped(_) => true
    case Checked(deadline, nowMs, _, _) => IsFree(r, nowMs) && deadline - nowMs / 1000 >= marginSec
  }

  function StepRecord(r: Record, e: Event): Record {
    match e
    case Read(board, logsCleared) => Prune(r, board, logsCleared)
    case Resent(send) => if r.unsent.None? then r else SendResult(r.(unsent := None), r.unsent.value, send)
    case Skipped(_) => r.(logged := true)
    case Checked(deadline, _, endMs, check) => CheckTask(r, deadline, endMs, check)
  }

  /** The result a check makes, when it makes one. */
  function Made(e: Event): Option<Unsent> {
    if e.Checked? && e.check.Go? && e.check.run.Produced? then Some(Unsent(e.check.run.evidence, e.deadline, 0, None)) else None
  }

  /** The transactions that may still land, once this result's was looked up and then perhaps signed again. */
  function MayLand(out: set<string>, u: Unsent, s: Send): set<string> {
    var looked := LookedUp(out, u, s);
    if Signs(u, s) && s.answer.sending.Broke? then looked + {s.answer.sending.hash.value} else looked
  }

  function LookedUp(out: set<string>, u: Unsent, s: Send): set<string> {
    if s.nowSec < u.deadline && u.txHash.Some? && !HoldsBack(s.lookup) then out - {u.txHash.value} else out
  }

  function StepTally(r: Record, t: Tally, e: Event): Tally {
    match e
    case Read(board, _) => if Expires(r, board.nowSec) then t.(dropped := t.dropped + 1) else t
    case Resent(send) =>
      if r.unsent.None? then t else t.(sends := t.sends + 1, outstanding := MayLand(t.outstanding, r.unsent.value, send))
    case Skipped(_) => t
    case Checked(_, _, _, check) =>
      if !check.Go? then t
      else if Made(e).None? then t.(runs := t.runs + 1)
      else Tally(t.runs + 1, t.produced + 1, t.dropped, Made(e).value.evidence, 1, MayLand({}, Made(e).value, check.run.send))
  }

  function Step(s: System, e: Event): System { System(StepRecord(s.record, e), StepTally(s.record, s.tally, e)) }

  /** A record as a process starts with it, or as forgetting the task left it: an unsent result is kept. */
  predicate Fresh(r: Record) {
    r == NOTHING.(unsent := r.unsent) && (r.unsent.Some? ==> r.unsent.value.tries < MAX_UNSENT_TRIES)
  }

  function Sent(r: Record): set<string> {
    if r.unsent.Some? && r.unsent.value.txHash.Some? then {r.unsent.value.txHash.value} else {}
  }

  /** What is known when a history begins: an unsent result counts the sends it had. */
  function Begin(start: Record): System {
    var u := start.unsent;
    System(start, Tally(0, 0, 0, if u.Some? then u.value.evidence else "", if u.Some? then u.value.tries else 0, Sent(start)))
  }

  function After(start: Record, events: seq<Event>): System {
    if events == [] then Begin(start) else Step(After(start, events[..|events| - 1]), events[|events| - 1])
  }

  /** All that happened to a task from some moment on. */
  ghost predicate IsRun(start: Record, events: seq<Event>, marginSec: nat) {
    Fresh(start) && forall i :: 0 <= i < |events| ==> Possible(After(start, events[..i]).record, events[i], marginSec)
  }

  /** No board read forgot it. */
  ghost predicate NeverForgotten(start: Record, events: seq<Event>) {
    forall i :: 0 <= i < |events| ==> !ForgetsAt(After(start, events[..i]).record, events[i])
  }

  predicate ForgetsAt(r: Record, e: Event) { e.Read? && Forgets(r, e.board) }

  lemma PrefixIsRun(start: Record, events: seq<Event>, marginSec: nat, n: nat)
    requires IsRun(start, events, marginSec) && n <= |events|
    ensures IsRun(start, events[..n], marginSec) && (NeverForgotten(start, events) ==> NeverForgotten(start, events[..n]))
  {
    assert forall i :: 0 <= i < n ==> events[..n][..i] == events[..i] && events[..n][i] == events[i];
  }

  lemma AfterOneMore(start: Record, events: seq<Event>, e: Event)
    ensures After(start, events + [e]) == Step(After(start, events), e)
  {
    assert (events + [e])[..|events|] == events;
  }

  // ---- Sends ----------------------------------------------------------------------------------

  predicate Settled(r: Record) { r.done || r.unsent.Some? }

  function One(b: bool): nat { if b then 1 else 0 }

  /** The unsent result is the last one made, and counts its sends. */
  predicate Counted(r: Record, t: Tally) {
    && !(r.done && r.unsent.Some?)
    && t.sends <= MAX_UNSENT_TRIES
    && (r.unsent.Some? ==> r.unsent.value.tries == t.sends < MAX_UNSENT_TRIES && r.unsent.value.evidence == t.evidence)
  }

  /** A sent result ends the task, or stays unsent, one try later. */
  lemma SendingSettles(r: Record, u: Unsent, s: Send)
    requires !r.done && r.unsent.None? && u.tries < MAX_UNSENT_TRIES
    ensures var after := SendResult(r, u, s);
            && after.attempts == r.attempts && Settled(after) && !(after.done && after.unsent.Some?)
            && (after.unsent.Some? ==>
                  var kept := after.unsent.value;
                  kept.tries == u.tries + 1 < MAX_UNSENT_TRIES && kept.evidence == u.evidence && kept.deadline == u.deadline)
  {
  }

  /** A board read lets a result go exactly when its deadline has passed, and forgetting a task keeps its result. */
  lemma PruningIsApart(r: Record, b: Board, logsCleared: bool)
    ensures var after := Prune(r, b, logsCleared);
            && after.unsent == (if r.unsent.Some? && b.nowSec >= r.unsent.value.deadline then None else r.unsent)
            && (!Forgets(r, b) ==> after.done == r.done && after.attempts == r.attempts && after.retryAt == r.retryAt)
            && (Forgets(r, b) ==> after == NOTHING.(unsent := after.unsent))
  {
  }

  lemma StepStaysCounted(s: System, e: Event, marginSec: nat)
    requires Counted(s.record, s.tally) && Possible(s.record, e, marginSec)
    ensures Counted(Step(s, e).record, Step(s, e).tally)
  {
    var r := s.record;
    match e
    case Read(board, logsCleared) => PruningIsApart(r, board, logsCleared);
    case Resent(send) => SendingSettles(r.(unsent := None), r.unsent.value, send);
    case Skipped(_) =>
    case Checked(_, _, _, check) =>
      if Made(e).Some? {
        SendingSettles(r, Made(e).value, check.run.send);
      }
  }

  lemma {:induction false} RunStaysCounted(start: Record, events: seq<Event>, marginSec: nat)
    requires IsRun(start, events, marginSec)
    ensures Counted(After(start, events).record, After(start, events).tally)
  {
    if events == [] {
    } else {
      var last := |events| - 1;
      PrefixIsRun(start, events, marginSec, last);
      RunStaysCounted(start, events[..last], marginSec);
      StepStaysCounted(After(start, events[..last]), events[last], marginSec);
    }
  }

  /** In every run, forgotten tasks included: a result is sent at most 12 times, and no done task holds one. */
  lemma SendsAreBounded(start: Record, events: seq<Event>, marginSec: nat)
    requires IsRun(start, events, marginSec)
    ensures After(start, events).tally.sends <= 12
    ensures !(After(start, events).record.done && After(start, events).record.unsent.Some?)
  {
    RunStaysCounted(start, events, marginSec);
  }

  // ---- Runs until the task is forgotten -------------------------------------------------------

  /** Every run was paid for by an attempt, by a result let go, or left a result or an end behind. */
  predicate Paid(r: Record, t: Tally) {
    && (r.attempts >= MAX_OPEN_ATTEMPTS ==> r.done)
    && t.runs <= r.attempts + t.dropped + One(Settled(r))
    && t.runs <= MAX_OPEN_ATTEMPTS + t.dropped
    && t.produced <= t.dropped + One(Settled(r))
  }

  lemma StepStaysPaid(s: System, e: Event, marginSec: nat)
    requires Counted(s.record, s.tally) && Paid(s.record, s.tally) && Possible(s.record, e, marginSec) && !ForgetsAt(s.record, e)
    ensures Paid(Step(s, e).record, Step(s, e).tally)
  {
    var r := s.record;
    match e
    case Read(board, logsCleared) => PruningIsApart(r, board, logsCleared);
    case Resent(send) => SendingSettles(r.(unsent := None), r.unsent.value, send);
    case Skipped(_) =>
    case Checked(_, _, _, check) =>
      if Made(e).Some? {
        SendingSettles(r, Made(e).value, check.run.send);
      }
  }

  lemma {:induction false} RunStaysPaid(start: Record, events: seq<Event>, marginSec: nat)
    requires IsRun(start, events, marginSec) && NeverForgotten(start, events)
    ensures Paid(After(start, events).record, After(start, events).tally)
  {
    if events == [] {
    } else {
      var last := |events| - 1;
      PrefixIsRun(start, events, marginSec, last);
      RunStaysPaid(start, events[..last], marginSec);
      RunStaysCounted(start, events[..last], marginSec);
      StepStaysPaid(After(start, events[..last]), events[last], marginSec);
    }
  }

  /**
   From any fresh start until it is forgotten, a task gets at most 2 model runs and makes one result,
   and for each result let go at its deadline one more of each.
   */
  lemma OpenRunsAreBounded(start: Record, events: seq<Event>, marginSec: nat)
    requires IsRun(start, events, marginSec) && NeverForgotten(start, events)
    ensures After(start, events).tally.runs <= 2 + After(start, events).tally.dropped
    ensures After(start, events).tally.produced <= 1 + After(start, events).tally.dropped
  {
    RunStaysPaid(start, events, marginSec);
  }

  /** Forgetting a task in a run leaves a fresh start. */
  lemma ForgettingStartsAfresh(start: Record, events: seq<Event>, marginSec: nat, e: Event)
    requires IsRun(start, events, marginSec) && ForgetsAt(After(start, events).record, e)
    ensures Fresh(StepRecord(After(start, events).record, e))
  {
    RunStaysCounted(start, events, marginSec);
    PruningIsApart(After(start, events).record, e.board, e.logsCleared);
  }

  // ---- Deadlines ------------------------------------------------------------------------------

  function SecondOf(e: Event): int {
    match e
    case Read(board, _) => board.nowSec
    case Resent(send) => send.nowSec
    case Skipped(nowSec) => nowSec
    case Checked(_, nowMs, _, _) => nowMs / 1000
  }

  /** The clock does not run backwards. */
  predicate InTurn(events: seq<Event>) { forall i, j :: 0 <= i < j < |events| ==> SecondOf(events[i]) <= SecondOf(events[j]) }

  /** The board gives the task these deadlines, and no other. */
  predicate DeadlinesIn(start: Record, events: seq<Event>, given: set<int>) {
    && (start.unsent.Some? ==> start.unsent.value.deadline in given)
    && forall i :: 0 <= i < |events| && events[i].Checked? ==> events[i].deadline in given
  }

  /** Any two of them are closer than the time a run is given. */
  predicate Within(given: set<int>, marginSec: nat) { forall a, b :: a in given && b in given ==> b < a + marginSec }

  /** Once a result was let go, a deadline has passed, and no run is left to make; `held` results were held at the start. */
  ghost predicate Timed(s: System, given: set<int>, nowSec: int, held: nat) {
    var over := s.tally.dropped > 0;
    && (s.record.unsent.Some? ==> s.record.unsent.value.deadline in given)
    && (over ==> s.record.unsent.None? && s.tally.dropped == 1 && exists a :: a in given && nowSec >= a)
    && s.tally.runs <= s.record.attempts + One(Settled(s.record) || over)
    && s.tally.produced + held <= One(Settled(s.record) || over)
    && s.tally.runs <= MAX_OPEN_ATTEMPTS
  }

  /** Once a deadline has passed, no other leaves the time for a run. */
  lemma TooLate(given: set<int>, marginSec: nat, deadline: int, before: int, nowSec: int)
    ensures Within(given, marginSec) && deadline in given && before <= nowSec && (exists a :: a in given && before >= a) ==>
              deadline - nowSec < marginSec
  {
    if Within(given, marginSec) && exists a :: a in given && before >= a {
      var a :| a in given && before >= a;
      assert deadline in given ==> deadline < a + marginSec;
    }
  }

  lemma StepStaysTimed(s: System, e: Event, marginSec: nat, given: set<int>, before: int, held: nat)
    requires Within(given, marginSec) && Counted(s.record, s.tally) && Paid(s.record, s.tally)
    requires Possible(s.record, e, marginSec) && !ForgetsAt(s.record, e)
    requires Timed(s, given, before, held) && before <= SecondOf(e) && (e.Checked? ==> e.deadline in given)
    ensures Timed(Step(s, e), given, SecondOf(e), held)
  {
    var r := s.record;
    match e
    case Read(board, logsCleared) => PruningIsApart(r, board, logsCleared);
    case Resent(send) => SendingSettles(r.(unsent := None), r.unsent.value, send);
    case Skipped(_) =>
    case Checked(deadline, nowMs, _, check) =>
      TooLate(given, marginSec, deadline, before, nowMs / 1000);
      if Made(e).Some? {
        SendingSettles(r, Made(e).value, check.run.send);
      }
  }

  lemma {:induction false} RunStaysTimed(start: Record, events: seq<Event>, marginSec: nat, given: set<int>)
    requires IsRun(start, events, marginSec) && NeverForgotten(start, events) && events != []
    requires Within(given, marginSec) && InTurn(events) && DeadlinesIn(start, events, given)
    ensures Timed(After(start, events), given, SecondOf(events[|events| - 1]), One(start.unsent.Some?))
  {
    var last := |events| - 1;
    var front := events[..last];
    PrefixIsRun(start, events, marginSec, last);
    RunStaysCounted(start, front, marginSec);
    RunStaysPaid(start, front, marginSec);
    if front == [] {
      StepStaysTimed(Begin(start), events[0], marginSec, given, SecondOf(events[0]), One(start.unsent.Some?));
    } else {
      RunStaysTimed(start, front, marginSec, given);
      assert front[last - 1] == events[last - 1];
      StepStaysTimed(After(start, front), events[last], marginSec, given, SecondOf(front[last - 1]), One(start.unsent.Some?));
    }
  }

  /** While all deadlines given are that close, a task gets at most 2 model runs and has at most one result, held at first or made. */
  lemma TwoRunsWithinTheMargin(start: Record, events: seq<Event>, marginSec: nat, given: set<int>)
    requires IsRun(start, events, marginSec) && NeverForgotten(start, events)
    requires Within(given, marginSec) && InTurn(events) && DeadlinesIn(start, events, given)
    ensures After(start, events).tally.runs <= 2 && After(start, events).tally.dropped <= 1
    ensures After(start, events).tally.produced + One(start.unsent.Some?) <= 1
  {
    if events == [] {
    } else {
      RunStaysTimed(start, events, marginSec, given);
    }
  }

  // ---- No second transaction while one may land -----------------------------------------------

  /** Every transaction of the unsent result that may still land is the one remembered with it. */
  predicate Remembered(r: Record, out: set<string>) { r.unsent.Some? ==> out <= Sent(r) }

  lemma SendingRemembers(r: Record, u: Unsent, out: set<string>, s: Send)
    requires r.unsent.None? && out <= if u.txHash.Some? then {u.txHash.value} else {}
    ensures Remembered(SendResult(r, u, s), MayLand(out, u, s))
    ensures Signs(u, s) ==> LookedUp(out, u, s) == {}
  {
  }

  lemma StepRemembers(s: System, e: Event, marginSec: nat)
    requires Remembered(s.record, s.tally.outstanding) && Possible(s.record, e, marginSec)
    ensures Remembered(Step(s, e).record, Step(s, e).tally.outstanding)
  {
    var r := s.record;
    match e
    case Read(board, logsCleared) => PruningIsApart(r, board, logsCleared);
    case Resent(send) => SendingRemembers(r.(unsent := None), r.unsent.value, s.tally.outstanding, send);
    case Skipped(_) =>
    case Checked(_, _, _, check) =>
      if Made(e).Some? {
        SendingRemembers(r, Made(e).value, {}, check.run.send);
      }
  }

  lemma {:induction false} RunRemembers(start: Record, events: seq<Event>, marginSec: nat)
    requires IsRun(start, events, marginSec)
    ensures Remembered(After(start, events).record, After(start, events).tally.outstanding)
  {
    if events == [] {
    } else {
      var last := |events| - 1;
      PrefixIsRun(start, events, marginSec, last);
      RunRemembers(start, events[..last], marginSec);
      StepRemembers(After(start, events[..last]), events[last], marginSec);
    }
  }

  /**
   In every run, forgotten tasks included: whenever an unsent result is signed for again, every
   submitOpen signed for it before has since been looked up and found failed or unknown, and what is
   signed commits that same result.
   */
  lemma NothingSignedWhileOneMayLand(start: Record, events: seq<Event>, marginSec: nat, send: Send)
    requires IsRun(start, events, marginSec) && After(start, events).record.unsent.Some?
    requires Signs(After(start, events).record.unsent.value, send)
    ensures var s := After(start, events);
            && LookedUp(s.tally.outstanding, s.record.unsent.value, send) == {}
            && send.onChainTaskId.Some? && send.answer.tx.Some? && send.answer.tx.value.call.Some?
            && IsCall(send.answer.tx.value.call.value, Call("submitOpen", send.onChainTaskId.value, [s.tally.evidence]))
  {
    var s := After(start, events);
    RunRemembers(start, events, marginSec);
    RunStaysCounted(start, events, marginSec);
    SendingRemembers(s.record.(unsent := None), s.record.unsent.value, s.tally.outstanding, send);
  }
}
