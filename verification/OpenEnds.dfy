/**
 What ends an open task for this process, what keeps its result, and how long it is left alone: over whole
 runs, in terms of what the worker was told and of the failed runs and sends before.
 */
module OpenEnds {
  import opened Wrappers
  import opened EscrowTx
  import opened OpenRecord
  import opened OpenBounds

  // ---- One send -------------------------------------------------------------------------------

  /** The server will say the same on a retry: all but too many requests, not found, a server's error, a paused escrow and a task not indexed. */
  predicate Stands(status: nat, code: string) {
    status != 404 && status != 429 && status < 500 && code != "ESCROW_PAUSED" && code != "NOT_INDEXED"
  }

  /** An earlier submitOpen may still land. */
  predicate MayStillLand(u: Unsent, s: Send) { u.txHash.Some? && s.lookup !in {Mined, Failed, Unknown} }

  /** The escrow will take no submission of this agent's for the task again, or has taken it, or what was built is not signed. */
  predicate Settles(u: Unsent, s: Send) {
    || s.answer.AlreadyOnChain?
    || (s.answer.Refused? && Stands(s.answer.status, s.answer.code))
    || (s.answer.Built? && !IsSignable(u, s))
    || (s.answer.Built? && s.answer.sending.Landed?)
    || (s.answer.Built? && s.answer.sending.Broke? && s.answer.sending.revert.Some?
        && s.answer.sending.revert.value in {"AlreadySubmitted", "DeadlineReached", "NotOpenTask", "InvalidStatus", "SelfAssignment"})
  }

  /** Sending the result ends its task: too late, found mined, settled when asked for anew, or its 12th try. */
  predicate SendEnds(u: Unsent, s: Send) {
    || s.nowSec >= u.deadline
    || (u.txHash.Some? && s.lookup.Mined?)
    || (!MayStillLand(u, s) && Settles(u, s))
    || u.tries >= 11
  }

  /** The transaction remembered: the earlier one while it may land, else the one just signed and not seen to land. */
  predicate Remembers(u: Unsent, s: Send, txHash: Option<string>) {
    && (MayStillLand(u, s) ==> txHash == u.txHash)
    && (!MayStillLand(u, s) ==> txHash == if s.answer.Built? && s.answer.sending.Broke? then s.answer.sending.hash else None)
  }

  /** A send ends the task exactly for one of these reasons, and otherwise keeps the result one try on; nothing else changes. */
  lemma SentExactly(r: Record, u: Unsent, s: Send)
    requires !r.done && r.unsent.None?
    ensures var after := SendResult(r, u, s);
            && (after.done <==> SendEnds(u, s)) && (after.unsent.None? <==> SendEnds(u, s))
            && (after.unsent.Some? ==>
                  && after.unsent.value.evidence == u.evidence && after.unsent.value.deadline == u.deadline
                  && after.unsent.value.tries == u.tries + 1 && Remembers(u, s, after.unsent.value.txHash))
            && after.retryAt == (if SendEnds(u, s) then None else r.retryAt)
            && after.attempts == r.attempts && after.absent == r.absent && after.logged == r.logged
    ensures Signs(u, s) ==> s.nowSec < u.deadline && !MayStillLand(u, s) && !(u.txHash.Some? && s.lookup.Mined?) && IsSignable(u, s)
    ensures !SendEnds(u, s) && !MayStillLand(u, s) ==> (Signs(u, s) <==> SendResult(r, u, s).unsent.value.txHash.Some?)
    ensures SendEnds(u, s) && s.nowSec < u.deadline && s.lookup == Unknown && s.answer.Built? && IsSignable(u, s) && s.answer.sending.Landed? ==>
              Signs(u, s)
  {
  }

  // ---- One check ------------------------------------------------------------------------------

  /** The model run, or its brief, failed. */
  predicate RunFails(e: Event) { e.Checked? && e.check.Go? && !e.check.run.Produced? }

  /** The escrow or the server could not be read, or may let it through later. */
  predicate Defers(e: Event) {
    e.Checked? && (e.check in {EscrowUnread, CheckUnread, EscrowRefuses(false), ServerRefuses(false)})
  }

  /** The event ends the task, which is not done, `failed` being its failed runs so far. */
  predicate Finishes(r: Record, e: Event, failed: nat) {
    match e
    case Read(_, _) => false
    case Resent(send) => r.unsent.Some? && SendEnds(r.unsent.value, send)
    case Skipped(_) => false
    case Checked(deadline, _, _, check) =>
      || check in {CrashedOnIt, EscrowRefuses(true), ServerRefuses(true), Go(BriefFailed(true))}
      || (RunFails(e) && failed >= 1)
      || (Made(e).Some? && SendEnds(Made(e).value, check.run.send))
  }

  /** A free task checked: whether it is done, when it is next free, its failed runs, and that a result is kept. */
  lemma CheckedExactly(r: Record, e: Event)
    requires e.Checked? && IsFree(r, e.nowMs)
    ensures var after := StepRecord(r, e);
            && (after.done <==> Finishes(r, e, r.attempts))
            && (after.unsent.Some? <==> Made(e).Some? && !SendEnds(Made(e).value, e.check.run.send))
            && after.attempts == r.attempts + (if RunFails(e) then 1 else 0)
            && (after.done ==> after.retryAt.None?)
            && (!after.done && (RunFails(e) || Defers(e)) ==> after.retryAt == Some(e.endMs + 900_000))
            && (!after.done && !RunFails(e) && !Defers(e) ==> after.retryAt == r.retryAt)
            && after.absent == r.absent
  {
    if Made(e).Some? {
      SentExactly(r, Made(e).value, e.check.run.send);
    }
  }

  // ---- Whole runs -----------------------------------------------------------------------------

  /** The task's failed runs since it was last forgotten. */
  function FailedRuns(start: Record, events: seq<Event>): nat {
    if events == [] then 0
    else
      var last := |events| - 1;
      var s, e := After(start, events[..last]), events[last];
      if ForgetsAt(s.record, e) then 0 else FailedRuns(start, events[..last]) + if RunFails(e) then 1 else 0
  }

  ghost predicate FinishesHere(start: Record, events: seq<Event>, k: nat)
    requires k < |events|
  {
    Finishes(After(start, events[..k]).record, events[k], FailedRuns(start, events[..k]))
  }

  ghost predicate ForgetsHere(start: Record, events: seq<Event>, k: nat)
    requires k < |events|
  {
    ForgetsAt(After(start, events[..k]).record, events[k])
  }

  /** The event at `i` finished the task, and none of the others among the first `n` forgot it since. */
  ghost predicate FinishedBy(start: Record, events: seq<Event>, n: nat, i: nat)
    requires n <= |events|
  {
    i < n && FinishesHere(start, events, i) && forall k :: i < k < n ==> !ForgetsHere(start, events, k)
  }

  /** What one event makes of the end and of the failed runs. */
  lemma OneEvent(r: Record, e: Event, marginSec: nat)
    requires Possible(r, e, marginSec) && !(r.done && r.unsent.Some?)
    ensures var after := StepRecord(r, e);
            && (ForgetsAt(r, e) ==> !after.done && after.attempts == 0)
            && (!ForgetsAt(r, e) ==>
                  && (after.done <==> r.done || Finishes(r, e, r.attempts))
                  && after.attempts == r.attempts + (if RunFails(e) then 1 else 0))
  {
    match e
    case Read(board, logsCleared) => PruningIsApart(r, board, logsCleared);
    case Resent(send) => SentExactly(r.(unsent := None), r.unsent.value, send);
    case Skipped(_) =>
    case Checked(_, _, _, _) => CheckedExactly(r, e);
  }

  /**
   In every run a task is done exactly when some event finished it and it was not forgotten since; and what
   is remembered of its failures is the number of failed runs since it was last forgotten.
   */
  lemma {:induction false} DoneExactlyOnceFinished(start: Record, events: seq<Event>, marginSec: nat, n: nat)
    requires IsRun(start, events, marginSec) && n <= |events|
    ensures After(start, events[..n]).record.attempts == FailedRuns(start, events[..n])
    ensures After(start, events[..n]).record.done <==> exists i :: FinishedBy(start, events, n, i)
  {
    if n == 0 {
    } else {
      DoneExactlyOnceFinished(start, events, marginSec, n - 1);
      NextState(start, events, marginSec, n - 1);
      OneEvent(After(start, events[..n - 1]).record, events[n - 1], marginSec);
      OneMoreFailure(start, events, n - 1);
      OneLater(start, events, n - 1, n);
    }
  }

  lemma OneMoreFailure(start: Record, events: seq<Event>, k: nat)
    requires k < |events|
    ensures FailedRuns(start, events[..k + 1]) ==
            if ForgetsHere(start, events, k) then 0 else FailedRuns(start, events[..k]) + if RunFails(events[k]) then 1 else 0
  {
    assert events[..k + 1][..k] == events[..k];
  }

  lemma OneLater(start: Record, events: seq<Event>, m: nat, n: nat)
    requires n == m + 1 <= |events|
    ensures (exists i :: FinishedBy(start, events, n, i)) <==>
              FinishesHere(start, events, m) || (!ForgetsHere(start, events, m) && exists i :: FinishedBy(start, events, m, i))
  {
    if FinishesHere(start, events, m) {
      assert FinishedBy(start, events, n, m);
    }
    if i: nat :| FinishedBy(start, events, n, i) && i < m {
      assert !ForgetsHere(start, events, m) && FinishedBy(start, events, m, i);
    }
    if !ForgetsHere(start, events, m) && exists i :: FinishedBy(start, events, m, i) {
      var i: nat :| FinishedBy(start, events, m, i);
      assert FinishedBy(start, events, n, i);
    }
  }

  /** Neither checked nor forgotten by any of the events after the one at `i`. */
  ghost predicate LeftAloneSince(start: Record, events: seq<Event>, i: nat) {
    forall k :: i < k < |events| ==> !events[k].Checked? && !ForgetsHere(start, events, k)
  }

  /** Done, or left alone until then. */
  predicate WaitsUntil(r: Record, until: int) { r.unsent.None? && (r.done || r.retryAt == Some(until)) }

  lemma AloneKeepsTheWait(r: Record, e: Event, marginSec: nat, until: int)
    requires Possible(r, e, marginSec) && !e.Checked? && !ForgetsAt(r, e) && !(r.done && r.unsent.Some?)
    requires WaitsUntil(r, until)
    ensures WaitsUntil(StepRecord(r, e), until) && StepRecord(r, e).done == r.done
  {
    if e.Read? {
      PruningIsApart(r, e.board, e.logsCleared);
    }
  }

  /**
   After a check that failed or could not be decided, the task, unless that finished it, can be checked again
   from 15 minutes after its end, and not before, whatever else happens meanwhile.
   */
  lemma {:induction false} CheckedAgainExactlyAfterTheWait(start: Record, events: seq<Event>, marginSec: nat, i: nat, nowMs: int)
    requires IsRun(start, events, marginSec) && i < |events| && (RunFails(events[i]) || Defers(events[i]))
    requires LeftAloneSince(start, events, i)
    ensures var r := After(start, events).record;
            IsFree(r, nowMs) <==> !r.done && nowMs >= events[i].endMs + 900_000
    ensures After(start, events).record.done <==> After(start, events[..i + 1]).record.done
  {
    assert events[..|events|] == events;
    WaitsSince(start, events, marginSec, i, |events|);
  }

  lemma {:induction false} WaitsSince(start: Record, events: seq<Event>, marginSec: nat, i: nat, n: nat)
    requires IsRun(start, events, marginSec) && i < n <= |events| && (RunFails(events[i]) || Defers(events[i]))
    requires LeftAloneSince(start, events, i)
    ensures WaitsUntil(After(start, events[..n]).record, events[i].endMs + 900_000)
    ensures After(start, events[..n]).record.done == After(start, events[..i + 1]).record.done
  {
    if n == i + 1 {
      NextState(start, events, marginSec, i);
      CheckedExactly(After(start, events[..i]).record, events[i]);
    } else {
      WaitsSince(start, events, marginSec, i, n - 1);
      LeftAloneThere(start, events, i, n - 1);
      WaitsOnceMore(start, events, marginSec, n, events[i].endMs + 900_000);
    }
  }

  lemma LeftAloneThere(start: Record, events: seq<Event>, i: nat, k: nat)
    requires LeftAloneSince(start, events, i) && i < k < |events|
    ensures !events[k].Checked? && !ForgetsHere(start, events, k)
  {
  }

  lemma WaitsOnceMore(start: Record, events: seq<Event>, marginSec: nat, n: nat, until: int)
    requires IsRun(start, events, marginSec) && 0 < n <= |events| && !events[n - 1].Checked? && !ForgetsHere(start, events, n - 1)
    requires WaitsUntil(After(start, events[..n - 1]).record, until)
    ensures WaitsUntil(After(start, events[..n]).record, until)
    ensures After(start, events[..n]).record.done == After(start, events[..n - 1]).record.done
  {
    NextState(start, events, marginSec, n - 1);
    AloneKeepsTheWait(After(start, events[..n - 1]).record, events[n - 1], marginSec, until);
  }

  lemma NextState(start: Record, events: seq<Event>, marginSec: nat, k: nat)
    requires IsRun(start, events, marginSec) && k < |events|
    ensures After(start, events[..k + 1]) == Step(After(start, events[..k]), events[k])
    ensures Possible(After(start, events[..k]).record, events[k], marginSec)
    ensures var r := After(start, events[..k]).record; !(r.done && r.unsent.Some?)
  {
    assert events[..k + 1] == events[..k] + [events[k]];
    AfterOneMore(start, events[..k], events[k]);
    PrefixIsRun(start, events, marginSec, k);
    RunStaysCounted(start, events[..k], marginSec);
  }

  /** Between a finished task's end and its being forgotten nothing is run, checked or sent for it. */
  lemma DoneIsLeftAlone(start: Record, events: seq<Event>, marginSec: nat, i: nat, j: nat)
    requires IsRun(start, events, marginSec) && i < j < |events| && FinishedBy(start, events, j, i)
    ensures !events[j].Checked? && !events[j].Resent?
  {
    DoneExactlyOnceFinished(start, events, marginSec, j);
    NextState(start, events, marginSec, j);
  }

  /** Two whole boards in a row without a task leave nothing remembered of it, but a result not sent. */
  lemma TwoWholeBoardsForget(r: Record, first: Board, second: Board, firstCleared: bool, secondCleared: bool)
    requires first.complete && !first.listed && second.complete && !second.listed
    ensures var after := StepRecord(StepRecord(r, Read(first, firstCleared)), Read(second, secondCleared));
            after == NOTHING.(unsent := after.unsent) && (after.unsent.Some? ==> after.unsent == r.unsent)
  {
  }

  // ---- What the bounds count ------------------------------------------------------------------

  /** A submitOpen may still land from when it is signed until a lookup finds it otherwise. */
  lemma OutstandingExactly(out: set<string>, u: Unsent, s: Send, hash: string)
    ensures hash in MayLand(out, u, s) <==>
              || (hash in out && !(s.nowSec < u.deadline && u.txHash == Some(hash) && s.lookup in {Mined, Failed, Unknown}))
              || (s.nowSec < u.deadline && !(u.txHash.Some? && s.lookup !in {Failed, Unknown}) && IsSignable(u, s)
                  && s.answer.sending.Broke? && s.answer.sending.hash == Some(hash))
  {
  }

  /** What is counted: model runs, results made and let go, and how often the last one made was sent. */
  lemma RunsAreCounted(s: System, e: Event)
    ensures var r, t, after := s.record, s.tally, Step(s, e).tally;
            && after.runs == t.runs + (if e.Checked? && e.check.Go? then 1 else 0)
            && after.produced == t.produced + (if e.Checked? && e.check.Go? && e.check.run.Produced? then 1 else 0)
            && after.dropped == t.dropped + (if e.Read? && r.unsent.Some? && e.board.nowSec >= r.unsent.value.deadline then 1 else 0)
            && (e.Checked? && e.check.Go? && e.check.run.Produced? ==> after.sends == 1 && after.evidence == e.check.run.evidence)
            && (e.Resent? && r.unsent.Some? ==> after.sends == t.sends + 1)
  {
  }
}
