/**
 What ends a task for its judge, what keeps its pick, what costs an attempt, and how long it is left alone:
 event by event and over whole runs, in terms of what the worker was told.
 */
module JudgeEnds {
  import opened Wrappers
  import opened EscrowTx
  import opened Ranking
  import opened JudgeRecord
  import opened JudgeHistory

  // ---- A look ---------------------------------------------------------------------------------

  /** The task is looked at: not over, not waiting, and an attempt or a pick is left. */
  predicate IsLookedAt(r: Record, now: int) { !r.done && now >= r.retryAt && (r.attempts <= 2 || r.picked.Some?) }

  /** The escrow will never have this agent judge it, or its window has passed with no pick sent. */
  predicate RulesOut(r: Record, a: LookAnswer) {
    a in {ChainProblem, OtherTaskOnChain, NotItsVerifier} || (a.InPhase? && a.phase > 2 && !IsSentPick(r.picked))
  }

  /**
   A pick is sent in its window, or after it if it was sent before; a task is judged in its window alone, and
   neither before; and a look ends, delays or unpicks a task only when it is looked at.
   */
  lemma LookedAtExactly(r: Record, now: int, a: LookAnswer)
    ensures var (after, decision) := Look(r, now, a);
            && (decision.Ready? <==> IsLookedAt(r, now) && r.picked.Some? && a.InPhase? && (a.phase == 2 || (a.phase > 2 && r.picked.value.txHash.Some?)))
            && (decision.ToJudge? <==> IsLookedAt(r, now) && r.picked.None? && a == InPhase(2))
            && (after.done <==> r.done || (IsLookedAt(r, now) && RulesOut(r, a)))
            && after.retryAt == (if IsLookedAt(r, now) && a.ReadFailed? then now + 900_000 else r.retryAt)
            && after.picked == (if IsLookedAt(r, now) && a.InPhase? && a.phase > 2 && !IsSentPick(r.picked) then None else r.picked)
  {
  }

  /** What is seen is the phase exactly when the escrow was read, and has this task there and this agent as its verifier. */
  lemma SeenExactly(h: string, self: string, v: View, phase: nat)
    ensures Seen(h, self, v) == InPhase(phase) <==>
              v.OnChain? && v.phase == phase && LowerCase(v.taskHash) == LowerCase(h) && LowerCase(v.verifier) == self
    ensures Seen(h, self, v) == OtherTaskOnChain <==> v.OnChain? && LowerCase(v.taskHash) != LowerCase(h)
    ensures Seen(h, self, v) == NotItsVerifier <==> v.OnChain? && LowerCase(v.taskHash) == LowerCase(h) && LowerCase(v.verifier) != self
  {
  }

  // ---- A pick sent ----------------------------------------------------------------------------

  /** An earlier transaction of the pick may still land. */
  predicate MayStillLand(pick: Pick, lookup: Lookup) { pick.txHash.Some? && lookup !in {Mined, Failed, Unknown} }

  predicate IsOurs(pick: Pick, io: Io, a: SelectAnswer) { a.Built? && CheckUnsigned(a.tx, io.expected, WantedCall(io, pick)).None? }

  /** The pick was found mined, or was signed and landed. */
  predicate PickLands(pick: Pick, io: Io, lookup: Lookup, a: SelectAnswer) {
    || (pick.txHash.Some? && lookup.Mined?)
    || (!MayStillLand(pick, lookup) && IsOurs(pick, io, a) && a.sending.Landed?)
  }

  /** The server will not have this winner. */
  predicate WinnerRefused(pick: Pick, lookup: Lookup, a: SelectAnswer) {
    && !(pick.txHash.Some? && lookup !in {Failed, Unknown})
    && a.Refused? && (a.code == "OWN_AGENT_PICK" || a.code == "SELF_PICK")
  }

  /** The server will say the same on a retry, and not of the winner alone. */
  predicate Stands(a: SelectAnswer) {
    && a.Refused? && a.status != 404 && a.status != 429 && a.status < 500
    && a.code !in {"ESCROW_PAUSED", "NOT_INDEXED", "NOT_A_SUBMITTER", "OWN_AGENT_PICK", "SELF_PICK"}
  }

  /** The window is over for any pick: the server's refusal stands, or the escrow's. */
  predicate WindowCloses(pick: Pick, io: Io, lookup: Lookup, a: SelectAnswer) {
    && !(pick.txHash.Some? && lookup !in {Failed, Unknown})
    && (Stands(a) ||
        (IsOurs(pick, io, a) && a.sending.Broke? && a.sending.revert.Some? &&
         a.sending.revert.value in {"WrongPhase", "NotVerifier", "NoSubmission", "SelfAssignment", "NotOpenTask", "InvalidStatus"}))
  }

  /** The server built something else than this pick. */
  predicate BuiltOther(pick: Pick, io: Io, lookup: Lookup, a: SelectAnswer) {
    !(pick.txHash.Some? && lookup !in {Failed, Unknown}) && a.Built? && !IsOurs(pick, io, a)
  }

  predicate PickEnds(pick: Pick, io: Io, lookup: Lookup, a: SelectAnswer) {
    PickLands(pick, io, lookup, a) || WindowCloses(pick, io, lookup, a) || BuiltOther(pick, io, lookup, a)
  }

  /** The scorecard is to be confirmed: the pick landed, or an earlier one may have closed the window. */
  predicate AsksForCard(pick: Pick, io: Io, lookup: Lookup, a: SelectAnswer) {
    PickLands(pick, io, lookup, a) || (WindowCloses(pick, io, lookup, a) && pick.txHash.Some?)
  }

  /**
   A pick sent ends its task, or is undone for a refused winner at the cost of an attempt, exactly for these
   reasons; nothing else of its task changes but what is to be confirmed.
   */
  lemma PickSentExactly(r: Record, pick: Pick, io: Io, lookup: Lookup, a: SelectAnswer)
    ensures var after := SendPick(r, pick, io, lookup, a);
            && (after.done <==> r.done || PickEnds(pick, io, lookup, a))
            && (after.picked.None? <==> PickEnds(pick, io, lookup, a) || WinnerRefused(pick, lookup, a))
            && after.confirm == (if AsksForCard(pick, io, lookup, a) then Some(Confirm(pick.card, 0)) else r.confirm)
            && after.attempts == r.attempts + (if WinnerRefused(pick, lookup, a) then 1 else 0)
    ensures SendPick(r, pick, io, lookup, a).retryAt == r.retryAt
  {
  }

  /** A refused winner is remembered; and a pick that is kept is so as it is, with the hash of its newest transaction. */
  lemma PickKeptExactly(r: Record, pick: Pick, io: Io, lookup: Lookup, a: SelectAnswer)
    ensures var after := SendPick(r, pick, io, lookup, a);
            && after.excluded == r.excluded + (if WinnerRefused(pick, lookup, a) then {LowerCase(pick.winner)} else {})
            && after.waits == r.waits && after.yielded == r.yielded
            && (after.picked.Some? ==>
                  && after.picked.value.(txHash := pick.txHash) == pick
                  && after.picked.value.txHash ==
                     if !MayStillLand(pick, lookup) && a.Built? && a.sending.Broke? && a.sending.hash.Some? then a.sending.hash else pick.txHash)
  {
  }

  /** Sending a pick signs exactly when it is asked for anew, what is built is this pick, and it reached the network. */
  lemma SignsExactly(pick: Pick, io: Io, lookup: Lookup, a: SelectAnswer)
    ensures Signs(pick, io, lookup, a) <==>
              && (pick.txHash.None? || lookup in {Failed, Unknown})
              && IsOurs(pick, io, a) && !(a.sending.Broke? && a.sending.hash.None?)
  {
  }

  // ---- A task judged --------------------------------------------------------------------------

  /** The task's turn comes: an attempt is left, and it does not yield to paid work for the third time or less. */
  predicate IsJudged(r: Record, busy: bool) { r.attempts <= 2 && !(busy && r.yielded <= 2) }

  /** Not now: it cannot be paid for, or something about it could not be read. */
  predicate IsPutOff(a: JudgeAnswer) { a.CannotPay? || a.ListUnusable? || a.StorageFailed? || a.NothingReadable? || a.BriefUnread? }

  /** A failed ranking, nothing to read that is no outage of storage, or a winner refused. */
  predicate CostsAttempt(r: Record, a: JudgeAnswer) {
    || a.RankFailed?
    || (a.NothingReadable? && !(a.storageUnreadable && r.waits.passes <= 5))
    || (a.Winner? && a.answer.Refused? && (a.answer.code == "OWN_AGENT_PICK" || a.answer.code == "SELF_PICK"))
  }

  /** A crash blamed on the task, nobody to judge or nobody acceptable, or a pick whose sending ends it. */
  predicate Concludes(now: int, io: Io, a: JudgeAnswer) {
    || a == Crashed(true) || a.NobodySubmitted? || a.NobodyAcceptable?
    || (a.Winner? && PickEnds(NewPick(a, now), io, Unknown, a.answer))
  }

  /** A task judged: whether that ends it, what it costs, when it is looked at again, and what is picked. */
  lemma JudgedExactly(r: Record, now: int, io: Io, busy: bool, a: JudgeAnswer)
    requires r.picked.None?
    ensures var after := JudgeTask(r, now, io, busy, a);
            && (after.done <==> r.done || (IsJudged(r, busy) && Concludes(now, io, a)))
            && after.attempts == r.attempts + (if IsJudged(r, busy) && CostsAttempt(r, a) then 1 else 0)
            && after.retryAt == (if IsJudged(r, busy) && IsPutOff(a) then now + 900_000 else r.retryAt)
            && (after.picked.Some? ==> IsJudged(r, busy) && a.Winner? && after.picked.value.winner == a.winner && after.picked.value.card == a.card)
            && (IsJudged(r, busy) && a.Winner? ==> after.picked.Some? || after.done || after.attempts == r.attempts + 1)
    ensures var after := JudgeTask(r, now, io, busy, a);
            && (r.attempts <= 2 && !IsJudged(r, busy) ==> after.yielded == r.yielded + 1)
            && (IsJudged(r, busy) && a.RankYielded? ==> after.yielded == r.yielded + 1)
            && (IsJudged(r, busy) && (a.RankFailed? || a.NobodyAcceptable? || a.Winner?) ==> after.yielded == 0)
            && (r.attempts > 2 || (IsJudged(r, busy) && !StartsRanking(a)) ==> after.yielded == r.yielded)
  {
    if a.Winner? && r.attempts <= 2 && IsJudged(r, busy) {
      PickSentExactly(r.(yielded := 0, picked := Some(NewPick(a, now))), NewPick(a, now), io, Unknown, a.answer);
      PickKeptExactly(r.(yielded := 0, picked := Some(NewPick(a, now))), NewPick(a, now), io, Unknown, a.answer);
    }
  }

  lemma {:induction false} RootsAreCounted(roots: map<string, nat>, failed: seq<string>, root: string)
    ensures root in CountRoots(roots, failed) <==> root in roots || root in failed
    ensures root in CountRoots(roots, failed) ==>
              CountRoots(roots, failed)[root] == (if root in roots then roots[root] else 0) + multiset(failed)[root]
    decreases |failed|
  {
    if failed == [] {
    } else {
      assert failed == [failed[0]] + failed[1..];
      RootsAreCounted(roots[failed[0] := (if failed[0] in roots then roots[failed[0]] else 0) + 1], failed[1..], root);
    }
  }

  /** A wait on storage counts one pass, and one failure for each time a root failed; a root is given up on after 3, or all after 6 passes. */
  lemma StorageWaitsAreCounted(r: Record, now: int, io: Io, busy: bool, failed: seq<string>, root: string)
    ensures var after := JudgeTask(r, now, io, busy, StorageFailed(failed)).waits;
            && (!IsJudged(r, busy) ==> after == r.waits)
            && (IsJudged(r, busy) ==>
                  && after.passes == r.waits.passes + 1
                  && (root in after.roots <==> root in r.waits.roots || root in failed)
                  && (root in after.roots ==>
                        after.roots[root] == (if root in r.waits.roots then r.waits.roots[root] else 0) + multiset(failed)[root]))
    ensures root in GiveUpOn(r.waits) <==> root in r.waits.roots && (r.waits.roots[root] >= 3 || r.waits.passes >= 6)
  {
    RootsAreCounted(r.waits.roots, failed, root);
  }

  // ---- Off the list ---------------------------------------------------------------------------

  /** Off a whole list all but the pick and the card are forgotten; a pick stays only while it was sent and met 24 lists or fewer. */
  lemma OffTheListExactly(r: Record, complete: bool)
    ensures var (left, ready) := Unlist(r, complete);
            && (ready <==> IsSentPick(r.picked) && r.picked.value.lookups <= 23)
            && left.picked == (if ready then Some(r.picked.value.(lookups := r.picked.value.lookups + 1)) else None)
            && left.confirm == r.confirm
            && (if complete then !left.done && left.attempts == 0 && left.retryAt == 0 && left.excluded == {} && left.waits == Waits(0, map[]) && left.yielded == 0
                else left.(picked := r.picked) == r)
  {
  }

  // ---- Whole runs -----------------------------------------------------------------------------

  /** The event ends the task. */
  predicate Finishes(t: Task, e: Event) {
    match e
    case Begins(_) => false
    case Looks(now, a) => IsLookedAt(t.record, now) && RulesOut(t.record, a)
    case Leaves(_) => false
    case Sends(now, io, lookup, a) => t.turn.held.Some? && PickEnds(HeldPick(t.turn.held.value, now), io, lookup, a)
    case Judges(now, io, busy, a) => IsJudged(t.record, busy) && Concludes(now, io, a)
  }

  ghost predicate FinishesHere(start: Record, events: seq<Event>, k: nat)
    requires k < |events|
  {
    Finishes(After(start, events[..k]).task, events[k])
  }

  /** The event at `i` ended the task, and no whole list was without it since. */
  ghost predicate FinishedAt(start: Record, events: seq<Event>, i: nat) {
    && i < |events| && FinishesHere(start, events, i)
    && forall k :: i < k < |events| ==> events[k] != Leaves(true)
  }

  lemma OneEvent(t: Task, e: Event)
    ensures var after := Next(t, e).record;
            && (e == Leaves(true) ==> !after.done)
            && (e != Leaves(true) ==> (after.done <==> t.record.done || Finishes(t, e)))
  {
    match e
    case Begins(_) =>
    case Looks(now, a) => LookedAtExactly(t.record, now, a);
    case Leaves(complete) => OffTheListExactly(t.record, complete);
    case Sends(now, io, lookup, a) =>
      if t.turn.held.Some? {
        var pick := HeldPick(t.turn.held.value, now);
        PickSentExactly(t.record.(picked := Some(pick)), pick, io, lookup, a);
      }
    case Judges(now, io, busy, a) =>
      JudgedWhateverIsPicked(t.record, now, io, busy, a);
  }

  lemma JudgedWhateverIsPicked(r: Record, now: int, io: Io, busy: bool, a: JudgeAnswer)
    ensures JudgeTask(r, now, io, busy, a).done <==> r.done || (IsJudged(r, busy) && Concludes(now, io, a))
  {
    if a.Winner? && IsJudged(r, busy) {
      PickSentExactly(r.(yielded := 0, picked := Some(NewPick(a, now))), NewPick(a, now), io, Unknown, a.answer);
    }
  }

  /** In every run a task is over exactly when some event ended it and no whole list was without it since. */
  lemma {:induction false} DoneExactlyOnceFinished(start: Record, events: seq<Event>)
    requires Fresh(start)
    ensures After(start, events).task.record.done <==> exists i :: FinishedAt(start, events, i)
  {
    if events == [] {
    } else {
      var last := |events| - 1;
      DoneExactlyOnceFinished(start, events[..last]);
      OneEvent(After(start, events[..last]).task, events[last]);
      OneLater(start, events);
    }
  }

  lemma OneLater(start: Record, events: seq<Event>)
    requires events != []
    ensures var last := |events| - 1;
            (exists i :: FinishedAt(start, events, i)) <==>
              || FinishesHere(start, events, last)
              || (events[last] != Leaves(true) && exists i :: FinishedAt(start, events[..last], i))
  {
    var last := |events| - 1;
    assert FinishesHere(start, events, last) <==> FinishedAt(start, events, last);
    forall i: nat | i < last
      ensures FinishedAt(start, events, i) <==> events[last] != Leaves(true) && FinishedAt(start, events[..last], i)
    {
      EarlierInFront(start, events, i);
    }
  }

  lemma EarlierInFront(start: Record, events: seq<Event>, i: nat)
    requires i < |events| - 1
    ensures var last := |events| - 1;
            FinishedAt(start, events, i) <==> events[last] != Leaves(true) && FinishedAt(start, events[..last], i)
  {
    var front := events[..|events| - 1];
    assert front[..i] == events[..i];
    forall k: nat | k < |front|
      ensures front[k] == events[k]
    {
    }
  }

  // ---- The scorecard --------------------------------------------------------------------------

  /** Passes begun by the events from `i` to `j`, and whether one found the card kept. */
  function Begun(events: seq<Event>, i: nat, j: nat): nat
    requires i <= j <= |events|
  {
    if i == j then 0 else Begun(events, i, j - 1) + if events[j - 1].Begins? then 1 else 0
  }

  predicate FoundKept(events: seq<Event>, i: nat, j: nat)
    requires i <= j <= |events|
  {
    exists k :: i <= k < j && events[k] == Begins(true)
  }

  /** The event asks for a card to be confirmed. */
  predicate Asks(t: Task, e: Event) {
    match e
    case Sends(now, io, lookup, a) => t.turn.held.Some? && AsksForCard(HeldPick(t.turn.held.value, now), io, lookup, a)
    case Judges(now, io, busy, a) => IsJudged(t.record, busy) && a.Winner? && AsksForCard(NewPick(a, now), io, Unknown, a.answer)
    case _ => false
  }

  lemma OnlyPassesCount(t: Task, e: Event)
    requires !Asks(t, e) && !e.Begins?
    ensures Next(t, e).record.confirm == t.record.confirm
  {
    match e
    case Looks(now, a) =>
    case Leaves(complete) => OffTheListExactly(t.record, complete);
    case Sends(now, io, lookup, a) =>
      if t.turn.held.Some? {
        var pick := HeldPick(t.turn.held.value, now);
        PickSentExactly(t.record.(picked := Some(pick)), pick, io, lookup, a);
      }
    case Judges(now, io, busy, a) =>
      if a.Winner? && IsJudged(t.record, busy) {
        PickSentExactly(t.record.(yielded := 0, picked := Some(NewPick(a, now))), NewPick(a, now), io, Unknown, a.answer);
      }
  }

  /** What is left to confirm after so many passes. */
  function Left(card: string, kept: bool, passes: nat): Option<Confirm> {
    if kept || passes >= 12 then None else Some(Confirm(card, passes))
  }

  lemma OneMorePass(t: Task, e: Event, card: string, kept: bool, passes: nat)
    requires t.record.confirm == Left(card, kept, passes) && !Asks(t, e)
    ensures Next(t, e).record.confirm == Left(card, kept || e == Begins(true), passes + if e.Begins? then 1 else 0)
  {
    if !e.Begins? {
      OnlyPassesCount(t, e);
    }
  }

  lemma BegunOneMore(events: seq<Event>, i: nat, j: nat)
    requires i < j <= |events|
    ensures Begun(events, i, j) == Begun(events, i, j - 1) + if events[j - 1].Begins? then 1 else 0
    ensures FoundKept(events, i, j) <==> FoundKept(events, i, j - 1) || events[j - 1] == Begins(true)
  {
  }

  lemma NextState(start: Record, events: seq<Event>, j: nat)
    requires 0 < j <= |events|
    ensures After(start, events[..j]).task == Next(After(start, events[..j - 1]).task, events[j - 1])
  {
    assert events[..j] == events[..j - 1] + [events[j - 1]];
    AfterOneMore(start, events[..j - 1], events[j - 1]);
  }

  /** The card asked for is checked once a pass, until it is found kept or for 12 passes, whatever becomes of its task. */
  lemma {:induction false} CardIsCheckedForTwelvePasses(start: Record, events: seq<Event>, i: nat, j: nat, card: string)
    requires i <= j <= |events| && After(start, events[..i]).task.record.confirm == Some(Confirm(card, 0))
    requires NoneAsks(start, events, i, j)
    ensures After(start, events[..j]).task.record.confirm == Left(card, FoundKept(events, i, j), Begun(events, i, j))
  {
    if i == j {
      assert !FoundKept(events, i, j);
    } else {
      FewerAsk(start, events, i, j);
      CardIsCheckedForTwelvePasses(start, events, i, j - 1, card);
      CardIsCheckedOnceMore(start, events, i, j, card);
    }
  }

  /** No card is asked for by the events from `i` to `j`. */
  ghost predicate NoneAsks(start: Record, events: seq<Event>, i: nat, j: nat)
    requires i <= j <= |events|
  {
    forall k :: i <= k < j ==> !Asks(After(start, events[..k]).task, events[k])
  }

  lemma FewerAsk(start: Record, events: seq<Event>, i: nat, j: nat)
    requires i < j <= |events| && NoneAsks(start, events, i, j)
    ensures NoneAsks(start, events, i, j - 1) && !Asks(After(start, events[..j - 1]).task, events[j - 1])
  {
  }

  lemma CardIsCheckedOnceMore(start: Record, events: seq<Event>, i: nat, j: nat, card: string)
    requires i < j <= |events| && !Asks(After(start, events[..j - 1]).task, events[j - 1])
    requires After(start, events[..j - 1]).task.record.confirm == Left(card, FoundKept(events, i, j - 1), Begun(events, i, j - 1))
    ensures After(start, events[..j]).task.record.confirm == Left(card, FoundKept(events, i, j), Begun(events, i, j))
  {
    NextState(start, events, j);
    BegunOneMore(events, i, j);
    OneMorePass(After(start, events[..j - 1]).task, events[j - 1], card, FoundKept(events, i, j - 1), Begun(events, i, j - 1));
  }

  // ---- The wait -------------------------------------------------------------------------------

  /** The event leaves the task alone for 15 minutes, until then. */
  predicate PutsOff(t: Task, e: Event, until: int) {
    || (e.Looks? && IsLookedAt(t.record, e.now) && e.seen.ReadFailed? && until == e.now + 900_000)
    || (e.Judges? && IsJudged(t.record, e.busy) && IsPutOff(e.verdict) && until == e.now + 900_000)
  }

  lemma PuttingOffWaits(t: Task, e: Event, until: int)
    requires PutsOff(t, e, until)
    ensures Next(t, e).record.retryAt == until
  {
    if e.Looks? {
      LookedAtExactly(t.record, e.now, e.seen);
    }
  }

  /** Passes whose looks all come before then neither look at the task nor forget it. */
  lemma WaitingGoesOn(t: Task, e: Event, until: int)
    requires t.record.retryAt == until && e != Leaves(true) && !e.Judges? && (e.Looks? ==> e.now < until)
    ensures Next(t, e).record.retryAt == until
    ensures e.Looks? ==> Look(t.record, e.now, e.seen) == (t.record, Skip)
  {
    match e
    case Begins(_) =>
    case Looks(now, a) => LookedAtExactly(t.record, now, a);
    case Leaves(complete) => OffTheListExactly(t.record, complete);
    case Sends(now, io, lookup, a) =>
      if t.turn.held.Some? {
        var pick := HeldPick(t.turn.held.value, now);
        PickSentExactly(t.record.(picked := Some(pick)), pick, io, lookup, a);
      }
  }

  /** A task put off is looked at again from 15 minutes later and not before, as long as no whole list is without it. */
  lemma {:induction false} LookedAtAgainExactlyAfterTheWait(start: Record, events: seq<Event>, i: nat, j: nat, until: int, now: int)
    requires i < j <= |events| && PutsOff(After(start, events[..i]).task, events[i], until)
    requires forall k :: i < k < j ==> events[k] != Leaves(true) && !events[k].Judges? && (events[k].Looks? ==> events[k].now < until)
    ensures var r := After(start, events[..j]).task.record;
            r.retryAt == until && (IsLookedAt(r, now) <==> now >= until && !r.done && (r.attempts <= 2 || r.picked.Some?))
  {
    NextState(start, events, j);
    if j == i + 1 {
      PuttingOffWaits(After(start, events[..i]).task, events[i], until);
    } else {
      LookedAtAgainExactlyAfterTheWait(start, events, i, j - 1, until, now);
      WaitingGoesOn(After(start, events[..j - 1]).task, events[j - 1], until);
    }
  }

  // ---- Turns ----------------------------------------------------------------------------------

  /**
   A pick's turn comes once for each look that finds it ready, as that look found it, or once off the list while it
   is looked up; the task's to be judged once for each look that finds its window open with no pick.
   */
  lemma TurnsComeExactly(t: Task, e: Event)
    requires e.Looks? || e.Leaves?
    ensures var r, before, turn := t.record, t.turn, Next(t, e).turn;
            && (e.Looks? ==>
                  var ready := IsLookedAt(r, e.now) && r.picked.Some? && e.seen.InPhase? && (e.seen.phase == 2 || (e.seen.phase > 2 && r.picked.value.txHash.Some?));
                  var judge := IsLookedAt(r, e.now) && r.picked.None? && e.seen == InPhase(2);
                  && turn.ready == before.ready + (if ready then 1 else 0) && turn.found == before.found + (if ready then 1 else 0)
                  && turn.toJudge == before.toJudge + (if judge then 1 else 0)
                  && turn.held == (if ready then r.picked else before.held))
            && (e.Leaves? ==>
                  var ready := IsSentPick(r.picked) && r.picked.value.lookups <= 23;
                  && turn.ready == (if ready then 1 else before.ready) && turn.toJudge == before.toJudge
                  && (ready ==> turn.held == Some(r.picked.value.(lookups := r.picked.value.lookups + 1))))
  {
    if e.Looks? {
      LookedAtExactly(t.record, e.now, e.seen);
    } else {
      OffTheListExactly(t.record, e.complete);
    }
  }

  /** Judging ends a pass exactly when it yields to paid work or its ranking starts. */
  lemma PassEndsExactly(r: Record, busy: bool, a: JudgeAnswer)
    ensures EndsPass(r, busy, a) <==>
              r.attempts <= 2 && ((busy && r.yielded <= 2) || a.RankYielded? || a.RankFailed? || a.NobodyAcceptable? || a.Winner?)
    ensures Reaches(r, busy) <==> IsJudged(r, busy)
  {
  }

  // ---- What the bounds count ------------------------------------------------------------------

  /** Signed now, and not seen to land nor finally refused. */
  predicate MayLandNow(pick: Pick, io: Io, lookup: Lookup, a: SelectAnswer, hash: string) {
    && (pick.txHash.None? || lookup in {Failed, Unknown}) && IsOurs(pick, io, a) && a.sending.Broke? && a.sending.hash == Some(hash)
    && !(a.sending.revert.Some? &&
         a.sending.revert.value in {"WrongPhase", "NotVerifier", "NoSubmission", "SelfAssignment", "NotOpenTask", "InvalidStatus"})
  }

  /** A transaction may still land from when it is signed until a lookup finds it otherwise. */
  lemma OutstandingExactly(s: System, e: Event, hash: string)
    ensures var t, out := s.task, Step(s, e).tally.outstanding;
            match e
            case Sends(now, io, lookup, a) =>
              (t.turn.held.Some? ==>
                 var pick := HeldPick(t.turn.held.value, now);
                 hash in out <==>
                   || (hash in s.tally.outstanding && !(pick.txHash == Some(hash) && lookup in {Mined, Failed, Unknown}))
                   || MayLandNow(pick, io, lookup, a, hash))
            case Judges(now, io, busy, a) =>
              hash in out <==>
                hash in s.tally.outstanding || (IsJudged(t.record, busy) && a.Winner? && MayLandNow(NewPick(a, now), io, Unknown, a.answer, hash))
            case _ => out == s.tally.outstanding
  {
    match e
    case Sends(now, io, lookup, a) =>
      if s.task.turn.held.Some? {
        SignsExactly(HeldPick(s.task.turn.held.value, now), io, lookup, a);
      }
    case Judges(now, io, busy, a) =>
      if a.Winner? {
        SignsExactly(NewPick(a, now), io, Unknown, a.answer);
      }
    case _ =>
  }

  /** What is counted of judgings: those completed, the rankings started, the waits on storage; and of lists without the task, picks lost. */
  lemma JudgingsAreCounted(s: System, e: Event)
    ensures var r, t, after := s.task.record, s.tally, Step(s, e).tally;
            var judged := e.Judges? && IsJudged(r, e.busy);
            && after.completed == t.completed + (if judged && (e.verdict.RankFailed? || e.verdict.NobodyAcceptable? || e.verdict.Winner?) then 1 else 0)
            && after.starts == t.starts + (if judged && (e.verdict.RankYielded? || e.verdict.RankFailed? || e.verdict.NobodyAcceptable? || e.verdict.Winner?) then 1 else 0)
            && after.waits == t.waits + (if judged && e.verdict.StorageFailed? then 1 else 0)
            && after.lost == t.lost + (if e.Leaves? && r.picked.Some? && !(IsSentPick(r.picked) && r.picked.value.lookups <= 23) then 1 else 0)
  {
    if e.Leaves? {
      OffTheListExactly(s.task.record, e.complete);
    }
  }
}
