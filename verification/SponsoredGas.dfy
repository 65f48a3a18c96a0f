/**
 Sponsored gas for one task's submitEvidence: the worker asks BlindMarket's relayer to send
 the call, and pays its own gas or releases the task only when the relayer's transaction can
 no longer land. The relayer moves on its own between any two steps of the worker, and an
 answer to the worker may be lost after the call was accepted.
 */
module SponsoredGas {
  import opened Wrappers

  const CALL_ATTEMPTS: nat := 5

  /** The relayer's transaction: none accepted, still able to land, landed, or dead for good. */
  datatype Relay = NotAsked | Out | Landed | Dead

  /** What GET /sponsored-call says; Unreadable when the read fails. */
  datatype Status = Confirmed | Pending | Failed | NothingOut | Unreadable

  /**
   What POST /sponsored-call comes to: sent with no receipt yet (202), landed (200), a refusal
   (`setupNoop`: the wallet's set-up did nothing), or no answer (`timedOut`: an AbortError).
   */
  datatype Reply = StillOut | Sent | Refused(setupNoop: bool) | NoAnswer(timedOut: bool)

  /** One answer the worker waits for; which part it reads depends on where it is. `stop`: its wait is over. */
  datatype Answer = Answer(status: Status, reply: Reply, stop: bool)

  /** What sponsoredCall returns: true, 'pending' or false. */
  datatype Result = CallLanded | CallOut | UseOwnGas

  datatype At =
    | Idle
    | FirstRead                                      // settle a call already out
    | Asking(attempt: nat, setupRetried: bool)       // signing and posting
    | AfterError                                     // the read after a request failed
    | Waiting                                        // awaitSponsoredOutcome
    | OwnGas                                         // about to pay this wallet's gas

  /** The worker's side: `marker` is sponsoredPending, `reserved` is sponsoredTasks. */
  datatype Worker = Worker(at: At, marker: bool, reserved: bool, result: Option<Result>)

  /** sponsoredCall returns, and broadcastEvmSubmitEvidence goes on from there. */
  function Return(w: Worker, r: Result): Worker {
    match r
    case CallLanded => w.(at := Idle, reserved := false, result := Some(r))
    case CallOut => w.(at := Idle, result := Some(r))
    case UseOwnGas => w.(at := if w.marker then Idle else OwnGas, reserved := false, result := Some(r))
  }

  /** What the worker does with the answer it waited for. */
  function Next(w: Worker, a: Answer): Worker {
    match w.at
    case Idle => w
    case OwnGas => w.(at := Idle)
    case FirstRead =>
      if a.status == Confirmed then Return(w, CallLanded)
      else if a.status == Pending || (a.status == Unreadable && w.marker) then w.(at := Waiting)
      else w.(at := Asking(1, false))
    case Asking(n, retried) =>
      (match a.reply
       case StillOut => w.(marker := true, at := Waiting)
       case Sent => Return(w.(marker := false), CallLanded)
       case Refused(noop) =>
         if !noop || retried || n == CALL_ATTEMPTS then Return(w, UseOwnGas)
         else w.(at := Asking(n + 1, true))
       case NoAnswer(timedOut) =>
         if timedOut && n < CALL_ATTEMPTS then w.(at := Asking(n + 1, retried))
         else w.(at := AfterError))
    case AfterError =>
      if a.status == Pending || a.status == Confirmed then w.(at := Waiting) else Return(w, UseOwnGas)
    case Waiting =>
      if a.status == Confirmed then Return(w.(marker := false), CallLanded)
      else if a.status == Pending || a.status == Unreadable then
        if a.stop then Return(w.(marker := true), CallOut) else w.(marker := true)
      else Return(w.(marker := false), UseOwnGas)
  }

  predicate InCall(at: At) { at.FirstRead? || at.Asking? || at.AfterError? || at.Waiting? }

  /** The worker after reading `n` answers. */
  function After(w: Worker, answers: nat -> Answer, n: nat): Worker {
    if n == 0 then w else Next(After(w, answers, n - 1), answers(n - 1))
  }

  // ---- The worker's code ----------------------------------------------------------------------

  class Sponsor {
    var marker: bool
    var reserved: bool

    constructor ()
      ensures !marker && !reserved
    {
      marker, reserved := false, false;
    }

    /**
     awaitSponsoredOutcome, from the read of index `first` on; the wait's time is over for every
     read from `deadline` on. `start` is the worker when the whole call began.
     */
    method AwaitOutcome(answers: nat -> Answer, first: nat, deadline: nat, ghost start: Worker) returns (outcome: Result, used: nat)
      requires forall k :: k >= deadline ==> answers(k).stop
      requires After(start, answers, first) == start.(at := Waiting, marker := marker)
      modifies this`marker
      ensures Returned(start, answers, used, outcome, marker)
      ensures outcome.CallOut? <==> marker
      ensures used > first
      ensures outcome.CallLanded? <==> answers(used - 1).status == Confirmed
      ensures outcome.UseOwnGas? <==> answers(used - 1).status in {Failed, NothingOut}
    {
      used := first;
      while true
        invariant used >= first
        invariant After(start, answers, used) == start.(at := Waiting, marker := marker)
        decreases if used <= deadline then deadline - used + 1 else 0
      {
        var a := answers(used);
        used := used + 1;
        if a.status == Confirmed {
          marker := false;
          return CallLanded, used;
        }
        if a.status != Pending && a.status != Unreadable {
          marker := false;
          return UseOwnGas, used;
        }
        marker := true;
        if a.stop {
          return CallOut, used;
        }
      }
    }

    /** A request that failed may have been taken on: the status of index `first` decides. */
    method SettleFailed(answers: nat -> Answer, first: nat, deadline: nat, ghost start: Worker) returns (outcome: Result, used: nat)
      requires forall k :: k >= deadline ==> answers(k).stop
      requires After(start, answers, first) == start.(at := AfterError, marker := marker)
      modifies this`marker
      ensures Returned(start, answers, used, outcome, marker)
    {
      var status := answers(first).status;
      used := first + 1;
      if status == Pending || status == Confirmed {
        outcome, used := AwaitOutcome(answers, used, deadline, start);
        return;
      }
      outcome := UseOwnGas;
    }

    /** sponsoredCall: what it returns and leaves in the marker, answer by answer. */
    method SponsoredCall(answers: nat -> Answer, deadline: nat) returns (outcome: Result, used: nat)
      requires forall k :: k >= deadline ==> answers(k).stop
      modifies this`marker
      ensures Returned(Worker(FirstRead, old(marker), reserved, None), answers, used, outcome, marker)
    {
      ghost var start := Worker(FirstRead, marker, reserved, None);
      var known := answers(0).status;
      used := 1;
      if known == Confirmed {
        return CallLanded, used;
      }
      if known == Pending || (known == Unreadable && marker) {
        outcome, used := AwaitOutcome(answers, used, deadline, start);
        return;
      }
      var setupRetried := false;
      for attempt := 1 to CALL_ATTEMPTS + 1
        invariant attempt <= CALL_ATTEMPTS ==> After(start, answers, used) == start.(at := Asking(attempt, setupRetried))
        invariant attempt > CALL_ATTEMPTS ==> Returned(start, answers, used, UseOwnGas, marker)
        invariant marker == start.marker
      {
        var reply := answers(used).reply;
        used := used + 1;
        match reply
        case StillOut =>
          marker := true;
          outcome, used := AwaitOutcome(answers, used, deadline, start);
          return;
        case Sent =>
          marker := false;
          return CallLanded, used;
        case Refused(setupNoop) =>
          if !setupNoop || setupRetried {
            return UseOwnGas, used;
          }
          setupRetried := true;
        case NoAnswer(timedOut) =>
          if !timedOut || attempt == CALL_ATTEMPTS {
            outcome, used := SettleFailed(answers, used, deadline, start);
            return;
          }
      }
      outcome := UseOwnGas;
    }

    /** broadcastEvmSubmitEvidence up to the choice it makes: whether this wallet's own gas is paid. */
    method Broadcast(answers: nat -> Answer, deadline: nat) returns (landed: bool, ownGas: bool, used: nat)
      requires forall k :: k >= deadline ==> answers(k).stop
      modifies this
      ensures old(reserved) ==>
                var w := After(Worker(FirstRead, old(marker), true, None), answers, used);
                && w.marker == marker && w.reserved == reserved
                && (landed <==> w.result == Some(CallLanded))
                && (ownGas <==> w.at == OwnGas)
                && (landed ==> exists k: nat :: k < used && SaysLanded(After(Worker(FirstRead, old(marker), true, None), answers, k).at, answers(k)))
      ensures !old(reserved) ==> !landed && marker == old(marker) && !reserved && (ownGas <==> !marker)
    {
      landed, used := false, 0;
      if reserved {
        var outcome;
        ghost var start := Worker(FirstRead, marker, true, None);
        outcome, used := SponsoredCall(answers, deadline);
        if outcome == CallLanded {
          ghost var said := LandedWasSaid(start, answers, used);
        }
        if outcome == CallLanded {
          reserved := false;
          return true, false, used;
        }
        if outcome == CallOut {
          return false, false, used;
        }
        reserved := false;
      }
      ownGas := !marker;
    }

    /** releaseTask's first lines: whether /release is asked for. */
    method Release() returns (asked: bool)
      ensures asked <==> !marker
    {
      asked := !marker;
    }
  }

  /** The call that began at `start` has returned `r` after `n` answers, leaving the marker at `marker`. */
  ghost predicate Returned(start: Worker, answers: nat -> Answer, n: nat, r: Result, marker: bool) {
    After(start, answers, n) == Return(start.(marker := marker), r)
  }

  // ---- The protocol ---------------------------------------------------------------------------

  datatype System = System(relay: Relay, worker: Worker)

  datatype Event =
    | RelayLands
    | RelayDies
    | Reserves                              // /accept or /executions marks the task sponsored
    | StartsBroadcast
    | Reads(a: Answer, accepted: bool)      // an answer arrives; `accepted`: the request it answers was taken on
    | PaysOwnGas
    | AsksRelease

  /** A request that was taken on leaves a transaction out; one answered 200 has landed. */
  function RelayAfter(relay: Relay, at: At, a: Answer, accepted: bool): Relay {
    if !at.Asking? then relay
    else if a.reply.Sent? then Landed
    else if accepted then Out
    else relay
  }

  function StatusOf(relay: Relay): Status {
    match relay
    case NotAsked => NothingOut
    case Out => Pending
    case Landed => Confirmed
    case Dead => Failed
  }

  /**
   What is assumed of BlindMarket: a status that can be read is the relayer's; a call is taken
   on only when none is out, and taken on at all when it is answered 202; a refusal is given
   only when nothing of ours is out or landed.
   */
  predicate Honest(relay: Relay, at: At, a: Answer, accepted: bool) {
    && (!at.Asking? ==> !accepted && (a.status == Unreadable || a.status == StatusOf(relay)))
    && (at.Asking? ==>
          && (accepted ==> relay in {NotAsked, Dead})
          && (a.reply.StillOut? ==> RelayAfter(relay, at, a, accepted) == Out)
          && (a.reply.Refused? ==> !accepted && relay in {NotAsked, Dead}))
  }

  /** The one read that must succeed: the status asked for after a request failed. */
  predicate Answers(at: At, a: Answer) {
    at.AfterError? ==> a.status != Unreadable
  }

  predicate Enabled(sys: System, ev: Event) {
    match ev
    case RelayLands => sys.relay == Out
    case RelayDies => sys.relay == Out
    case Reserves => sys.worker.at == Idle
    case StartsBroadcast => sys.worker.at == Idle
    case Reads(a, accepted) => InCall(sys.worker.at) && Honest(sys.relay, sys.worker.at, a, accepted)
    case PaysOwnGas => sys.worker.at == OwnGas
    case AsksRelease => sys.worker.at == Idle && !sys.worker.marker
  }

  function Step(sys: System, ev: Event): System {
    match ev
    case RelayLands => sys.(relay := Landed)
    case RelayDies => sys.(relay := Dead)
    case Reserves => sys.(worker := sys.worker.(reserved := true))
    case StartsBroadcast =>
      var w := sys.worker;
      sys.(worker := w.(at := if w.reserved then FirstRead else if w.marker then Idle else OwnGas, result := None))
    case Reads(a, accepted) => System(RelayAfter(sys.relay, sys.worker.at, a, accepted), Next(sys.worker, a))
    case PaysOwnGas => sys.(worker := sys.worker.(at := Idle))
    case AsksRelease => sys
  }

  /** While a transaction may land, the marker says so or the worker is still in the call that knows. */
  ghost predicate Guarded(sys: System) {
    var w := sys.worker;
    && (sys.relay == Out ==> w.marker || (w.at.Asking? && w.at.attempt > 1) || w.at.AfterError? || w.at.Waiting?)
    && (w.at.Asking? ==> w.at.attempt >= 1)
    && (w.at == OwnGas ==> sys.relay != Out && (w.result.Some? ==> sys.relay in {NotAsked, Dead}))
  }

  /** A run of a process that starts with nothing out for the task. */
  ghost predicate IsRun(states: seq<System>, events: seq<Event>) {
    && |states| == |events| + 1
    && states[0].relay == NotAsked && states[0].worker == Worker(Idle, false, states[0].worker.reserved, None)
    && forall i :: 0 <= i < |events| ==> Enabled(states[i], events[i]) && states[i + 1] == Step(states[i], events[i])
  }

  ghost predicate ReadsAnswer(states: seq<System>, events: seq<Event>)
    requires |states| == |events| + 1
  {
    forall i :: 0 <= i < |events| && events[i].Reads? ==> Answers(states[i].worker.at, events[i].a)
  }

  lemma StepKeepsGuarded(sys: System, ev: Event)
    requires Guarded(sys) && Enabled(sys, ev)
    requires ev.Reads? ==> Answers(sys.worker.at, ev.a)
    ensures Guarded(Step(sys, ev))
  {
  }

  /**
   In every run, however the relayer moves and whichever answers are lost: this wallet's own gas
   is paid, and the task released, only when no relayer transaction for the call may still land;
   and own gas after a sponsored call only when that call can never land.
   */
  lemma {:induction false} NeverPaysOrReleasesWhileOut(states: seq<System>, events: seq<Event>)
    requires IsRun(states, events) && ReadsAnswer(states, events)
    ensures forall i :: 0 <= i < |states| ==> Guarded(states[i])
    ensures forall i :: 0 <= i < |events| && (events[i].PaysOwnGas? || events[i].AsksRelease?) ==> states[i].relay != Out
    ensures forall i :: 0 <= i < |events| && events[i].PaysOwnGas? && states[i].worker.result == Some(UseOwnGas)
              ==> states[i].relay in {NotAsked, Dead}
    decreases |events|
  {
    if events == [] {
    } else {
      var n := |events| - 1;
      var ss, es := states[..n + 1], events[..n];
      assert forall i :: 0 <= i <= n ==> ss[i] == states[i];
      assert forall i :: 0 <= i < n ==> es[i] == events[i];
      NeverPaysOrReleasesWhileOut(ss, es);
      StepKeepsGuarded(states[n], events[n]);
    }
  }

  // ---- What an outcome means ------------------------------------------------------------------

  /** In every run, whatever can be read: a call reported as landed has landed. */
  lemma {:induction false} ReportedLandedHasLanded(states: seq<System>, events: seq<Event>)
    requires IsRun(states, events)
    ensures forall i :: 0 <= i < |states| && states[i].worker.result == Some(CallLanded) ==> states[i].relay == Landed
    decreases |events|
  {
    if events == [] {
    } else {
      var n := |events| - 1;
      var ss, es := states[..n + 1], events[..n];
      assert forall i :: 0 <= i <= n ==> ss[i] == states[i];
      assert forall i :: 0 <= i < n ==> es[i] == events[i];
      ReportedLandedHasLanded(ss, es);
      assert Enabled(states[n], events[n]) && states[n + 1] == Step(states[n], events[n]);
    }
  }

  /** The call returns in this step. */
  predicate Returns(sys: System, ev: Event) { ev.Reads? && InCall(sys.worker.at) && !InCall(Next(sys.worker, ev.a).at) }

  /**
   Whenever a call returns on an answer that could be read, what it reports is what became of the
   relayer's transaction: landed, still out, or never to land.
   */
  lemma OutcomeIsTheRelays(sys: System, ev: Event)
    requires Enabled(sys, ev) && Returns(sys, ev) && (!sys.worker.at.Asking? ==> ev.a.status != Unreadable)
    ensures var next := Step(sys, ev);
            && (next.worker.result == Some(CallLanded) <==> next.relay == Landed)
            && (next.worker.result == Some(CallOut) <==> next.relay == Out)
            && (next.worker.result == Some(UseOwnGas) <==> next.relay in {NotAsked, Dead})
  {
  }

  /** The answer that ended the wait said so: the call landed. */
  predicate SaysLanded(at: At, a: Answer) {
    if at.Asking? then a.reply.Sent? else (at.FirstRead? || at.Waiting?) && a.status == Confirmed
  }

  /** The wait's time is over with the call not known to have ended. */
  predicate SaysOut(at: At, a: Answer) { at.Waiting? && a.status in {Pending, Unreadable} && a.stop }

  /** Nothing will land: a refusal that stands, a failed request with nothing out, or a failed transaction. */
  predicate SaysNever(at: At, a: Answer) {
    match at
    case Asking(n, retried) => a.reply.Refused? && (!a.reply.setupNoop || retried || n >= CALL_ATTEMPTS)
    case AfterError => a.status !in {Pending, Confirmed}
    case Waiting => a.status in {Failed, NothingOut}
    case _ => false
  }

  /** An answer read in the call ends it exactly when it says how, and then the call reports just that. */
  lemma OneAnswer(w: Worker, a: Answer)
    requires InCall(w.at) && w.result == None && (w.at.Asking? ==> 1 <= w.at.attempt <= CALL_ATTEMPTS)
    ensures var next := Next(w, a);
            && (InCall(next.at) <==> !SaysLanded(w.at, a) && !SaysOut(w.at, a) && !SaysNever(w.at, a))
            && (next.result == Some(CallLanded) <==> SaysLanded(w.at, a))
            && (next.result == Some(CallOut) <==> SaysOut(w.at, a))
            && (next.result == Some(UseOwnGas) <==> SaysNever(w.at, a))
            && next.reserved == (w.reserved && (InCall(next.at) || SaysOut(w.at, a)))
            && (next.at.OwnGas? <==> SaysNever(w.at, a) && !next.marker)
  {
  }

  /**
   A call ends with the first answer that says how, reports just that, and gives up the task's
   reservation unless the call is still out.
   */
  lemma CallEndsWithTheFirstAnswerThatSays(start: Worker, answers: nat -> Answer, n: nat)
    requires ReturnsAt(start, answers, n)
    ensures var w := After(start, answers, n);
            var at, a := After(start, answers, n - 1).at, answers(n - 1);
            && (w.result == Some(CallLanded) <==> SaysLanded(at, a)) && (w.result == Some(CallOut) <==> SaysOut(at, a))
            && (w.result == Some(UseOwnGas) <==> SaysNever(at, a))
            && w.reserved == (start.reserved && w.result == Some(CallOut))
            && (w.at.OwnGas? <==> w.result == Some(UseOwnGas) && !w.marker)
    ensures forall k :: 0 <= k < n - 1 ==> !Says(After(start, answers, k).at, answers(k))
  {
    AskingKeepsReserved(start, answers, n - 1);
    OneAnswer(After(start, answers, n - 1), answers(n - 1));
    forall k | 0 <= k < n - 1
      ensures !Says(After(start, answers, k).at, answers(k))
    {
      AskingKeepsReserved(start, answers, k);
      assert InCall(After(start, answers, k + 1).at);
      OneAnswer(After(start, answers, k), answers(k));
    }
  }

  predicate Says(at: At, a: Answer) { SaysLanded(at, a) || SaysOut(at, a) || SaysNever(at, a) }

  /** A call is reported as landed only after an answer said so: the one of this index. */
  lemma {:induction false} LandedWasSaid(start: Worker, answers: nat -> Answer, n: nat) returns (k: nat)
    requires start.result == None && After(start, answers, n).result == Some(CallLanded)
    ensures k < n && SaysLanded(After(start, answers, k).at, answers(k))
  {
    if n == 0 {
      assert false;
    } else {
      var w := After(start, answers, n - 1);
      OneLanding(w, answers(n - 1));
      if SaysLanded(w.at, answers(n - 1)) {
        k := n - 1;
      } else {
        k := LandedWasSaid(start, answers, n - 1);
      }
    }
  }

  lemma OneLanding(w: Worker, a: Answer)
    ensures Next(w, a).result == Some(CallLanded) ==> w.result == Some(CallLanded) || SaysLanded(w.at, a)
  {
  }

  lemma {:induction false} AskingKeepsReserved(start: Worker, answers: nat -> Answer, k: nat)
    requires start.at == FirstRead && start.result == None
    requires forall j :: 0 <= j <= k ==> InCall(After(start, answers, j).at)
    ensures var w := After(start, answers, k);
            && w.reserved == start.reserved && w.result == None
            && (w.at.Asking? ==> 1 <= w.at.attempt <= CALL_ATTEMPTS)
  {
    if k == 0 {
    } else {
      AskingKeepsReserved(start, answers, k - 1);
    }
  }

  /** Requests: made, timed out, and refused for a set-up that did nothing. */
  datatype Counts = Counts(asked: nat, timedOut: nat, noops: nat)

  /** The requests among the first `n` answers. */
  function Asked(start: Worker, answers: nat -> Answer, n: nat): Counts {
    if n == 0 then Counts(0, 0, 0)
    else CountedWith(After(start, answers, n - 1).at, answers(n - 1), Asked(start, answers, n - 1))
  }

  function CountedWith(at: At, a: Answer, counts: Counts): Counts {
    if !at.Asking? then counts
    else Counts(counts.asked + 1,
                counts.timedOut + (if a.reply.NoAnswer? && a.reply.timedOut then 1 else 0),
                counts.noops + (if a.reply.Refused? && a.reply.setupNoop then 1 else 0))
  }

  /** The worker asks for the attempt after those counted, and has put the set-up right at most once. */
  predicate CountsAre(at: At, counts: Counts) {
    && counts.asked <= CALL_ATTEMPTS
    && (at.Asking? ==>
          && at.attempt == counts.asked + 1 <= CALL_ATTEMPTS
          && counts.asked == counts.timedOut + counts.noops
          && counts.noops == (if at.setupRetried then 1 else 0))
    && (at.FirstRead? ==> counts == Counts(0, 0, 0))
  }

  lemma OneAnswerIsCounted(w: Worker, a: Answer, counts: Counts)
    requires InCall(w.at) && CountsAre(w.at, counts) && InCall(Next(w, a).at)
    ensures CountsAre(Next(w, a).at, CountedWith(w.at, a, counts))
    ensures var now := CountedWith(w.at, a, counts);
            w.at.Asking? ==> (Next(w, a).at.Asking? <==> AskedAgain(a.reply, now))
  {
  }

  /** A request that timed out, or the first whose set-up did nothing, is made again while there are fewer than five. */
  predicate AskedAgain(reply: Reply, counts: Counts) {
    counts.asked < CALL_ATTEMPTS && ((reply.NoAnswer? && reply.timedOut) || (reply.Refused? && reply.setupNoop && counts.noops == 1))
  }

  /**
   A request is made again after every one that timed out, and once after a set-up that did nothing,
   while there are fewer than five: and never more than five.
   */
  lemma {:induction false} AsksAgainExactly(start: Worker, answers: nat -> Answer, n: nat)
    requires start.at == FirstRead && start.result == None
    requires forall j :: 0 <= j <= n ==> InCall(After(start, answers, j).at)
    ensures CountsAre(After(start, answers, n).at, Asked(start, answers, n))
    ensures n > 0 && After(start, answers, n - 1).at.Asking? ==>
              (After(start, answers, n).at.Asking? <==> AskedAgain(answers(n - 1).reply, Asked(start, answers, n)))
  {
    if n == 0 {
    } else {
      AsksAgainExactly(start, answers, n - 1);
      var w := After(start, answers, n - 1);
      assert InCall(w.at) && InCall(After(start, answers, n).at);
      OneAnswerIsCounted(w, answers(n - 1), Asked(start, answers, n - 1));
    }
  }

  /**
   The status read after a failed request decides: with the relayer's transaction out and no
   marker, the worker goes on to pay its own gas exactly when that read is unreadable, where
   the code's comment says to hold.
   */
  lemma UnreadableStatusPaysTwice(sys: System, a: Answer)
    requires sys.worker.at == AfterError && !sys.worker.marker && sys.relay == Out
    requires Enabled(sys, Reads(a, false))
    ensures var next := Step(sys, Reads(a, false));
            Enabled(next, PaysOwnGas) && next.relay == Out <==> a.status == Unreadable
  {
  }

  function StepAll(sys: System, events: seq<Event>): System
    decreases |events|
  {
    if events == [] then sys else StepAll(Step(sys, events[0]), events[1..])
  }

  predicate EnabledAll(sys: System, events: seq<Event>)
    decreases |events|
  {
    events == [] || (Enabled(sys, events[0]) && EnabledAll(Step(sys, events[0]), events[1..]))
  }

  const FRESH: System := System(NotAsked, Worker(Idle, false, false, None))

  function Read(status: Status): Event { Reads(Answer(status, StillOut, true), false) }

  /** A run that gets there: the request is taken on, its answer is lost, and the status cannot be read. */
  lemma UnreadableStatusIsReached()
    ensures var events := [Reserves, StartsBroadcast, Read(NothingOut), Reads(Answer(Unreadable, NoAnswer(false), true), true), Read(Unreadable)];
            EnabledAll(FRESH, events) && StepAll(FRESH, events).relay == Out && Enabled(StepAll(FRESH, events), PaysOwnGas)
  {
    var s1 := Step(FRESH, Reserves);
    var s2 := Step(s1, StartsBroadcast);
    var s3 := Step(s2, Read(NothingOut));
    var s4 := Step(s3, Reads(Answer(Unreadable, NoAnswer(false), true), true));
    var s5 := Step(s4, Read(Unreadable));
    var e4, e5 := [Read(Unreadable)], [Reads(Answer(Unreadable, NoAnswer(false), true), true), Read(Unreadable)];
    var e3 := [Read(NothingOut)] + e5;
    var e2 := [StartsBroadcast] + e3;
    assert EnabledAll(s4, e4) && StepAll(s4, e4) == s5;
    assert e5[1..] == e4 && e3[1..] == e5 && e2[1..] == e3;
    assert EnabledAll(s3, e5) && StepAll(s3, e5) == s5;
    assert EnabledAll(s2, e3) && StepAll(s2, e3) == s5;
    assert EnabledAll(s1, e2) && StepAll(s1, e2) == s5;
    assert [Reserves, StartsBroadcast, Read(NothingOut), Reads(Answer(Unreadable, NoAnswer(false), true), true), Read(Unreadable)][1..] == e2;
  }

  /**
   A process that starts again has forgotten the marker: its next broadcast of the task pays own gas with
   a transaction out exactly when one is and the task is not reserved again, and it may ask for release.
   */
  lemma RestartWhileOutPaysTwice(relay: Relay, reserved: bool)
    ensures var start := System(relay, Worker(Idle, false, reserved, None));
            var next := Step(start, StartsBroadcast);
            && Enabled(start, StartsBroadcast) && Enabled(start, AsksRelease)
            && ((Enabled(next, PaysOwnGas) && next.relay == Out) <==> (relay == Out && !reserved))
  {
  }

  // ---- The marker -----------------------------------------------------------------------------

  /** The call that began at `start` returns with its n-th answer. */
  ghost predicate ReturnsAt(start: Worker, answers: nat -> Answer, n: nat) {
    && start.at == FirstRead && start.result == None && n > 0
    && (forall k :: 0 <= k < n ==> InCall(After(start, answers, k).at))
    && !InCall(After(start, answers, n).at)
  }

  lemma {:induction false} MarkerWhileAsking(start: Worker, answers: nat -> Answer, k: nat)
    requires start.at == FirstRead && start.result == None
    requires forall j :: 0 <= j <= k ==> InCall(After(start, answers, j).at)
    ensures var w := After(start, answers, k);
            !w.at.Waiting? ==> w.marker == start.marker && (k > 0 ==> !w.at.FirstRead?)
  {
    if k == 0 {
    } else {
      MarkerWhileAsking(start, answers, k - 1);
    }
  }

  /**
   The marker is set exactly on a pending outcome, unless it was already set when the call began
   and the last answer read was not one waited for, nor a 200 to a request. Then it stays set
   although nothing is out.
   */
  lemma MarkerIsExactUnlessStale(start: Worker, answers: nat -> Answer, n: nat)
    requires ReturnsAt(start, answers, n)
    ensures var w := After(start, answers, n);
            var last := After(start, answers, n - 1).at;
            && w.result.Some?
            && ((w.marker <==> w.result == Some(CallOut))
                <==> !(start.marker && !last.Waiting? && !(last.Asking? && answers(n - 1).reply.Sent?)))
  {
    MarkerWhileAsking(start, answers, n - 1);
  }

  /**
   A marker left set blocks the task: until the task is reserved again, no broadcast pays own
   gas, none asks the relayer, and no release is asked for, whatever the relayer does.
   */
  lemma {:induction false} StaleMarkerBlocks(states: seq<System>, events: seq<Event>, i: nat, j: nat)
    requires IsRun(states, events) && i <= j < |states|
    requires states[i].worker.at == Idle && states[i].worker.marker && !states[i].worker.reserved
    requires forall k :: i <= k < j ==> !events[k].Reserves?
    ensures states[j].worker.at == Idle && states[j].worker.marker && !states[j].worker.reserved
    ensures forall k :: i <= k < j ==> !events[k].PaysOwnGas? && !events[k].AsksRelease? && !events[k].Reads?
    decreases j - i
  {
    if i < j {
      assert Enabled(states[i], events[i]) && states[i + 1] == Step(states[i], events[i]);
      StaleMarkerBlocks(states, events, i + 1, j);
    }
  }

  /** It happens: a call waited on, dead by the next broadcast, and a refused second request. */
  lemma StaleMarkerIsReached()
    ensures var asked := StepAll(FRESH, [Reserves, StartsBroadcast, Read(NothingOut)]);
            var waited := Step(Step(asked, Reads(Answer(Unreadable, StillOut, true), true)), Read(Pending));
            var dead := Step(waited, RelayDies);
            var again := Step(Step(dead, StartsBroadcast), Read(Failed));
            var end := Step(again, Reads(Answer(Unreadable, Refused(false), true), false));
            && EnabledAll(FRESH, [Reserves, StartsBroadcast, Read(NothingOut)])
            && Enabled(asked, Reads(Answer(Unreadable, StillOut, true), true))
            && Enabled(dead, StartsBroadcast)
            && Enabled(again, Reads(Answer(Unreadable, Refused(false), true), false))
            && end == System(Dead, Worker(Idle, true, false, Some(UseOwnGas)))
  {
    assert [Reserves, StartsBroadcast, Read(NothingOut)][1..] == [StartsBroadcast, Read(NothingOut)];
    assert [StartsBroadcast, Read(NothingOut)][1..] == [Read(NothingOut)];
    var s2 := Step(Step(FRESH, Reserves), StartsBroadcast);
    assert EnabledAll(s2, [Read(NothingOut)]);
    assert StepAll(s2, [Read(NothingOut)]) == Step(s2, Read(NothingOut));
  }
}
