/**
 Picks over whole runs: when no pick is signed while an earlier one of the same task may land. Exactly
 when no pick found twice in a pass, none met by a 25th list without its task, and no task under two texts.
 */
module JudgePicks {
  import opened Wrappers
  import opened EscrowTx
  import opened JudgeRecord
  import opened JudgeHistory
  import opened Ranking

  /** What may land of this record's transactions, just before a pick is signed in this event. */
  function SignedIn(s: System, e: Event): Option<set<string>> {
    match e
    case Sends(now, io, lookup, a) =>
      var held := s.task.turn.held;
      if held.Some? && Signs(HeldPick(held.value, now), io, lookup, a)
      then Some(LookedUp(s.tally.outstanding, HeldPick(held.value, now), lookup)) else None
    case Judges(now, io, busy, a) =>
      if Reaches(s.task.record, busy) && a.Winner? && Signs(NewPick(a, now), io, Unknown, a.answer)
      then Some(s.tally.outstanding) else None
    case _ => None
  }

  /** A pass finds the pick ready at most `m` times on its list, and a sent pick meets at most `k` lists without its task. */
  ghost predicate IsWithin(start: Record, events: seq<Event>, k: nat, m: nat) {
    forall i :: 0 <= i <= |events| ==> After(start, events[..i]).task.turn.found <= m && After(start, events[..i]).tally.missed <= k
  }

  // ---- Safe -----------------------------------------------------------------------------------

  /** Every transaction that may still land is the one remembered with the pick, and the one found with it. */
  predicate Remembered(s: System) {
    var r, turn, out := s.task.record, s.task.turn, s.tally.outstanding;
    && out <= HashOf(r.picked)
    && (r.picked.Some? ==> r.picked.value.lookups <= s.tally.missed)
    && (turn.ready > 0 ==> turn.held.Some? && out <= HashOf(turn.held) && turn.held.value.lookups <= s.tally.missed)
  }

  /** At most one is to be sent in this pass, and then the task is not to be judged. */
  predicate OneAtMost(t: Task) {
    var r, turn := t.record, t.turn;
    && turn.ready <= 1
    && (turn.stage == Begun ==> turn.ready == 0 && turn.toJudge == 0)
    && (turn.stage in {Begun, OnList} ==> turn.ready <= turn.found)
    && (turn.toJudge > 0 ==> turn.ready == 0 && r.picked.None?)
    && (turn.ready > 0 && turn.stage !in {Sending, Judging} ==> Settled(r))
  }

  lemma SendingRemembers(r: Record, pick: Pick, out: set<string>, io: Io, lookup: Lookup, a: SelectAnswer)
    requires r.picked == Some(pick) && out <= HashOf(Some(pick))
    ensures var after := SendPick(r, pick, io, lookup, a);
            && Signed(LookedUp(out, pick, lookup), pick, io, lookup, a) <= HashOf(after.picked)
            && (after.picked.Some? ==> after.picked.value.lookups == pick.lookups)
    ensures Signs(pick, io, lookup, a) ==> LookedUp(out, pick, lookup) == {}
  {
  }

  lemma LooksRemembers(s: System, e: Event)
    requires e.Looks? && Possible(s.task, e) && Remembered(s) && OneAtMost(s.task) && Step(s, e).task.turn.found <= 1
    ensures Remembered(Step(s, e)) && OneAtMost(Step(s, e).task)
  {
    LookingIsFree(s.task.record, e.now, e.seen);
  }

  lemma LeavesRemembers(s: System, e: Event)
    requires e.Leaves? && Possible(s.task, e) && Remembered(s) && OneAtMost(s.task) && Step(s, e).tally.missed <= MAX_UNLISTED_LOOKUPS
    ensures Remembered(Step(s, e)) && OneAtMost(Step(s, e).task)
  {
    var r := s.task.record;
    if IsSentPick(r.picked) {
      assert r.picked.value.lookups + 1 <= MAX_UNLISTED_LOOKUPS;
    }
  }

  lemma SendsRemembers(s: System, e: Event)
    requires e.Sends? && Possible(s.task, e) && Remembered(s) && OneAtMost(s.task)
    ensures Remembered(Step(s, e)) && OneAtMost(Step(s, e).task)
    ensures SignedIn(s, e).Some? ==> SignedIn(s, e).value == {}
  {
    var pick := HeldPick(s.task.turn.held.value, e.now);
    SendingRemembers(s.task.record.(picked := Some(pick)), pick, s.tally.outstanding, e.io, e.lookup, e.answer);
  }

  lemma JudgesRemembers(s: System, e: Event)
    requires e.Judges? && Possible(s.task, e) && Remembered(s) && OneAtMost(s.task)
    ensures Remembered(Step(s, e)) && OneAtMost(Step(s, e).task)
    ensures SignedIn(s, e).Some? ==> SignedIn(s, e).value == {}
  {
    var r := s.task.record;
    assert s.tally.outstanding == {};
    if e.verdict.Winner? && Reaches(r, e.busy) {
      var pick := NewPick(e.verdict, e.now);
      SendingRemembers(r.(yielded := 0, picked := Some(pick)), pick, {}, e.io, Unknown, e.verdict.answer);
    }
  }

  lemma StepRemembers(s: System, e: Event)
    requires Possible(s.task, e) && Remembered(s) && OneAtMost(s.task)
    requires Step(s, e).task.turn.found <= 1 && Step(s, e).tally.missed <= MAX_UNLISTED_LOOKUPS
    ensures Remembered(Step(s, e)) && OneAtMost(Step(s, e).task)
    ensures SignedIn(s, e).Some? ==> SignedIn(s, e).value == {}
  {
    match e
    case Begins(_) =>
    case Looks(_, _) => LooksRemembers(s, e);
    case Leaves(_) => LeavesRemembers(s, e);
    case Sends(_, _, _, _) => SendsRemembers(s, e);
    case Judges(_, _, _, _) => JudgesRemembers(s, e);
  }

  lemma PrefixIsWithin(start: Record, events: seq<Event>, k: nat, m: nat, n: nat)
    requires IsWithin(start, events, k, m) && n <= |events|
    ensures IsWithin(start, events[..n], k, m)
  {
    assert forall i :: 0 <= i <= n ==> events[..n][..i] == events[..i];
  }

  lemma {:induction false} RunRemembers(start: Record, events: seq<Event>)
    requires IsRun(start, events) && IsWithin(start, events, MAX_UNLISTED_LOOKUPS, 1)
    ensures Remembered(After(start, events)) && OneAtMost(After(start, events).task)
  {
    if events == [] {
    } else {
      var last := |events| - 1;
      PrefixIsRun(start, events, last);
      PrefixIsWithin(start, events, MAX_UNLISTED_LOOKUPS, 1, last);
      RunRemembers(start, events[..last]);
      assert events[..|events|] == events;
      StepRemembers(After(start, events[..last]), events[last]);
    }
  }

  /**
   In every run in which no pass finds the pick ready twice and no sent pick meets a 25th list without its
   task: whenever a pick is signed, every one signed before it has since been looked up and found failed
   or unknown.
   */
  lemma NothingSignedWhileOneMayLand(start: Record, events: seq<Event>, e: Event)
    requires IsRun(start, events + [e]) && IsWithin(start, events + [e], MAX_UNLISTED_LOOKUPS, 1)
    ensures SignedIn(After(start, events), e).Some? ==> SignedIn(After(start, events), e).value == {}
    ensures After(start, events).tally.outstanding <= HashOf(After(start, events).task.record.picked)
  {
    var all := events + [e];
    assert all[..|events|] == events && all[|events|] == e && all[..|all|] == all;
    PrefixIsRun(start, all, |events|);
    PrefixIsWithin(start, all, MAX_UNLISTED_LOOKUPS, 1, |events|);
    RunRemembers(start, events);
    AfterOneMore(start, events, e);
    StepRemembers(After(start, events), e);
  }

  /** What is signed pays the judged winner and anchors its own scorecard, on this task. */
  lemma SignedPickIsTheJudgedOne(pick: Pick, io: Io, lookup: Lookup, a: SelectAnswer)
    requires Signs(pick, io, lookup, a)
    ensures io.onChainTaskId.Some? && a.tx.Some? && a.tx.value.call.Some?
    ensures IsCall(a.tx.value.call.value, Call("selectWinnerByVerifier", io.onChainTaskId.value, [pick.winner, pick.card]))
    ensures a.tx.value.value in {NoValue, Wei(0)}
  {
  }

  // ---- Runs built event by event --------------------------------------------------------------

  /** This can happen to a task nothing is known of. */
  ghost predicate Happened(events: seq<Event>, k: nat, m: nat) {
    IsRun(NOTHING, events) && IsWithin(NOTHING, events, k, m)
  }

  /** Where such a run leads. */
  ghost predicate LeadsTo(events: seq<Event>, s: System, k: nat, m: nat) { Happened(events, k, m) && After(NOTHING, events) == s }

  lemma OneMoreHappens(events: seq<Event>, s: System, e: Event, k: nat, m: nat) returns (all: seq<Event>, t: System)
    requires LeadsTo(events, s, k, m) && Possible(s.task, e)
    requires Step(s, e).task.turn.found <= m && Step(s, e).tally.missed <= k
    ensures LeadsTo(all, t, k, m) && all == events + [e] && t == Step(s, e)
  {
    all, t := events + [e], Step(s, e);
    OneMoreIsRun(NOTHING, events, e);
    AfterOneMore(NOTHING, events, e);
    forall i | 0 <= i <= |all|
      ensures After(NOTHING, all[..i]).task.turn.found <= m && After(NOTHING, all[..i]).tally.missed <= k
    {
      if i <= |events| {
        assert all[..i] == events[..i];
      } else {
        assert all[..i] == all;
      }
    }
  }

  lemma ThisHappens(events: seq<Event>, s: System, e: Event, k: nat, m: nat)
    requires LeadsTo(events, s, k, m) && Possible(s.task, e)
    requires Step(s, e).task.turn.found <= m && Step(s, e).tally.missed <= k
    ensures Happened(events + [e], k, m)
  {
    var all, t := OneMoreHappens(events, s, e, k, m);
  }

  lemma IsNowWithin(events: seq<Event>, s: System, k: nat, m: nat)
    requires LeadsTo(events, s, k, m)
    ensures s.task.turn.found <= m && s.tally.missed <= k
  {
    assert events[..|events|] == events;
  }

  const IO := Io(Expected(true, Some("agent"), Some(1), Some("escrow")), Some(7))

  /** The server's transaction, broadcast as `hash` with no answer. */
  function Broadcast(hash: string): SelectAnswer {
    Built(Some(Tx(Some("agent"), 1, "escrow", NoValue, Some(Call("selectWinnerByVerifier", 7, ["w", "c"])))), Broke(None, Some(hash)))
  }

  function Signing(hash: string): Event { Judges(0, IO, false, Winner("w", "c", Broadcast(hash))) }

  lemma BroadcastIsSigned(hash: string, at: Pick, lookup: Lookup)
    requires at.winner == "w" && at.card == "c" && at.txHash.None?
    ensures Signs(at, IO, lookup, Broadcast(hash))
  {
    assert SameText("w", "w") && SameText("c", "c") && SameText("agent", "agent") && SameText("escrow", "escrow");
  }

  /** The task named on the list, its window open: it is to be judged. */
  lemma IsToBeJudged(events: seq<Event>, s: System, k: nat, m: nat) returns (all: seq<Event>, t: System)
    requires LeadsTo(events, s, k, m) && s.task.record == NOTHING
    ensures LeadsTo(all, t, k, m) && t == s.(task := Task(NOTHING, Turn(OnList, None, 0, 0, 1)))
    ensures all == events + [Begins(false)] + [Looks(0, OPEN)]
  {
    IsNowWithin(events, s, k, m);
    all, t := OneMoreHappens(events, s, Begins(false), k, m);
    assert t == s.(task := Task(NOTHING, BEGUN));
    all, t := OneMoreHappens(all, t, Looks(0, OPEN), k, m);
  }

  lemma SigningStep(s: System, hash: string)
    requires s.task == Task(NOTHING, Turn(OnList, None, 0, 0, 1))
    ensures SignedIn(s, Signing(hash)) == Some(s.tally.outstanding)
    ensures var t := Step(s, Signing(hash));
            && t.task == Task(Pended(hash, 0), Turn(Judging, None, 0, 0, 0))
            && t.tally.missed == 0 && t.tally.outstanding == s.tally.outstanding + {hash}
  {
    BroadcastIsSigned(hash, Pick("w", "c", None, 0, 0), Unknown);
  }

  /** Judged, and its pick broadcast with no answer. */
  lemma IsBroadcast(hash: string, k: nat, m: nat) returns (all: seq<Event>, t: System)
    ensures LeadsTo(all, t, k, m) && t.task.record == Pended(hash, 0) && t.task.turn.found == 0
    ensures t.tally.outstanding == {hash} && t.tally.missed == 0
  {
    all, t := IsToBeJudged([], Start(NOTHING), k, m);
    SigningStep(t, hash);
    all, t := OneMoreHappens(all, t, Signing(hash), k, m);
  }

  /** A pick whose transaction is out, after `n` lists without its task. */
  function Pended(hash: string, n: nat): Record { NOTHING.(picked := Some(Pick("w", "c", Some(hash), n, 0))) }

  // ---- A sent pick let go ---------------------------------------------------------------------

  lemma PendingSteps(s: System, hash: string, n: nat)
    requires n < MAX_UNLISTED_LOOKUPS && s.task.record == Pended(hash, n) && s.tally.outstanding == {hash} && s.tally.missed == n
    ensures var begun := Step(s, Begins(false));
            var left := Step(begun, Leaves(false));
            var sent := Step(left, Sends(0, IO, Pending, NoAnswer));
            && begun.task == Task(Pended(hash, n), BEGUN) && begun.tally == s.tally
            && left.task == Task(Pended(hash, n + 1), Turn(OffList, Pended(hash, n + 1).picked, 0, 1, 0)) && left.tally.missed == n + 1
            && sent.task == Task(Pended(hash, n + 1), Turn(Sending, Pended(hash, n + 1).picked, 0, 0, 0))
            && sent.tally.outstanding == {hash} && sent.tally.missed == n + 1
  {
  }

  /** One more list in part without the task, and the transaction still pending. */
  lemma OneMorePending(events: seq<Event>, s: System, hash: string, n: nat, k: nat, m: nat) returns (all: seq<Event>, t: System)
    requires LeadsTo(events, s, k, m) && n < MAX_UNLISTED_LOOKUPS && n < k
    requires s.task.record == Pended(hash, n) && s.tally.outstanding == {hash} && s.tally.missed == n
    ensures LeadsTo(all, t, k, m)
    ensures t.task.record == Pended(hash, n + 1) && t.tally.outstanding == {hash} && t.tally.missed == n + 1
  {
    PendingSteps(s, hash, n);
    all, t := OneMoreHappens(events, s, Begins(false), k, m);
    all, t := OneMoreHappens(all, t, Leaves(false), k, m);
    all, t := OneMoreHappens(all, t, Sends(0, IO, Pending, NoAnswer), k, m);
  }

  lemma {:induction false} PendingFor(hash: string, n: nat, k: nat, m: nat) returns (events: seq<Event>, s: System)
    requires n <= MAX_UNLISTED_LOOKUPS && n <= k
    ensures LeadsTo(events, s, k, m)
    ensures s.task.record == Pended(hash, n) && s.tally.outstanding == {hash} && s.tally.missed == n
  {
    if n == 0 {
      events, s := IsBroadcast(hash, k, m);
    } else {
      events, s := PendingFor(hash, n - 1, k, m);
      events, s := OneMorePending(events, s, hash, n - 1, k, m);
    }
  }

  /**
   A pick looked up on 24 lists in part without its task, still pending; the 25th drops it, and the task,
   listed again, is judged and signed while the first transaction may land.
   */
  lemma LettingGoSignsTwice(first: string, second: string, k: nat, m: nat) returns (events: seq<Event>, s: System)
    requires k > MAX_UNLISTED_LOOKUPS
    ensures LeadsTo(events, s, k, m) && Happened(events + [Signing(second)], k, m)
    ensures SignedIn(s, Signing(second)) == Some({first})
  {
    events, s := PendingFor(first, MAX_UNLISTED_LOOKUPS, k, m);
    events, s := OneMoreHappens(events, s, Begins(false), k, m);
    assert s.task == Task(Pended(first, MAX_UNLISTED_LOOKUPS), BEGUN);
    events, s := OneMoreHappens(events, s, Leaves(false), k, m);
    assert s.task.record == NOTHING && s.tally.outstanding == {first};
    events, s := IsToBeJudged(events, s, k, m);
    SigningStep(s, second);
    ThisHappens(events, s, Signing(second), k, m);
  }

  // ---- A task named twice ---------------------------------------------------------------------

  function Resending(hash: string): Event { Sends(0, IO, Pending, Broadcast(hash)) }

  const UNSENT := Pick("w", "c", None, 0, 0)

  lemma UnsentStep(s: System)
    requires s.task == Task(NOTHING, Turn(OnList, None, 0, 0, 1)) && s.tally.outstanding == {} && s.tally.missed == 0
    ensures var t := Step(s, UNPAID);
            && t.task == Task(NOTHING.(picked := Some(UNSENT)), Turn(Judging, None, 0, 0, 0))
            && t.tally.outstanding == {} && t.tally.missed == 0
  {
  }

  lemma FoundStep(s: System, n: nat)
    requires s.task.record == NOTHING.(picked := Some(UNSENT)) && s.task.turn.found == s.task.turn.ready == n && s.task.turn.toJudge == 0
    ensures Step(s, Looks(0, OPEN)) == s.(task := Task(s.task.record, Turn(OnList, Some(UNSENT), n + 1, n + 1, 0)))
  {
  }

  const UNPAID := Judges(0, IO, false, Winner("w", "c", NoGas))

  /** A pass that judges the task and cannot pay; and one whose list names it twice. */
  const FOUND_TWICE := [Begins(false)] + [Looks(0, OPEN)] + [UNPAID] + [Begins(false)] + [Looks(0, OPEN)] + [Looks(0, OPEN)]

  /** A pick not sent for want of gas, then found twice in a pass whose list names the task twice. */
  lemma IsFoundTwice(k: nat, m: nat) returns (events: seq<Event>, s: System)
    requires m >= 2
    ensures LeadsTo(events, s, k, m) && s.tally.outstanding == {} && s.tally.missed == 0 && events == FOUND_TWICE
    ensures s.task == Task(NOTHING.(picked := Some(UNSENT)), Turn(OnList, Some(UNSENT), 2, 2, 0))
  {
    events, s := IsToBeJudged([], Start(NOTHING), k, m);
    assert events == [Begins(false)] + [Looks(0, OPEN)];
    UnsentStep(s);
    events, s := OneMoreHappens(events, s, UNPAID, k, m);
    events, s := OneMoreHappens(events, s, Begins(false), k, m);
    assert s.task == Task(NOTHING.(picked := Some(UNSENT)), BEGUN);
    FoundStep(s, 0);
    events, s := OneMoreHappens(events, s, Looks(0, OPEN), k, m);
    FoundStep(s, 1);
    events, s := OneMoreHappens(events, s, Looks(0, OPEN), k, m);
  }

  /** Whatever became of the pick since it was found without a transaction, it is signed with no lookup. */
  lemma ResendingStep(s: System, hash: string)
    requires s.task.turn.held == Some(UNSENT) && s.task.turn.ready > 0
    ensures SignedIn(s, Resending(hash)) == Some(s.tally.outstanding)
    ensures var t := Step(s, Resending(hash));
            && t.task.turn == s.task.turn.(stage := Sending, ready := s.task.turn.ready - 1)
            && t.task.record.picked == Some(UNSENT.(txHash := Some(hash)))
            && t.tally == s.tally.(outstanding := s.tally.outstanding + {hash})
  {
    BroadcastIsSigned(hash, UNSENT, Pending);
  }

  /** It is sent twice as it was found, without a transaction: the second is signed without a look at the first. */
  lemma NamedTwiceSignsTwice(first: string, second: string, k: nat, m: nat) returns (events: seq<Event>, s: System)
    requires m >= 2
    ensures LeadsTo(events, s, k, m) && Happened(events + [Resending(second)], k, m) && events == FOUND_TWICE + [Resending(first)]
    ensures SignedIn(s, Resending(second)) == Some({first})
    ensures Step(s, Resending(second)).task.record.picked == Some(UNSENT.(txHash := Some(second)))
  {
    events, s := IsFoundTwice(k, m);
    ResendingStep(s, first);
    events, s := OneMoreHappens(events, s, Resending(first), k, m);
    assert s.tally.outstanding == {first};
    ResendingStep(s, second);
    ThisHappens(events, s, Resending(second), k, m);
  }

  /**
   What a second sending of the same find makes of the first: a winner just refused costs a second
   attempt, and a pick just landed is held again, its task done.
   */
  lemma FindingTwiceUndoes(r: Record, found: Pick, now: int, io: Io, status: nat, tx: Option<Tx>)
    requires found.txHash.None? && CheckUnsigned(tx, io.expected, WantedCall(io, HeldPick(found, now))).None?
    ensures var refused := Refused(status, "OWN_AGENT_PICK");
            SendFound(SendFound(r, found, now, io, Unknown, refused), found, now, io, Unknown, refused).attempts == r.attempts + 2
    ensures var twice := SendFound(SendFound(r, found, now, io, Unknown, Built(tx, Landed)), found, now, io, Unknown, NoGas);
            twice.done && twice.picked == Some(HeldPick(found, now))
  {
  }

  // ---- A task under two texts -----------------------------------------------------------------

  /** What happened to the records kept under one text. */
  function EventsFor(h: string, hs: seq<(string, Event)>): seq<Event> {
    if hs == [] then []
    else EventsFor(h, hs[..|hs| - 1]) + (if hs[|hs| - 1].0 == h then [hs[|hs| - 1].1] else [])
  }

  function TextsIn(hs: seq<(string, Event)>): set<string> { set i | 0 <= i < |hs| :: hs[i].0 }

  /** The lists name the task by at most `n` texts, which are one in lower case. */
  ghost predicate IsStory(hs: seq<(string, Event)>, k: nat, m: nat, n: nat) {
    && |TextsIn(hs)| <= n
    && (forall g, h :: g in TextsIn(hs) && h in TextsIn(hs) ==> SameText(g, h))
    && (forall h :: Happened(EventsFor(h, hs), k, m))
  }

  function StateOf(h: string, hs: seq<(string, Event)>): System { After(NOTHING, EventsFor(h, hs)) }

  /** If this signs a pick, nothing may land that was signed for the task before, under whichever text. */
  ghost predicate IsSafeAt(hs: seq<(string, Event)>, h: string, e: Event) {
    SignedIn(StateOf(h, hs), e).Some? ==>
      SignedIn(StateOf(h, hs), e).value == {} && forall g :: g != h ==> StateOf(g, hs).tally.outstanding == {}
  }

  lemma OneMoreFor(h: string, hs: seq<(string, Event)>, g: string, e: Event)
    ensures EventsFor(h, hs + [(g, e)]) == EventsFor(h, hs) + (if g == h then [e] else [])
    ensures TextsIn(hs + [(g, e)]) == TextsIn(hs) + {g}
  {
    var all := hs + [(g, e)];
    assert all[..|hs|] == hs;
    forall t
      ensures t in TextsIn(all) <==> t in TextsIn(hs) + {g}
    {
      if t in TextsIn(hs) {
        var i :| 0 <= i < |hs| && hs[i].0 == t;
        assert all[i].0 == t;
      }
      assert all[|hs|].0 == g;
    }
  }

  lemma {:induction false} NothingUnlessNamed(h: string, hs: seq<(string, Event)>)
    requires h !in TextsIn(hs)
    ensures EventsFor(h, hs) == []
  {
    if hs == [] {
    } else {
      var last := |hs| - 1;
      assert hs[last].0 in TextsIn(hs);
      forall t | t in TextsIn(hs[..last])
        ensures t in TextsIn(hs)
      {
        var i :| 0 <= i < last && hs[..last][i].0 == t;
        assert hs[i].0 == t;
      }
      NothingUnlessNamed(h, hs[..last]);
    }
  }

  function Under(h: string, events: seq<Event>): seq<(string, Event)> { seq(|events|, i requires 0 <= i < |events| => (h, events[i])) }

  lemma {:induction false} UnderIsFor(h: string, events: seq<Event>, hs: seq<(string, Event)>)
    ensures EventsFor(h, hs + Under(h, events)) == EventsFor(h, hs) + events
    ensures forall g :: g != h ==> EventsFor(g, hs + Under(h, events)) == EventsFor(g, hs)
    ensures TextsIn(hs + Under(h, events)) <= TextsIn(hs) + {h}
  {
    if events == [] {
      assert hs + Under(h, events) == hs;
    } else {
      var last := |events| - 1;
      UnderIsFor(h, events[..last], hs);
      assert hs + Under(h, events) == (hs + Under(h, events[..last])) + [(h, events[last])];
      forall g
        ensures EventsFor(g, hs + Under(h, events)) ==
                EventsFor(g, hs + Under(h, events[..last])) + (if g == h then [events[last]] else [])
      {
        OneMoreFor(g, hs + Under(h, events[..last]), h, events[last]);
      }
      OneMoreFor(h, hs + Under(h, events[..last]), h, events[last]);
      assert events == events[..last] + [events[last]];
    }
  }

  lemma NothingHappened(k: nat, m: nat)
    ensures Happened([], k, m)
  {
  }

  lemma EventsUnder(h: string, events: seq<Event>, g: string)
    ensures EventsFor(g, Under(h, events)) == if g == h then events else []
    ensures TextsIn(Under(h, events)) <= {h}
  {
    var none: seq<(string, Event)> := [];
    assert none + Under(h, events) == Under(h, events);
    UnderIsFor(h, events, none);
    assert [] + events == events;
  }

  /** A run under one text is a story of its task. */
  lemma UnderOneText(h: string, events: seq<Event>, s: System, e: Event, k: nat, m: nat, n: nat)
    requires n >= 1 && LeadsTo(events, s, k, m) && Happened(events + [e], k, m)
    ensures IsStory(Under(h, events) + [(h, e)], k, m, n) && StateOf(h, Under(h, events)) == s
  {
    var hs := Under(h, events);
    EventsUnder(h, events, h);
    OneMoreFor(h, hs, h, e);
    assert TextsIn(hs + [(h, e)]) == {h};
    forall g
      ensures Happened(EventsFor(g, hs + [(h, e)]), k, m)
    {
      EventsUnder(h, events, g);
      OneMoreFor(g, hs, h, e);
      if g != h {
        assert EventsFor(g, hs + [(h, e)]) == [];
        NothingHappened(k, m);
      }
    }
  }

  /** Within the limits, and under one text, every story is safe. */
  lemma OneTextIsSafe(hs: seq<(string, Event)>, h: string, e: Event, k: nat, m: nat)
    requires IsStory(hs + [(h, e)], k, m, 1) && k <= MAX_UNLISTED_LOOKUPS && m <= 1
    ensures IsSafeAt(hs, h, e)
  {
    var all := hs + [(h, e)];
    OneMoreFor(h, hs, h, e);
    SubsetOfSameSize({h}, TextsIn(all));
    assert Happened(EventsFor(h, hs) + [e], k, m);
    NothingSignedWhileOneMayLand(NOTHING, EventsFor(h, hs), e);
    forall g | g != h
      ensures StateOf(g, hs).tally.outstanding == {}
    {
      assert g !in TextsIn(all);
      NothingUnlessNamed(g, hs);
    }
  }

  /** In the pass after its pick was broadcast under one text, the task is to be judged under the other. */
  lemma UnderTwoTexts(first: string, k: nat, m: nat) returns (one: seq<Event>, two: seq<Event>, s: System, t: System)
    ensures LeadsTo(one, s, k, m) && s.tally.outstanding == {first}
    ensures LeadsTo(two, t, k, m) && t == Start(NOTHING).(task := Task(NOTHING, Turn(OnList, None, 0, 0, 1)))
  {
    one, s := IsBroadcast(first, k, m);
    one, s := OneMoreHappens(one, s, Begins(false), k, m);
    assert s.task == Task(Pended(first, 0), BEGUN);
    one, s := OneMoreHappens(one, s, Looks(0, ReadFailed), k, m);
    two, t := IsToBeJudged([], Start(NOTHING), k, m);
  }

  lemma EventsUnderBoth(g: string, h: string, one: seq<Event>, two: seq<Event>, t: string)
    requires g != h
    ensures EventsFor(t, Under(g, one) + Under(h, two)) == if t == g then one else if t == h then two else []
    ensures TextsIn(Under(g, one) + Under(h, two)) <= {g, h}
  {
    EventsUnder(g, one, t);
    UnderIsFor(h, two, Under(g, one));
    assert [] + two == two;
  }

  lemma BothTexts(g: string, h: string, one: seq<Event>, two: seq<Event>, e: Event, k: nat, m: nat, n: nat)
    requires n >= 2 && g != h && SameText(g, h) && Happened(one, k, m) && Happened(two + [e], k, m)
    ensures IsStory(Under(g, one) + Under(h, two) + [(h, e)], k, m, n)
  {
    var hs := Under(g, one) + Under(h, two);
    EventsUnderBoth(g, h, one, two, h);
    OneMoreFor(h, hs, h, e);
    SubsetOfSameSize(TextsIn(hs + [(h, e)]), {g, h});
    forall t
      ensures Happened(EventsFor(t, hs + [(h, e)]), k, m)
    {
      EventsUnderBoth(g, h, one, two, t);
      OneMoreFor(t, hs, h, e);
      if t == g {
        assert EventsFor(t, hs + [(h, e)]) == one;
      } else if t != h {
        assert EventsFor(t, hs + [(h, e)]) == [];
        NothingHappened(k, m);
      }
    }
  }

  lemma IsUnsafe(hs: seq<(string, Event)>, g: string, h: string, e: Event, first: string)
    requires g != h && SignedIn(StateOf(h, hs), e).Some? && StateOf(g, hs).tally.outstanding == {first}
    ensures !IsSafeAt(hs, h, e)
  {
    assert first in StateOf(g, hs).tally.outstanding;
  }

  /** The second is signed with nothing said of the first. */
  lemma TwoTextsSignTwice(first: string, second: string, k: nat, m: nat, n: nat) returns (hs: seq<(string, Event)>)
    requires n >= 2
    ensures IsStory(hs + [("T", Signing(second))], k, m, n) && !IsSafeAt(hs, "T", Signing(second))
    ensures StateOf("t", hs).tally.outstanding == {first} && SignedIn(StateOf("T", hs), Signing(second)) == Some({})
  {
    var one, two, s, t := UnderTwoTexts(first, k, m);
    SigningStep(t, second);
    ThisHappens(two, t, Signing(second), k, m);
    assert LowerCase("t") == LowerCase("T") == "t";
    BothTexts("t", "T", one, two, Signing(second), k, m, n);
    EventsUnderBoth("t", "T", one, two, "t");
    EventsUnderBoth("t", "T", one, two, "T");
    hs := Under("t", one) + Under("T", two);
    IsUnsafe(hs, "t", "T", Signing(second), first);
  }

  /** An unsafe end of a run under one text. */
  lemma UnsafeUnderOneText(events: seq<Event>, s: System, e: Event, first: string, k: nat, m: nat, n: nat)
    requires n >= 1 && LeadsTo(events, s, k, m) && Happened(events + [e], k, m) && SignedIn(s, e) == Some({first})
    ensures IsStory(Under("t", events) + [("t", e)], k, m, n) && !IsSafeAt(Under("t", events), "t", e)
  {
    UnderOneText("t", events, s, e, k, m, n);
    assert first in SignedIn(s, e).value;
  }

  /**
   No pick of a task is signed while an earlier one may land, whatever the answers: exactly when no pass
   finds its pick ready more than once on the list, no sent pick meets more than 24 lists without its
   task, and the lists name it by one text.
   */
  lemma SafeExactlyWhen(k: nat, m: nat, n: nat)
    requires n >= 1
    ensures (forall hs, h, e :: IsStory(hs + [(h, e)], k, m, n) ==> IsSafeAt(hs, h, e)) <==>
            k <= MAX_UNLISTED_LOOKUPS && m <= 1 && n <= 1
  {
    if k <= MAX_UNLISTED_LOOKUPS && m <= 1 && n <= 1 {
      forall hs, h, e | IsStory(hs + [(h, e)], k, m, n)
        ensures IsSafeAt(hs, h, e)
      {
        OneTextIsSafe(hs, h, e, k, m);
      }
    } else if k > MAX_UNLISTED_LOOKUPS {
      var events, s := LettingGoSignsTwice("1", "2", k, m);
      UnsafeUnderOneText(events, s, Signing("2"), "1", k, m, n);
    } else if m > 1 {
      var events, s := NamedTwiceSignsTwice("1", "2", k, m);
      UnsafeUnderOneText(events, s, Resending("2"), "1", k, m, n);
    } else {
      var hs := TwoTextsSignTwice("1", "2", k, m, n);
    }
  }
}
