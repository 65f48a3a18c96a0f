/**
 The open submissions of one task as the escrow sees them: what this agent signs may be mined at any
 later moment, in any order, and the escrow takes one submission of a wallet.
 */
module OpenEscrow {
  import opened Wrappers
  import opened EscrowTx
  import opened OpenRecord
  import Ranking
  import opened OpenBounds
  import opened OpenForgetting

  /** Something happens in the agent, or the `i`-th call it signed is mined. */
  datatype Happening = Agent(e: Event) | Mines(i: nat)

  /** The agent; the evidence of every result it made, and every call it signed; the submission taken, and how many were. */
  datatype World = World(system: System, made: set<string>, signed: seq<Call>, submitted: Option<Call>, taken: nat)

  /** The result sent in this event, and how sending it went. */
  function SendIn(r: Record, e: Event): Option<(Unsent, Send)> {
    if e.Resent? && r.unsent.Some? then Some((r.unsent.value, e.send))
    else if Made(e).Some? then Some((Made(e).value, e.check.run.send))
    else None
  }

  function SignedIn(r: Record, e: Event): Option<Call> {
    var sending := SendIn(r, e);
    if sending.Some? && Signs(sending.value.0, sending.value.1) then sending.value.1.answer.tx.value.call else None
  }

  /** The escrow takes one submission; any later one reverts. */
  function Taken(w: World, c: Call): World {
    if w.submitted.Some? then w else w.(submitted := Some(c), taken := w.taken + 1)
  }

  function AgentStep(w: World, e: Event): World {
    var r := w.system.record;
    var c := SignedIn(r, e);
    var after := w.(system := Step(w.system, e), made := w.made + if Made(e).Some? then {Made(e).value.evidence} else {});
    if c.None? then after
    else
      var signed := after.(signed := w.signed + [c.value]);
      if SendIn(r, e).value.1.answer.sending.Landed? then Taken(signed, c.value) else signed
  }

  function StepWorld(w: World, h: Happening): World {
    match h
    case Agent(e) => AgentStep(w, e)
    case Mines(i) => if i < |w.signed| then Taken(w, w.signed[i]) else w
  }

  /** A world in which an unsent result, if any, was signed for by these calls. */
  function BeginWorld(start: Record, signed: seq<Call>): World {
    World(Begin(start), if start.unsent.Some? then {start.unsent.value.evidence} else {}, signed, None, 0)
  }

  function AfterAll(start: Record, signed: seq<Call>, hs: seq<Happening>): World {
    if hs == [] then BeginWorld(start, signed)
    else StepWorld(AfterAll(start, signed, hs[..|hs| - 1]), hs[|hs| - 1])
  }

  /** What happened in the agent. */
  function EventsOf(hs: seq<Happening>): seq<Event> {
    if hs == [] then []
    else EventsOf(hs[..|hs| - 1]) + (if hs[|hs| - 1].Agent? then [hs[|hs| - 1].e] else [])
  }

  /** A submitOpen that commits this evidence. */
  predicate Commits(c: Call, evidence: string) { c.name == "submitOpen" && SameArgs(c.args, [evidence]) }

  predicate AllCommitHeld(start: Record, signed: seq<Call>) {
    signed != [] ==> start.unsent.Some? && forall i :: 0 <= i < |signed| ==> Commits(signed[i], start.unsent.value.evidence)
  }

  lemma {:induction false} AgentIsApart(start: Record, signed: seq<Call>, hs: seq<Happening>)
    ensures AfterAll(start, signed, hs).system == After(start, EventsOf(hs))
  {
    if hs == [] {
    } else {
      var front, h := hs[..|hs| - 1], hs[|hs| - 1];
      AgentIsApart(start, signed, front);
      if h.Agent? {
        AfterOneMore(start, EventsOf(front), h.e);
      } else {
        assert EventsOf(hs) == EventsOf(front);
      }
    }
  }

  /** Whatever is signed commits the evidence of the result that was sent. */
  lemma SignedCommits(r: Record, e: Event)
    requires SignedIn(r, e).Some?
    ensures SendIn(r, e).Some? && Commits(SignedIn(r, e).value, SendIn(r, e).value.0.evidence)
  {
  }

  lemma SigningSigns(u: Unsent, s: Send)
    requires Signs(u, s)
    ensures s.answer.tx.Some? && s.answer.tx.value.call.Some?
  {
  }

  // ---- In every run ---------------------------------------------------------------------------

  predicate IsOneOf(c: Call, made: set<string>) { exists e :: e in made && Commits(c, e) }

  /** Every call signed is for a result made, the submission is one of the calls, and the unsent result was made. */
  ghost predicate Kept(w: World) {
    && (forall i :: 0 <= i < |w.signed| ==> IsOneOf(w.signed[i], w.made))
    && (w.submitted.Some? ==> w.submitted.value in w.signed)
    && w.taken == One(w.submitted.Some?)
    && (w.system.record.unsent.Some? ==> w.system.record.unsent.value.evidence in w.made)
  }

  lemma UnsentIsMade(r: Record, e: Event)
    requires StepRecord(r, e).unsent.Some?
    ensures var evidence := StepRecord(r, e).unsent.value.evidence;
            (r.unsent.Some? && evidence == r.unsent.value.evidence) || (Made(e).Some? && evidence == Made(e).value.evidence)
  {
  }

  lemma StepIsKept(w: World, h: Happening)
    requires Kept(w)
    ensures Kept(StepWorld(w, h))
  {
    if h.Agent? {
      var r, after := w.system.record, StepWorld(w, h);
      if after.system.record.unsent.Some? {
        UnsentIsMade(r, h.e);
      }
      if SignedIn(r, h.e).Some? {
        SignedCommits(r, h.e);
      }
      forall i | 0 <= i < |after.signed|
        ensures IsOneOf(after.signed[i], after.made)
      {
        if i < |w.signed| {
          var e :| e in w.made && Commits(w.signed[i], e);
          assert e in after.made;
        } else {
          assert SendIn(r, h.e).value.0.evidence in after.made;
        }
      }
    }
  }

  lemma {:induction false} RunIsKept(start: Record, signed: seq<Call>, hs: seq<Happening>)
    requires AllCommitHeld(start, signed)
    ensures Kept(AfterAll(start, signed, hs))
  {
    if hs == [] {
      forall i | 0 <= i < |signed|
        ensures IsOneOf(signed[i], BeginWorld(start, signed).made)
      {
        assert start.unsent.value.evidence in BeginWorld(start, signed).made;
      }
    } else {
      RunIsKept(start, signed, hs[..|hs| - 1]);
      StepIsKept(AfterAll(start, signed, hs[..|hs| - 1]), hs[|hs| - 1]);
    }
  }

  /**
   Whatever is forgotten, moved or mined late, the submission taken commits a result this agent made.
   That it is one at most is the escrow's own rule (Taken), counted here.
   */
  lemma OneSubmissionOfAResultMade(start: Record, signed: seq<Call>, hs: seq<Happening>)
    requires AllCommitHeld(start, signed)
    ensures var w := AfterAll(start, signed, hs);
            && w.taken <= 1 && (w.taken == 1 <==> w.submitted.Some?)
            && (w.submitted.Some? ==> IsOneOf(w.submitted.value, w.made))
  {
    RunIsKept(start, signed, hs);
    var w := AfterAll(start, signed, hs);
    if w.submitted.Some? {
      var i :| 0 <= i < |w.signed| && w.signed[i] == w.submitted.value;
    }
  }

  // ---- Which result ---------------------------------------------------------------------------

  /** All that was signed, and so all that can be taken, commits the last result. */
  predicate CommitsTheLast(w: World) {
    && (forall i :: 0 <= i < |w.signed| ==> Commits(w.signed[i], w.system.tally.evidence))
    && (w.submitted.Some? ==> Commits(w.submitted.value, w.system.tally.evidence))
  }

  /** It does, and something signed or taken is of a result. */
  predicate IsOfTheOne(w: World, held: nat) {
    && CommitsTheLast(w)
    && (w.signed != [] || w.submitted.Some? ==> w.system.tally.produced + held >= 1)
  }

  lemma StepIsOfTheOne(w: World, h: Happening, held: nat)
    requires IsOfTheOne(w, held) && Counted(w.system.record, w.system.tally)
    requires w.system.record.unsent.Some? ==> w.system.tally.produced + held >= 1
    requires StepWorld(w, h).system.tally.produced + held <= 1
    ensures IsOfTheOne(StepWorld(w, h), held)
  {
    if h.Agent? {
      var r := w.system.record;
      if SignedIn(r, h.e).Some? {
        SignedCommits(r, h.e);
      }
      if Made(h.e).Some? {
        assert w.signed == [] && w.submitted.None?;
      }
    }
  }

  /** An unsent result was made, or held at the start. */
  lemma {:induction false} UnsentIsCounted(start: Record, events: seq<Event>)
    ensures var s := After(start, events);
            s.record.unsent.Some? ==> s.tally.produced + One(start.unsent.Some?) >= 1
  {
    if events == [] {
    } else {
      UnsentIsCounted(start, events[..|events| - 1]);
    }
  }

  /** These are the agent's events, the board's deadlines, and nothing was forgotten. */
  ghost predicate IsStory(start: Record, hs: seq<Happening>, marginSec: nat, given: set<int>) {
    var events := EventsOf(hs);
    && IsRun(start, events, marginSec) && NeverForgotten(start, events)
    && InTurn(events) && DeadlinesIn(start, events, given)
  }

  lemma FrontIsStory(start: Record, hs: seq<Happening>, marginSec: nat, given: set<int>)
    requires hs != [] && IsStory(start, hs, marginSec, given)
    ensures IsStory(start, hs[..|hs| - 1], marginSec, given)
  {
    var events, front := EventsOf(hs), EventsOf(hs[..|hs| - 1]);
    PrefixIsRun(start, events, marginSec, |front|);
    assert events[..|front|] == front;
    assert forall i :: 0 <= i < |front| ==> front[i] == events[i];
  }

  lemma {:induction false} RunIsOfTheOne(start: Record, signed: seq<Call>, hs: seq<Happening>, marginSec: nat, given: set<int>)
    requires AllCommitHeld(start, signed) && IsStory(start, hs, marginSec, given) && Within(given, marginSec)
    ensures IsOfTheOne(AfterAll(start, signed, hs), One(start.unsent.Some?))
  {
    if hs == [] {
    } else {
      var front := hs[..|hs| - 1];
      FrontIsStory(start, hs, marginSec, given);
      RunIsOfTheOne(start, signed, front, marginSec, given);
      AgentIsApart(start, signed, front);
      AgentIsApart(start, signed, hs);
      RunStaysCounted(start, EventsOf(front), marginSec);
      UnsentIsCounted(start, EventsOf(front));
      TwoRunsWithinTheMargin(start, EventsOf(hs), marginSec, given);
      StepIsOfTheOne(AfterAll(start, signed, front), hs[|hs| - 1], One(start.unsent.Some?));
    }
  }

  // ---- The exact condition --------------------------------------------------------------------

  const SELF := Expected(true, Some("a"), Some(1), Some("e"))

  /** Signed, and lost sight of. */
  function LostSight(nowSec: int, evidence: string): Send {
    Send(nowSec, SELF, Some(0), Unknown,
         Built(Some(Tx(Some("a"), 1, "e", NoValue, Some(Call("submitOpen", 0, [evidence])))), Broke(None, Some("h"))))
  }

  function SignedRun(start: int, deadline: int, evidence: string): Event {
    Checked(deadline, start * 1000, start * 1000, Go(Produced(evidence, LostSight(start, evidence))))
  }

  lemma SignedRunStep(w: World, start: int, deadline: int, evidence: string, marginSec: nat)
    requires IsFree(w.system.record, start * 1000) && deadline - start >= marginSec && start < deadline
    ensures Possible(w.system.record, SignedRun(start, deadline, evidence), marginSec)
    ensures var after := AgentStep(w, SignedRun(start, deadline, evidence));
            && after.signed == w.signed + [Call("submitOpen", 0, [evidence])] && after.submitted == w.submitted
            && after.system.record == w.system.record.(unsent := Some(Unsent(evidence, deadline, 1, Some("h"))))
            && after.system.tally.evidence == evidence
  {
    assert start * 1000 / 1000 == start;
  }

  /** One more happening in a story of a task nothing was known of. */
  lemma OneMoreInStory(hs: seq<Happening>, e: Event, marginSec: nat, given: set<int>)
    requires IsHistory(EventsOf(hs), marginSec, given) && IsBy(EventsOf(hs), SecondOf(e)) && (e.Checked? ==> e.deadline in given)
    requires var r := AfterAll(NOTHING, [], hs).system.record; Possible(r, e, marginSec) && !ForgetsAt(r, e)
    ensures var all := hs + [Agent(e)];
            && IsHistory(EventsOf(all), marginSec, given) && IsBy(EventsOf(all), SecondOf(e))
            && AfterAll(NOTHING, [], all) == AgentStep(AfterAll(NOTHING, [], hs), e)
  {
    AgentIsApart(NOTHING, [], hs);
    OneMoreHappens(EventsOf(hs), e, marginSec, given);
    assert (hs + [Agent(e)])[..|hs|] == hs;
  }

  /** A result that cannot be sent for want of gas. */
  function NoGasFor(start: int, deadline: int, evidence: string): Event {
    Checked(deadline, start * 1000, start * 1000, Go(Produced(evidence, ForWantOfGas(start))))
  }

  /** A result signed for by `start`, and let go at its deadline. */
  lemma SignedAndLetGo(given: set<int>, start: int, deadline: int, marginSec: nat) returns (hs: seq<Happening>)
    requires deadline in given && deadline - start >= marginSec && start < deadline
    ensures IsHistory(EventsOf(hs), marginSec, given) && IsBy(EventsOf(hs), deadline)
    ensures var w := AfterAll(NOTHING, [], hs);
            w.signed == [Call("submitOpen", 0, ["1"])] && w.submitted.None? && w.system.record == NOTHING
  {
    assert start * 1000 / 1000 == start;
    var signing, reading := SignedRun(start, deadline, "1"), Listed(deadline);
    SignedRunStep(BeginWorld(NOTHING, []), start, deadline, "1", marginSec);
    OneMoreInStory([], signing, marginSec, given);
    hs := [] + [Agent(signing)];
    ListedStep(AfterAll(NOTHING, [], hs).system, deadline);
    OneMoreInStory(hs, reading, marginSec, given);
    hs := hs + [Agent(reading)];
  }

  lemma NoGasStep(w: World, start: int, deadline: int, marginSec: nat)
    requires w.system.record == NOTHING && deadline - start >= marginSec
    ensures Possible(w.system.record, NoGasFor(start, deadline, "2"), marginSec)
    ensures var after := AgentStep(w, NoGasFor(start, deadline, "2"));
            after.signed == w.signed && after.submitted == w.submitted && after.system.tally.evidence == "2"
  {
    assert start * 1000 / 1000 == start;
  }

  lemma MinedNow(hs: seq<Happening>)
    requires var w := AfterAll(NOTHING, [], hs);
             w.signed == [Call("submitOpen", 0, ["1"])] && w.submitted.None? && w.system.tally.evidence == "2"
    ensures EventsOf(hs + [Mines(0)]) == EventsOf(hs)
    ensures var w := AfterAll(NOTHING, [], hs + [Mines(0)]);
            w.submitted == Some(Call("submitOpen", 0, ["1"])) && !CommitsTheLast(w)
  {
    assert (hs + [Mines(0)])[..|hs|] == hs;
    var w := AfterAll(NOTHING, [], hs + [Mines(0)]);
    assert w.submitted == Some(Call("submitOpen", 0, ["1"])) && w.system.tally.evidence == "2";
    assert Ranking.LowerCase("1")[0] == '1' && Ranking.LowerCase("2")[0] == '2';
    assert !SameText(["1"][0], ["2"][0]);
  }

  /** With two deadlines the margin apart, a call signed for a result let go is taken instead of the next result. */
  lemma EarlierResultIsTaken(given: set<int>, a: int, b: int, marginSec: nat) returns (hs: seq<Happening>)
    requires a in given && b in given && b >= a + marginSec
    ensures IsStory(NOTHING, hs, marginSec, given) && !CommitsTheLast(AfterAll(NOTHING, [], hs))
    ensures AfterAll(NOTHING, [], hs).submitted.Some?
  {
    hs := SignedAndLetGo(given, a - marginSec - 1, a, marginSec);
    var again := NoGasFor(a, b, "2");
    assert a * 1000 / 1000 == a;
    NoGasStep(AfterAll(NOTHING, [], hs), a, b, marginSec);
    OneMoreInStory(hs, again, marginSec, given);
    MinedNow(hs + [Agent(again)]);
    hs := hs + [Agent(again)] + [Mines(0)];
  }

  /**
   Until a task is forgotten, whatever this agent signed commits the result it made, so the one
   submission taken is of that result: exactly when all deadlines given are closer than the margin.
   */
  lemma SubmissionIsTheResultExactlyWithinTheMargin(given: set<int>, marginSec: nat)
    ensures Within(given, marginSec) <==>
            forall hs :: IsStory(NOTHING, hs, marginSec, given) ==> CommitsTheLast(AfterAll(NOTHING, [], hs))
  {
    if Within(given, marginSec) {
      forall hs | IsStory(NOTHING, hs, marginSec, given)
        ensures CommitsTheLast(AfterAll(NOTHING, [], hs))
      {
        RunIsOfTheOne(NOTHING, [], hs, marginSec, given);
      }
    } else {
      var a, b :| a in given && b in given && b >= a + marginSec;
      var hs := EarlierResultIsTaken(given, a, b, marginSec);
    }
  }

  /** And so it goes on after a task was forgotten with its result still unsent. */
  lemma HeldResultIsWhatIsTaken(start: Record, signed: seq<Call>, hs: seq<Happening>, marginSec: nat, given: set<int>)
    requires AllCommitHeld(start, signed) && IsStory(start, hs, marginSec, given) && Within(given, marginSec)
    ensures CommitsTheLast(AfterAll(start, signed, hs))
  {
    RunIsOfTheOne(start, signed, hs, marginSec, given);
  }
}
