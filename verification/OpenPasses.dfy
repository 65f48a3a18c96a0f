/**
 Any number of open passes, one after the other: what the maps hold of each task is where its history
 has led it, and the starts remembered are those of an execution under the hourly cap.
 */
module OpenPasses {
  import opened Wrappers
  import opened OpenRecord
  import opened OpenCandidates
  import opened OpenBounds
  import opened OpenPass
  import OpenForgetting
  import RollingCap

  /** What a pass is given, and what it did. */
  datatype Given = Given(board: seq<Entry>, complete: bool, nowMs: int, modelBlocked: bool, told: Told)
  datatype Did = Did(read: Hash -> Event, outcome: Outcome)

  /** The pass in the history of a task: the board's read, and at most one event more. */
  function EventsIn(h: Hash, g: Given, d: Did): seq<Event> {
    var next := NextFor(h, d.outcome, g.nowMs, g.told);
    [d.read(h)] + if next.Some? then [next.value] else []
  }

  function HistoryOf(h: Hash, given: seq<Given>, did: seq<Did>): seq<Event>
    requires |did| == |given|
  {
    if given == [] then []
    else
      var last := |given| - 1;
      HistoryOf(h, given[..last], did[..last]) + EventsIn(h, given[last], did[last])
  }

  /** The passes that counted the starts of the last hour. */
  function CapPassesIn(given: seq<Given>, did: seq<Did>): seq<RollingCap.Pass>
    requires |did| == |given|
  {
    if given == [] then []
    else
      var last := |given| - 1;
      CapPassesIn(given[..last], did[..last]) + CapPassOf(given[last], did[last].outcome)
  }

  function CapPassOf(g: Given, o: Outcome): seq<RollingCap.Pass> {
    if o.Capped? || o.Tried? then [CapPass(o, g.nowMs, g.told)] else []
  }

  /** When the model was called. */
  function ModelStarts(given: seq<Given>, did: seq<Did>): seq<int>
    requires |did| == |given|
  {
    if given == [] then []
    else
      var last := |given| - 1;
      ModelStarts(given[..last], did[..last]) + (if did[last].outcome.Tried? then StartsIn(did[last].outcome.checked, given[last].told) else [])
  }

  lemma OneMorePassOf(given: seq<Given>, i: nat, did: seq<Did>, d: Did)
    requires i < |given| && |did| == i
    ensures forall h :: HistoryOf(h, given[..i + 1], did + [d]) == HistoryOf(h, given[..i], did) + EventsIn(h, given[i], d)
    ensures CapPassesIn(given[..i + 1], did + [d]) == CapPassesIn(given[..i], did) + CapPassOf(given[i], d.outcome)
    ensures ModelStarts(given[..i + 1], did + [d]) ==
            ModelStarts(given[..i], did) + if d.outcome.Tried? then StartsIn(d.outcome.checked, given[i].told) else []
  {
    assert given[..i + 1][..i] == given[..i] && (did + [d])[..i] == did;
  }

  lemma OneMoreIsRun(events: seq<Event>, e: Event, marginSec: nat)
    requires IsRun(NOTHING, events, marginSec) && Possible(After(NOTHING, events).record, e, marginSec)
    ensures IsRun(NOTHING, events + [e], marginSec) && After(NOTHING, events + [e]).record == StepRecord(After(NOTHING, events).record, e)
  {
    var all := events + [e];
    AfterOneMore(NOTHING, events, e);
    assert all[..|events|] == events;
    forall i | 0 <= i < |all|
      ensures Possible(After(NOTHING, all[..i]).record, all[i], marginSec)
    {
      if i < |events| {
        assert all[..i] == events[..i] && all[i] == events[i];
      }
    }
  }

  lemma PassGoesOn(h: Hash, events: seq<Event>, g: Given, d: Did, marginSec: nat)
    requires IsRun(NOTHING, events, marginSec) && d.read(h).Read?
    requires var read := StepRecord(After(NOTHING, events).record, d.read(h));
             var next := NextFor(h, d.outcome, g.nowMs, g.told);
             next.Some? ==> Possible(read, next.value, marginSec)
    ensures IsRun(NOTHING, events + EventsIn(h, g, d), marginSec)
    ensures After(NOTHING, events + EventsIn(h, g, d)).record ==
            Followed(StepRecord(After(NOTHING, events).record, d.read(h)), NextFor(h, d.outcome, g.nowMs, g.told))
  {
    var next := NextFor(h, d.outcome, g.nowMs, g.told);
    var read := events + [d.read(h)];
    OneMoreIsRun(events, d.read(h), marginSec);
    if next.Some? {
      OneMoreIsRun(read, next.value, marginSec);
      assert events + EventsIn(h, g, d) == read + [next.value];
    } else {
      assert events + EventsIn(h, g, d) == read;
    }
  }

  lemma CapSteps(l: RollingCap.Log, g: Given, o: Outcome)
    requires o.Tried? ==> |RollingCap.Recent(l.runs, g.nowMs)| < RollingCap.MAX_OPEN_RUNS_PER_HOUR
    ensures var after := RollingCap.Step(l, CapPass(o, g.nowMs, g.told));
            && after.runs == RollingCap.Step(RollingCap.Log(l.runs, []), CapPass(o, g.nowMs, g.told)).runs
            && after.all == l.all + if o.Tried? then StartsIn(o.checked, g.told) else []
  {
    if o.Tried? {
      var starts := StartsIn(o.checked, g.told);
      assert starts == [] || starts == [starts[0]];
    }
    assert l.all + [] == l.all;
  }

  /** The cap's own log, one pass later. */
  lemma CapGoesOn(passes: seq<RollingCap.Pass>, runs: seq<int>, after: seq<int>, g: Given, o: Outcome)
    requires runs == RollingCap.After(passes).runs
    requires !o.Capped? && !o.Tried? ==> after == runs
    requires o.Capped? || o.Tried? ==> after == RollingCap.Step(RollingCap.Log(runs, []), CapPass(o, g.nowMs, g.told)).runs
    requires o.Tried? ==> |RollingCap.Recent(runs, g.nowMs)| < RollingCap.MAX_OPEN_RUNS_PER_HOUR
    ensures var l := RollingCap.After(passes + CapPassOf(g, o));
            && after == l.runs
            && l.all == RollingCap.After(passes).all + if o.Tried? then StartsIn(o.checked, g.told) else []
  {
    if o.Capped? || o.Tried? {
      RollingCap.AfterOneMore(passes, CapPass(o, g.nowMs, g.told));
      CapSteps(RollingCap.After(passes), g, o);
    } else {
      assert passes + CapPassOf(g, o) == passes;
      assert RollingCap.After(passes).all + [] == RollingCap.After(passes).all;
    }
  }

  /** What is remembered of every task is where a run of its own leads, made of the passes' events. */
  ghost predicate Follow(records: Hash -> Record, given: seq<Given>, did: seq<Did>, marginSec: nat)
    requires |did| == |given|
  {
    forall h :: IsRun(NOTHING, HistoryOf(h, given, did), marginSec) && records(h) == After(NOTHING, HistoryOf(h, given, did)).record
  }

  lemma AllGoOn(was: Hash -> Record, now: Hash -> Record, given: seq<Given>, i: nat, did: seq<Did>, d: Did, marginSec: nat)
    requires i < |given| && |did| == i && forall h :: d.read(h).Read?
    requires Follow(was, given[..i], did, marginSec)
    requires forall h :: now(h) == Followed(StepRecord(was(h), d.read(h)), NextFor(h, d.outcome, given[i].nowMs, given[i].told))
    requires forall h :: NextFor(h, d.outcome, given[i].nowMs, given[i].told).Some? ==>
               Possible(StepRecord(was(h), d.read(h)), NextFor(h, d.outcome, given[i].nowMs, given[i].told).value, marginSec)
    ensures Follow(now, given[..i + 1], did + [d], marginSec)
  {
    OneMorePassOf(given, i, did, d);
    forall h
      ensures IsRun(NOTHING, HistoryOf(h, given[..i + 1], did + [d]), marginSec)
      ensures now(h) == After(NOTHING, HistoryOf(h, given[..i + 1], did + [d])).record
    {
      var events := HistoryOf(h, given[..i], did);
      assert was(h) == After(NOTHING, events).record;
      PassGoesOn(h, events, given[i], d, marginSec);
      assert HistoryOf(h, given[..i + 1], did + [d]) == events + EventsIn(h, given[i], d);
    }
  }

  /**
   Any passes from a start that knows nothing: each task's record is where a run of its own leads, made
   of the passes' events, and the starts are all those of the passes that checked the cap.
   */
  method RunPasses(s: OpenState, given: seq<Given>, marginSec: nat) returns (ghost did: seq<Did>)
    requires s.Valid() && s.runs == [] && forall h :: s.Of(h) == NOTHING
    requires forall g :: g in given ==> NamedOnce(g.board)
    modifies s
    ensures s.Valid() && |did| == |given| && Follow(s.All(), given, did, marginSec) && ReadTheBoards(given, did)
    ensures s.runs == RollingCap.After(CapPassesIn(given, did)).runs
    ensures ModelStarts(given, did) == RollingCap.After(CapPassesIn(given, did)).all
  {
    did := [];
    for i := 0 to |given|
      invariant s.Valid() && |did| == i && Follow(s.All(), given[..i], did, marginSec) && ReadTheBoards(given[..i], did)
      invariant s.runs == RollingCap.After(CapPassesIn(given[..i], did)).runs
      invariant ModelStarts(given[..i], did) == RollingCap.After(CapPassesIn(given[..i], did)).all
    {
      did := RunNext(s, given, i, did, marginSec);
    }
    assert given[..|given|] == given;
  }

  method RunNext(s: OpenState, given: seq<Given>, i: nat, ghost did: seq<Did>, marginSec: nat) returns (ghost more: seq<Did>)
    requires s.Valid() && i < |given| && |did| == i && NamedOnce(given[i].board) && Follow(s.All(), given[..i], did, marginSec)
    requires ReadTheBoards(given[..i], did)
    requires s.runs == RollingCap.After(CapPassesIn(given[..i], did)).runs
    requires ModelStarts(given[..i], did) == RollingCap.After(CapPassesIn(given[..i], did)).all
    modifies s
    ensures s.Valid() && |more| == i + 1 && Follow(s.All(), given[..i + 1], more, marginSec) && ReadTheBoards(given[..i + 1], more)
    ensures s.runs == RollingCap.After(CapPassesIn(given[..i + 1], more)).runs
    ensures ModelStarts(given[..i + 1], more) == RollingCap.After(CapPassesIn(given[..i + 1], more)).all
  {
    var g := given[i];
    ghost var was, runs := s.All(), s.runs;
    assert forall h :: was(h) == s.Of(h);
    ghost var read, kept;
    var o;
    o, read, kept := s.Pass(g.board, g.complete, g.nowMs, marginSec, g.modelBlocked, g.told);
    more := did + [Did(read, o)];
    ghost var now := s.All();
    assert forall h :: now(h) == s.Of(h);
    AllGoOn(was, now, given, i, did, Did(read, o), marginSec);
    OneMorePassOf(given, i, did, Did(read, o));
    CapGoesOn(CapPassesIn(given[..i], did), runs, s.runs, g, o);
    ReadOneMore(given, i, did, Did(read, o));
  }

  lemma ReadOneMore(given: seq<Given>, i: nat, did: seq<Did>, d: Did)
    requires i < |given| && |did| == i && ReadTheBoards(given[..i], did)
    requires forall h :: IsReadOf(d.read(h), h, given[i].board, given[i].complete, given[i].nowMs)
    ensures ReadTheBoards(given[..i + 1], did + [d])
  {
    forall k, h | 0 <= k < i + 1
      ensures IsReadOf((did + [d])[k].read(h), h, given[..i + 1][k].board, given[..i + 1][k].complete, given[..i + 1][k].nowMs)
    {
      if k < i {
        assert given[..i + 1][k] == given[..i][k] && (did + [d])[k] == did[k];
      } else {
        assert given[..i + 1][k] == given[i] && (did + [d])[k] == d;
      }
    }
  }

  // ---- A task on the board --------------------------------------------------------------------

  /** Every pass's read is of its own board. */
  ghost predicate ReadTheBoards(given: seq<Given>, did: seq<Did>)
    requires |did| == |given|
  {
    forall i, h :: 0 <= i < |given| ==> IsReadOf(did[i].read(h), h, given[i].board, given[i].complete, given[i].nowMs)
  }

  ghost predicate Lists(g: Given, h: Hash) { exists e :: e in g.board && e.taskId == Some(h) }

  /** The board was read whole without the task, and not read whole with it since. */
  ghost predicate GoneSince(h: Hash, given: seq<Given>, p: nat) {
    && p < |given| && given[p].complete && !Lists(given[p], h)
    && forall q :: p < q < |given| && given[q].complete ==> !Lists(given[q], h)
  }

  /** An absence counted is since a board. */
  ghost predicate IsAbsentSince(absent: nat, h: Hash, given: seq<Given>) {
    absent == 0 || (absent == 1 && exists p :: GoneSince(h, given, p))
  }

  /** Two whole boards in a row without the task. */
  ghost predicate GoneTwice(h: Hash, given: seq<Given>) {
    exists p, q :: 0 <= p < q < |given| && given[q].complete && !Lists(given[q], h) && GoneSince(h, given[..q], p)
  }

  /**
   However many passes, and whatever they are told: what is remembered of a task is not forgotten unless
   two whole boards in a row are without it. A task on every whole board is never forgotten.
   */
  lemma {:induction false} ForgottenOnlyOnceGoneTwice(h: Hash, given: seq<Given>, did: seq<Did>)
    requires |did| == |given| && ReadTheBoards(given, did)
    ensures !GoneTwice(h, given) ==> NeverForgotten(NOTHING, HistoryOf(h, given, did))
    ensures (forall g :: g in given && g.complete ==> Lists(g, h)) ==> NeverForgotten(NOTHING, HistoryOf(h, given, did))
  {
    if !GoneTwice(h, given) {
      AbsenceIsSinceABoard(h, given, did);
    } else {
      var p, q :| 0 <= p < q < |given| && given[q].complete && !Lists(given[q], h) && GoneSince(h, given[..q], p);
      assert given[q] in given;
    }
  }

  lemma {:induction false} AbsenceIsSinceABoard(h: Hash, given: seq<Given>, did: seq<Did>)
    requires |did| == |given| && ReadTheBoards(given, did) && !GoneTwice(h, given)
    ensures NeverForgotten(NOTHING, HistoryOf(h, given, did))
    ensures IsAbsentSince(After(NOTHING, HistoryOf(h, given, did)).record.absent, h, given)
  {
    if given == [] {
    } else {
      var last := |given| - 1;
      OnceLess(h, given, did);
      AbsenceIsSinceABoard(h, given[..last], did[..last]);
      var before := HistoryOf(h, given[..last], did[..last]);
      var g, d := given[last], did[last];
      assert IsReadOf(d.read(h), h, g.board, g.complete, g.nowMs);
      ReadGoesOn(h, given, After(NOTHING, before).record, d.read(h));
      BoardGoesOn(before, d.read(h), NextFor(h, d.outcome, g.nowMs, g.told));
    }
  }

  lemma OnceLess(h: Hash, given: seq<Given>, did: seq<Did>)
    requires |did| == |given| > 0 && ReadTheBoards(given, did) && !GoneTwice(h, given)
    ensures ReadTheBoards(given[..|given| - 1], did[..|given| - 1]) && !GoneTwice(h, given[..|given| - 1])
  {
    var front := given[..|given| - 1];
    forall q, p | 0 <= p < q < |front| && front[q].complete && !Lists(front[q], h)
      ensures !GoneSince(h, front[..q], p)
    {
      assert front[..q] == given[..q] && front[q] == given[q];
    }
  }

  /** What one read makes of an absence since a board. */
  lemma ReadGoesOn(h: Hash, given: seq<Given>, r: Record, read: Event)
    requires |given| > 0 && !GoneTwice(h, given)
    requires var g := given[|given| - 1]; IsReadOf(read, h, g.board, g.complete, g.nowMs)
    requires IsAbsentSince(r.absent, h, given[..|given| - 1])
    ensures !ForgetsAt(r, read) && IsAbsentSince(StepRecord(r, read).absent, h, given)
  {
    var last := |given| - 1;
    assert read.board.listed == Lists(given[last], h);
    OpenForgetting.ReadingCounts(System(r, Begin(NOTHING).tally), read);
    if r.absent == 1 {
      var p :| GoneSince(h, given[..last], p);
      assert given[last].complete && !Lists(given[last], h) ==> GoneTwice(h, given);
      assert !given[last].complete ==> GoneSince(h, given, p);
    }
    assert given[last].complete && !Lists(given[last], h) ==> GoneSince(h, given, last);
  }

  /** One pass more: a read that does not forget the task, and perhaps one event that is no read. */
  lemma BoardGoesOn(before: seq<Event>, read: Event, next: Option<Event>)
    requires NeverForgotten(NOTHING, before) && !ForgetsAt(After(NOTHING, before).record, read)
    requires StepRecord(After(NOTHING, before).record, read).absent <= 1 && (next.Some? ==> !next.value.Read?)
    ensures var after := before + ([read] + if next.Some? then [next.value] else []);
            NeverForgotten(NOTHING, after) && After(NOTHING, after).record.absent == StepRecord(After(NOTHING, before).record, read).absent
  {
    var s := Step(After(NOTHING, before), read);
    OneMoreKept(before, read);
    if next.Some? {
      OneMoreKept(before + [read], next.value);
      OpenForgetting.StepKeepsAbsence(s, next.value);
      assert before + ([read] + [next.value]) == before + [read] + [next.value];
    } else {
      assert before + ([read] + []) == before + [read];
    }
  }

  lemma OneMoreKept(events: seq<Event>, e: Event)
    requires NeverForgotten(NOTHING, events) && !ForgetsAt(After(NOTHING, events).record, e)
    ensures NeverForgotten(NOTHING, events + [e]) && After(NOTHING, events + [e]) == Step(After(NOTHING, events), e)
  {
    var all := events + [e];
    AfterOneMore(NOTHING, events, e);
    assert all[..|events|] == events;
    forall i | 0 <= i < |all|
      ensures !ForgetsAt(After(NOTHING, all[..i]).record, all[i])
    {
      if i < |events| {
        assert all[..i] == events[..i] && all[i] == events[i];
      }
    }
  }
}
