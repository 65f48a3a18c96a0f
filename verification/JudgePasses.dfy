/**
 Any number of judging passes, one after the other: what the maps hold of each task is where its history
 has led it; and a task that every list names at most once is signed for safely.
 */
module JudgePasses {
  import opened Wrappers
  import opened JudgeRecord
  import opened JudgeHistory
  import opened JudgePass
  import EscrowTx
  import JudgePicks
  import Ranking

  /** What a pass is given, and what it did. */
  datatype Given = Given(list: seq<Hash>, complete: bool, now: int, modelAnswers: bool, told: Told)
  datatype Did = Did(sent: seq<Held>, tried: seq<Hash>)

  function EventsIn(h: Hash, g: Given, d: Did): seq<Event> { EventsOf(h, g.list, g.complete, g.now, g.told, d.sent, d.tried) }

  function HistoryOf(h: Hash, given: seq<Given>, did: seq<Did>): seq<Event>
    requires |did| == |given|
  {
    if given == [] then []
    else
      var last := |given| - 1;
      HistoryOf(h, given[..last], did[..last]) + EventsIn(h, given[last], did[last])
  }

  /** What is remembered of every task is where a run of its own leads, made of the passes' events. */
  ghost predicate Follows(records: Hash -> Record, given: seq<Given>, did: seq<Did>)
    requires |did| == |given|
  {
    forall h :: IsRun(NOTHING, HistoryOf(h, given, did)) && records(h) == After(NOTHING, HistoryOf(h, given, did)).task.record
  }

  lemma PassGoesOn(h: Hash, events: seq<Event>, g: Given, d: Did)
    requires IsRun(NOTHING, events)
    requires AllPossible(Task(After(NOTHING, events).task.record, IDLE), EventsIn(h, g, d))
    ensures IsRun(NOTHING, events + EventsIn(h, g, d))
    ensures After(NOTHING, events + EventsIn(h, g, d)).task.record ==
            Follow(Task(After(NOTHING, events).task.record, IDLE), EventsIn(h, g, d)).record
  {
    var t := After(NOTHING, events).task;
    var more := EventsIn(h, g, d);
    assert more == [Begins(g.told.kept(h))] + more[1..];
    PassForgetsTheLast(t.record, IDLE, t.turn, g.told.kept(h), more[1..]);
    AfterFollows(NOTHING, events, more);
  }

  lemma AllGoOn(was: Hash -> Record, after: Hash -> Record, given: seq<Given>, i: nat, did: seq<Did>, d: Did)
    requires i < |given| && |did| == i && Follows(was, given[..i], did)
    requires forall h :: AllPossible(Task(was(h), IDLE), EventsIn(h, given[i], d))
    requires forall h :: after(h) == Follow(Task(was(h), IDLE), EventsIn(h, given[i], d)).record
    ensures Follows(after, given[..i + 1], did + [d])
  {
    assert given[..i + 1][..i] == given[..i] && (did + [d])[..i] == did;
    forall h
      ensures IsRun(NOTHING, HistoryOf(h, given[..i + 1], did + [d]))
      ensures after(h) == After(NOTHING, HistoryOf(h, given[..i + 1], did + [d])).task.record
    {
      var events := HistoryOf(h, given[..i], did);
      assert was(h) == After(NOTHING, events).task.record;
      PassGoesOn(h, events, given[i], d);
      assert HistoryOf(h, given[..i + 1], did + [d]) == events + EventsIn(h, given[i], d);
    }
  }

  /** Any passes from a start that knows nothing. */
  method RunPasses(s: JudgeState, given: seq<Given>) returns (did: seq<Did>)
    requires forall h :: s.Of(h) == NOTHING
    modifies s
    ensures |did| == |given| && Follows(s.All(), given, did)
  {
    did := [];
    assert forall h :: s.All()(h) == s.Of(h);
    for i := 0 to |given|
      invariant |did| == i && Follows(s.All(), given[..i], did)
    {
      var d := RunNext(s, given, i, did);
      did := did + [d];
    }
    assert given[..|given|] == given;
  }

  method RunNext(s: JudgeState, given: seq<Given>, i: nat, did: seq<Did>) returns (d: Did)
    requires i < |given| && |did| == i && Follows(s.All(), given[..i], did)
    modifies s
    ensures Follows(s.All(), given[..i + 1], did + [d])
  {
    var g := given[i];
    ghost var was := s.All();
    assert forall h :: was(h) == s.Of(h);
    ghost var ready, toJudge;
    var sent, tried;
    sent, tried, ready, toJudge := s.Pass(g.list, g.complete, g.now, g.modelAnswers, g.told);
    d := Did(sent, tried);
    ghost var after := s.All();
    assert forall h :: after(h) == s.Of(h);
    AllGoOn(was, after, given, i, did, d);
  }

  // ---- Lists that name a task once ------------------------------------------------------------

  function One(b: bool): nat { if b then 1 else 0 }

  /** The looks since the last pass began, and all of them. */
  function LooksSince(events: seq<Event>): nat {
    if events == [] then 0
    else
      var last := events[|events| - 1];
      if last.Begins? then 0 else LooksSince(events[..|events| - 1]) + One(last.Looks?)
  }

  function LooksIn(events: seq<Event>): nat {
    if events == [] then 0 else LooksIn(events[..|events| - 1]) + One(events[|events| - 1].Looks?)
  }

  lemma {:induction false} FoundWhenLooked(start: Record, events: seq<Event>)
    ensures After(start, events).task.turn.found <= LooksSince(events)
  {
    if events == [] {
    } else {
      FoundWhenLooked(start, events[..|events| - 1]);
    }
  }

  lemma {:induction false} LooksAdd(a: seq<Event>, b: seq<Event>)
    ensures LooksIn(a + b) == LooksIn(a) + LooksIn(b)
  {
    if b == [] {
      assert a + b == a;
    } else {
      var last := |b| - 1;
      LooksAdd(a, b[..last]);
      assert (a + b)[..|a + b| - 1] == a + b[..last];
    }
  }

  /** A pass begins with its first event, so its looks are all there are since. */
  lemma {:induction false} LooksOfThePass(before: seq<Event>, pass: seq<Event>)
    requires pass != [] && pass[0].Begins?
    ensures LooksSince(before + pass) <= LooksIn(pass)
  {
    var all := before + pass;
    var last := |pass| - 1;
    assert all[|all| - 1] == pass[last] && all[..|all| - 1] == before + pass[..last];
    if last == 0 {
    } else {
      LooksOfThePass(before, pass[..last]);
    }
  }

  lemma {:induction false} LooksAreNames(h: Hash, list: seq<Hash>, now: int, told: Told)
    ensures LooksIn(LooksOf(h, list, now, told)) == Times(h, list)
  {
    if list == [] {
    } else {
      var last := |list| - 1;
      LooksAreNames(h, list[..last], now, told);
      var before := LooksOf(h, list[..last], now, told);
      var e := Looks(now, Seen(h, told.self, told.view(last)));
      LooksAdd(before, [e]);
      assert [e][..0] == [];
      assert before + [] == before;
      assert list == list[..last] + [list[last]];
    }
  }

  lemma {:induction false} SendsAreNoLooks(h: Hash, sent: seq<Held>, now: int, told: Told)
    ensures LooksIn(SendsOf(h, sent, now, told)) == 0
  {
    if sent == [] {
    } else {
      var last := |sent| - 1;
      SendsAreNoLooks(h, sent[..last], now, told);
      var p := told.posting(last);
      var before := SendsOf(h, sent[..last], now, told);
      var e := Sends(now, p.io, p.lookup, p.answer);
      LooksAdd(before, [e]);
      assert [e][..0] == [];
      assert before + [] == before;
    }
  }

  lemma {:induction false} JudgesAreNoLooks(h: Hash, tried: seq<Hash>, now: int, told: Told)
    ensures LooksIn(JudgesOf(h, tried, now, told)) == 0
  {
    if tried == [] {
    } else {
      var last := |tried| - 1;
      JudgesAreNoLooks(h, tried[..last], now, told);
      var a := told.asking(last);
      var before := JudgesOf(h, tried[..last], now, told);
      var e := Judges(now, a.io, a.busy, a.answer);
      LooksAdd(before, [e]);
      assert [e][..0] == [];
      assert before + [] == before;
    }
  }

  lemma PassLooksAtNames(h: Hash, g: Given, d: Did)
    ensures LooksIn(EventsIn(h, g, d)) == Times(h, g.list)
  {
    var a, b := OpeningOf(h, g.list, g.complete, g.told), LooksOf(h, g.list, g.now, g.told);
    var c, e := SendsOf(h, d.sent, g.now, g.told), JudgesOf(h, d.tried, g.now, g.told);
    LooksAdd(a + b + c, e);
    LooksAdd(a + b, c);
    LooksAdd(a, b);
    LooksAreNames(h, g.list, g.now, g.told);
    SendsAreNoLooks(h, d.sent, g.now, g.told);
    JudgesAreNoLooks(h, d.tried, g.now, g.told);
    OpeningLooksAtNothing(h, g.list, g.complete, g.told);
  }

  lemma OpeningLooksAtNothing(h: Hash, list: seq<Hash>, complete: bool, told: Told)
    ensures LooksIn(OpeningOf(h, list, complete, told)) == 0
  {
    var begins, leaves := [Begins(told.kept(h))], [Leaves(complete)];
    LooksAdd(begins, leaves);
    assert begins[..0] == [] && leaves[..0] == [];
    assert begins + [] == begins;
  }

  lemma PartOfAPass(before: seq<Event>, pass: seq<Event>, n: nat)
    requires 0 < n <= |pass| && pass[0].Begins?
    ensures LooksSince(before + pass[..n]) <= LooksIn(pass)
  {
    LooksOfThePass(before, pass[..n]);
    LooksAdd(pass[..n], pass[n..]);
    assert pass == pass[..n] + pass[n..];
  }

  /** No pass finds a pick ready more often than its list names the task. */
  lemma {:induction false} FoundWhenNamed(h: Hash, given: seq<Given>, did: seq<Did>, m: nat, n: nat)
    requires |did| == |given| && n <= |HistoryOf(h, given, did)|
    requires forall i :: 0 <= i < |given| ==> Times(h, given[i].list) <= m
    ensures After(NOTHING, HistoryOf(h, given, did)[..n]).task.turn.found <= m
    decreases |given|
  {
    var all := HistoryOf(h, given, did);
    if given == [] {
    } else {
      var last := |given| - 1;
      var before, pass := HistoryOf(h, given[..last], did[..last]), EventsIn(h, given[last], did[last]);
      if n <= |before| {
        assert all[..n] == before[..n];
        FoundWhenNamed(h, given[..last], did[..last], m, n);
      } else {
        assert all[..n] == before + pass[..n - |before|];
        PassLooksAtNames(h, given[last], did[last]);
        PartOfAPass(before, pass, n - |before|);
        FoundWhenLooked(NOTHING, all[..n]);
      }
    }
  }

  /** No sent pick of the task ever met more than `k` lists without it. */
  ghost predicate MissesAtMost(events: seq<Event>, k: nat) {
    forall n :: 0 <= n <= |events| ==> After(NOTHING, events[..n]).tally.missed <= k
  }

  ghost predicate NamedAtMost(h: Hash, given: seq<Given>, m: nat) { forall i :: 0 <= i < |given| ==> Times(h, given[i].list) <= m }

  lemma NamedIsWithin(h: Hash, given: seq<Given>, did: seq<Did>, k: nat, m: nat)
    requires |did| == |given| && NamedAtMost(h, given, m) && MissesAtMost(HistoryOf(h, given, did), k)
    ensures JudgePicks.IsWithin(NOTHING, HistoryOf(h, given, did), k, m)
  {
    var events := HistoryOf(h, given, did);
    forall n | 0 <= n <= |events|
      ensures After(NOTHING, events[..n]).task.turn.found <= m && After(NOTHING, events[..n]).tally.missed <= k
    {
      FoundWhenNamed(h, given, did, m, n);
    }
  }

  /** If a pick is signed in the i-th event, nothing signed before may land. */
  ghost predicate IsSafeIn(events: seq<Event>, i: nat)
    requires i < |events|
  {
    var signed := JudgePicks.SignedIn(After(NOTHING, events[..i]), events[i]);
    signed.Some? ==> signed.value == {}
  }

  lemma SafeWithin(events: seq<Event>, i: nat)
    requires IsRun(NOTHING, events) && JudgePicks.IsWithin(NOTHING, events, MAX_UNLISTED_LOOKUPS, 1) && i < |events|
    ensures IsSafeIn(events, i)
  {
    var front, e := events[..i], events[i];
    PrefixIsRun(NOTHING, events, i + 1);
    JudgePicks.PrefixIsWithin(NOTHING, events, MAX_UNLISTED_LOOKUPS, 1, i + 1);
    assert events[..i + 1] == front + [e];
    JudgePicks.NothingSignedWhileOneMayLand(NOTHING, front, e);
  }

  /**
   After any passes whose lists each name the task at most once, and of which no sent pick of it has met
   more than 24 lists without it: whenever a pick of it was signed, nothing signed before might land.
   */
  lemma NamedOnceIsSafe(h: Hash, given: seq<Given>, did: seq<Did>, i: nat)
    requires |did| == |given| && IsRun(NOTHING, HistoryOf(h, given, did)) && i < |HistoryOf(h, given, did)|
    requires NamedAtMost(h, given, 1) && MissesAtMost(HistoryOf(h, given, did), MAX_UNLISTED_LOOKUPS)
    ensures IsSafeIn(HistoryOf(h, given, did), i)
  {
    NamedIsWithin(h, given, did, MAX_UNLISTED_LOOKUPS, 1);
    SafeWithin(HistoryOf(h, given, did), i);
  }

  /** The task in its pick window, judged with no gas to pay for the pick, or its pick broadcast as "1" and then "2". */
  const TOLD := Told("me", (h: Hash) => false, (i: nat) => OnChain("t", "me", PHASE_VERIFIER_PICK),
                     (i: nat) => Posting(JudgePicks.IO, EscrowTx.Pending, JudgePicks.Broadcast(if i == 0 then "1" else "2")),
                     (i: nat) => Asking(JudgePicks.IO, false, Winner("w", "c", NoGas)))

  const HELD := Held("t", JudgePicks.UNSENT)

  /** A pass that judges the task, and one whose list names it twice. */
  const ONCE_THEN_TWICE := [Given(["t"], true, 0, true, TOLD), Given(["t", "t"], true, 0, true, TOLD)]
  const JUDGED_THEN_SENT := [Did([], ["t"]), Did([HELD, HELD], [])]

  lemma ItIsOpen()
    ensures Seen("t", "me", OnChain("t", "me", PHASE_VERIFIER_PICK)) == OPEN
  {
    assert Ranking.LowerCase("me") == "me";
  }

  lemma JudgedOnce()
    ensures EventsIn("t", ONCE_THEN_TWICE[0], JUDGED_THEN_SENT[0]) == [Begins(false)] + [Looks(0, OPEN)] + [JudgePicks.UNPAID]
  {
    ItIsOpen();
    assert ["t"][..0] == [];
    assert LooksOf("t", ["t"], 0, TOLD) == [Looks(0, OPEN)];
    assert JudgesOf("t", ["t"], 0, TOLD) == [JudgePicks.UNPAID];
  }

  lemma SentTwice()
    ensures EventsIn("t", ONCE_THEN_TWICE[1], JUDGED_THEN_SENT[1]) ==
            [Begins(false)] + [Looks(0, OPEN)] + [Looks(0, OPEN)] + [JudgePicks.Resending("1")] + [JudgePicks.Resending("2")]
  {
    ItIsOpen();
    assert ["t"][..0] == [] && ["t", "t"][..1] == ["t"];
    assert LooksOf("t", ["t"], 0, TOLD) == [Looks(0, OPEN)];
    assert LooksOf("t", ["t", "t"], 0, TOLD) == [Looks(0, OPEN)] + [Looks(0, OPEN)];
    assert [HELD][..0] == [] && [HELD, HELD][..1] == [HELD];
    assert SendsOf("t", [HELD], 0, TOLD) == [JudgePicks.Resending("1")];
    assert SendsOf("t", [HELD, HELD], 0, TOLD) == [JudgePicks.Resending("1")] + [JudgePicks.Resending("2")];
  }

  lemma HistoryOfTwo(h: Hash, given: seq<Given>, did: seq<Did>)
    requires |given| == |did| == 2
    ensures HistoryOf(h, given, did) == EventsIn(h, given[0], did[0]) + EventsIn(h, given[1], did[1])
  {
    assert given[..1][..0] == [] && did[..1][..0] == [];
    assert HistoryOf(h, given[..1], did[..1]) == [] + EventsIn(h, given[0], did[0]);
  }

  lemma TwoPasses()
    ensures HistoryOf("t", ONCE_THEN_TWICE, JUDGED_THEN_SENT) ==
            JudgePicks.FOUND_TWICE + [JudgePicks.Resending("1")] + [JudgePicks.Resending("2")]
  {
    HistoryOfTwo("t", ONCE_THEN_TWICE, JUDGED_THEN_SENT);
    JudgedOnce();
    SentTwice();
  }

  lemma EndIsUnsafe(events: seq<Event>, before: seq<Event>, s: System, e: Event, hash: string)
    requires events == before + [e] && JudgePicks.Happened(events, 0, 2) && After(NOTHING, before) == s
    requires JudgePicks.SignedIn(s, e) == Some({hash})
    ensures IsRun(NOTHING, events) && MissesAtMost(events, 0) && !IsSafeIn(events, |before|)
  {
    assert events[..|before|] == before;
    assert hash in JudgePicks.SignedIn(s, e).value;
  }

  /** On a list that names it twice a task is signed for twice. */
  lemma NamedTwiceIsUnsafe()
    ensures var events := HistoryOf("t", ONCE_THEN_TWICE, JUDGED_THEN_SENT);
            IsRun(NOTHING, events) && MissesAtMost(events, 0) && |events| == 8 && !IsSafeIn(events, 7)
    ensures NamedAtMost("t", ONCE_THEN_TWICE, 2)
  {
    var before, s := JudgePicks.NamedTwiceSignsTwice("1", "2", 0, 2);
    TwoPasses();
    EndIsUnsafe(HistoryOf("t", ONCE_THEN_TWICE, JUDGED_THEN_SENT), before, s, JudgePicks.Resending("2"), "1");
  }

  /** The exact condition on the lists: no list names a task more than once. */
  lemma SafeExactlyWhenNamedOnce(m: nat)
    ensures (forall h, given, did, i |
               |did| == |given| && NamedAtMost(h, given, m) && IsRun(NOTHING, HistoryOf(h, given, did)) &&
               MissesAtMost(HistoryOf(h, given, did), MAX_UNLISTED_LOOKUPS) && 0 <= i < |HistoryOf(h, given, did)| ::
                 IsSafeIn(HistoryOf(h, given, did), i)) <==> m <= 1
  {
    if m <= 1 {
      forall h, given, did, i |
        |did| == |given| && NamedAtMost(h, given, m) && IsRun(NOTHING, HistoryOf(h, given, did)) &&
        MissesAtMost(HistoryOf(h, given, did), MAX_UNLISTED_LOOKUPS) && 0 <= i < |HistoryOf(h, given, did)|
        ensures IsSafeIn(HistoryOf(h, given, did), i)
      {
        assert NamedAtMost(h, given, 1);
        NamedOnceIsSafe(h, given, did, i);
      }
    } else {
      NamedTwiceIsUnsafe();
      assert NamedAtMost("t", ONCE_THEN_TWICE, m);
      assert MissesAtMost(HistoryOf("t", ONCE_THEN_TWICE, JUDGED_THEN_SENT), MAX_UNLISTED_LOOKUPS);
    }
  }
}
