/**
 The hourly cap on model runs: the starts of the last hour are counted when a pass begins, and the
 start of a run is recorded later, when its model is called.
 */
module RollingCap {
  import opened Wrappers

  const MAX_OPEN_RUNS_PER_HOUR: nat := 4
  const HOUR_MS: nat := 3_600_000

  /** The starts not older than an hour. */
  function Recent(runs: seq<int>, nowMs: int): (r: seq<int>)
    ensures |r| <= |runs| && r == runs[|runs| - |r|..]
  {
    if runs != [] && runs[0] <= nowMs - HOUR_MS then Recent(runs[1..], nowMs) else runs
  }

  /** A pass: when it checked the cap, and when its run started, if it ran one. */
  datatype Pass = Pass(checkedAt: int, startedAt: Option<int>)

  /** The starts remembered, and every start so far. */
  datatype Log = Log(runs: seq<int>, all: seq<int>)

  /** A pass runs only under the cap; the start is pushed as the model is called. */
  function Step(l: Log, p: Pass): Log {
    var recent := Recent(l.runs, p.checkedAt);
    if |recent| < MAX_OPEN_RUNS_PER_HOUR && p.startedAt.Some? then Log(recent + [p.startedAt.value], l.all + [p.startedAt.value])
    else l.(runs := recent)
  }

  function After(passes: seq<Pass>): Log {
    if passes == [] then Log([], []) else Step(After(passes[..|passes| - 1]), passes[|passes| - 1])
  }

  /** The clock does not run backwards: not within a pass, and not from one to the next. */
  predicate Monotone(passes: seq<Pass>) {
    && (forall i :: 0 <= i < |passes| ==> passes[i].startedAt.Some? ==> passes[i].checkedAt <= passes[i].startedAt.value)
    && (forall i, j :: 0 <= i < j < |passes| ==> passes[i].checkedAt <= passes[j].checkedAt)
    && (forall i, j :: 0 <= i < j < |passes| && passes[i].startedAt.Some? ==> passes[i].startedAt.value <= passes[j].checkedAt)
  }

  predicate Ascending(s: seq<int>) { forall i, j :: 0 <= i < j < |s| ==> s[i] <= s[j] }

  /** Four starts on, at least an hour has passed. */
  predicate Spaced(all: seq<int>) { forall i, j :: 0 <= i && i + 4 <= j < |all| ==> all[j] >= all[i] + HOUR_MS }

  /** What is remembered is the end of the whole, and what was dropped is an hour old. */
  predicate Inv(l: Log, now: int) {
    && |l.runs| <= |l.all| && l.runs == l.all[|l.all| - |l.runs|..]
    && Ascending(l.all) && Spaced(l.all)
    && (forall i :: 0 <= i < |l.all| ==> l.all[i] <= now)
    && (forall i :: 0 <= i < |l.all| - |l.runs| ==> l.all[i] <= now - HOUR_MS)
  }

  lemma {:induction false} DroppedAreOld(runs: seq<int>, nowMs: int)
    ensures forall i :: 0 <= i < |runs| - |Recent(runs, nowMs)| ==> runs[i] <= nowMs - HOUR_MS
  {
    if runs != [] && runs[0] <= nowMs - HOUR_MS {
      DroppedAreOld(runs[1..], nowMs);
      forall i | 0 <= i < |runs| - |Recent(runs, nowMs)|
        ensures runs[i] <= nowMs - HOUR_MS
      {
        assert i > 0 ==> runs[i] == runs[1..][i - 1];
      }
    }
  }

  lemma EndOfEnd(all: seq<int>, runs: seq<int>, recent: seq<int>)
    requires |recent| <= |runs| <= |all| && runs == all[|all| - |runs|..] && recent == runs[|runs| - |recent|..]
    ensures recent == all[|all| - |recent|..]
  {
  }

  lemma DroppedSoFarAreOld(all: seq<int>, runs: seq<int>, left: nat, hour: int)
    requires left <= |runs| <= |all| && runs == all[|all| - |runs|..]
    requires forall i :: 0 <= i < |all| - |runs| ==> all[i] <= hour
    requires forall i :: 0 <= i < |runs| - left ==> runs[i] <= hour
    ensures forall i :: 0 <= i < |all| - left ==> all[i] <= hour
  {
    forall i | |all| - |runs| <= i < |all| - left
      ensures all[i] <= hour
    {
      assert all[i] == runs[i - (|all| - |runs|)];
    }
  }

  lemma DroppingKeepsInv(l: Log, now: int, recent: seq<int>, later: int)
    requires Inv(l, now) && now <= later && |recent| <= |l.runs| && recent == l.runs[|l.runs| - |recent|..]
    requires forall i :: 0 <= i < |l.runs| - |recent| ==> l.runs[i] <= later - HOUR_MS
    ensures Inv(l.(runs := recent), later)
  {
    EndOfEnd(l.all, l.runs, recent);
    DroppedSoFarAreOld(l.all, l.runs, |recent|, later - HOUR_MS);
  }

  lemma CheckKeepsInv(l: Log, now: int, checkedAt: int)
    requires Inv(l, now) && now <= checkedAt
    ensures Inv(l.(runs := Recent(l.runs, checkedAt)), checkedAt)
  {
    DroppedAreOld(l.runs, checkedAt);
    DroppingKeepsInv(l, now, Recent(l.runs, checkedAt), checkedAt);
  }

  lemma StartKeepsInv(l: Log, now: int, startedAt: int)
    requires Inv(l, now) && now <= startedAt && |l.runs| < MAX_OPEN_RUNS_PER_HOUR
    ensures Inv(Log(l.runs + [startedAt], l.all + [startedAt]), startedAt)
  {
    var all := l.all + [startedAt];
    assert forall i :: 0 <= i < |l.all| ==> all[i] == l.all[i];
  }

  lemma LaterKeepsInv(l: Log, now: int, later: int)
    requires Inv(l, now) && now <= later
    ensures Inv(l, later)
  {
  }

  /** When a pass was last seen to be at work. */
  function EndOf(p: Pass): int { if p.startedAt.Some? then p.startedAt.value else p.checkedAt }

  lemma StepKeepsInv(l: Log, now: int, p: Pass)
    requires Inv(l, now) && now <= p.checkedAt <= EndOf(p)
    ensures Inv(Step(l, p), EndOf(p))
  {
    CheckKeepsInv(l, now, p.checkedAt);
    var checked := l.(runs := Recent(l.runs, p.checkedAt));
    if |checked.runs| < MAX_OPEN_RUNS_PER_HOUR && p.startedAt.Some? {
      StartKeepsInv(checked, p.checkedAt, p.startedAt.value);
      assert Step(l, p) == Log(checked.runs + [p.startedAt.value], l.all + [p.startedAt.value]);
    } else {
      assert Step(l, p) == checked;
      LaterKeepsInv(checked, p.checkedAt, EndOf(p));
    }
  }

  lemma {:induction false} RunKeepsInv(passes: seq<Pass>)
    requires Monotone(passes) && passes != []
    ensures Inv(After(passes), EndOf(passes[|passes| - 1]))
  {
    var last := |passes| - 1;
    var front := passes[..last];
    var p := passes[last];
    if front == [] {
      StepKeepsInv(Log([], []), p.checkedAt, p);
    } else {
      RunKeepsInv(front);
      assert front[last - 1] == passes[last - 1];
      StepKeepsInv(After(front), EndOf(front[last - 1]), p);
    }
  }

  ghost function StartsIn(all: seq<int>, begin: int): set<int> {
    set i | 0 <= i < |all| && begin <= all[i] < begin + HOUR_MS
  }

  /** Indices within 4 of the least of them. */
  lemma {:induction false} FewIndices(s: set<int>, least: int)
    requires forall i :: i in s ==> least <= i < least + 4
    ensures |s| <= 4
  {
    var four := {least, least + 1, least + 2, least + 3};
    forall i | i in s
      ensures i in four
    {
    }
    assert s <= four;
    assert |four - s| == |four| - |s|;
  }

  lemma {:induction false} LeastStart(all: seq<int>, begin: int, k: nat) returns (least: nat)
    requires k < |all| && k in StartsIn(all, begin)
    ensures least in StartsIn(all, begin) && forall i :: i in StartsIn(all, begin) && i <= k ==> least <= i
  {
    if k > 0 && exists i :: 0 <= i < k && i in StartsIn(all, begin) {
      var i :| 0 <= i < k && i in StartsIn(all, begin);
      var j := k;
      least := k;
      while j > 0
        invariant 0 <= j <= k && least in StartsIn(all, begin)
        invariant forall m :: j <= m <= k && m in StartsIn(all, begin) ==> least <= m
      {
        j := j - 1;
        if j in StartsIn(all, begin) {
          least := j;
        }
      }
    } else {
      least := k;
    }
  }

  lemma SpacedWindowsAreSmall(all: seq<int>, begin: int)
    requires Ascending(all) && Spaced(all)
    ensures |StartsIn(all, begin)| <= MAX_OPEN_RUNS_PER_HOUR
  {
    var s := StartsIn(all, begin);
    if s != {} {
      var k :| k in s;
      var least := LeastStart(all, begin, k);
      assert forall i :: i in s ==> least <= i && all[i] < all[least] + HOUR_MS;
      FewIndices(s, least);
    }
  }

  /** In any run, every hour from any moment on holds at most 4 starts. */
  lemma EveryHourHoldsFourStarts(passes: seq<Pass>, begin: int)
    requires Monotone(passes)
    ensures |StartsIn(After(passes).all, begin)| <= MAX_OPEN_RUNS_PER_HOUR
  {
    if passes == [] {
      assert StartsIn([], begin) == {};
    } else {
      RunKeepsInv(passes);
      SpacedWindowsAreSmall(After(passes).all, begin);
    }
  }

  // ---- The cap never holds back more than it must -----------------------------------------------

  ghost function StartsAfter(all: seq<int>, before: int): set<int> { set i | 0 <= i < |all| && all[i] > before }

  lemma {:induction false} KeptIsNotOld(runs: seq<int>, nowMs: int)
    ensures Recent(runs, nowMs) != [] ==> Recent(runs, nowMs)[0] > nowMs - HOUR_MS
  {
    if runs != [] && runs[0] <= nowMs - HOUR_MS {
      KeptIsNotOld(runs[1..], nowMs);
    }
  }

  ghost predicate AreIndices(s: set<int>, a: int, b: int) { forall i :: i in s <==> a <= i < b }

  lemma {:induction false} IndicesNumber(s: set<int>, a: int, b: int)
    requires a <= b && AreIndices(s, a, b)
    ensures |s| == b - a
    decreases b - a
  {
    if a == b {
      assert forall i :: i !in s;
    } else {
      IndicesNumber(s - {b - 1}, a, b - 1);
    }
  }

  /** The starts remembered, the first of them within the hour, are those of the hour. */
  lemma RememberedAreOfTheHour(l: Log, now: int)
    requires Inv(l, now) && (l.runs != [] ==> l.runs[0] > now - HOUR_MS)
    ensures |l.runs| <= |l.all| && AreIndices(StartsAfter(l.all, now - HOUR_MS), |l.all| - |l.runs|, |l.all|)
  {
    var cut := |l.all| - |l.runs|;
    assert cut < |l.all| ==> l.all[cut] == l.runs[0];
  }

  /** In any run, what a pass counts against the cap is exactly the starts of the hour before it. */
  lemma CapCountsTheLastHour(passes: seq<Pass>, nowMs: int)
    requires Monotone(passes) && (passes != [] ==> EndOf(passes[|passes| - 1]) <= nowMs)
    ensures |Recent(After(passes).runs, nowMs)| == |StartsAfter(After(passes).all, nowMs - HOUR_MS)|
  {
    var l := After(passes);
    var checked := l.(runs := Recent(l.runs, nowMs));
    if passes == [] {
      assert Inv(l, nowMs);
      CheckKeepsInv(l, nowMs, nowMs);
    } else {
      RunKeepsInv(passes);
      CheckKeepsInv(l, EndOf(passes[|passes| - 1]), nowMs);
    }
    KeptIsNotOld(l.runs, nowMs);
    RememberedAreOfTheHour(checked, nowMs);
    IndicesNumber(StartsAfter(l.all, nowMs - HOUR_MS), |l.all| - |checked.runs|, |l.all|);
  }

  lemma AfterOneMore(passes: seq<Pass>, p: Pass)
    ensures After(passes + [p]) == Step(After(passes), p)
  {
    assert (passes + [p])[..|passes|] == passes;
  }

  function AtOnce(n: nat): (r: seq<Pass>)
    ensures |r| == n && forall i :: 0 <= i < n ==> r[i] == Pass(0, Some(0))
  {
    if n == 0 then [] else AtOnce(n - 1) + [Pass(0, Some(0))]
  }

  function Zeros(n: nat): (r: seq<int>)
    ensures |r| == n && forall i :: 0 <= i < n ==> r[i] == 0
  {
    seq(n, i => 0)
  }

  lemma OneZeroMore(n: nat)
    requires n < 4
    ensures Step(Log(Zeros(n), Zeros(n)), Pass(0, Some(0))) == Log(Zeros(n + 1), Zeros(n + 1))
  {
    assert Recent(Zeros(n), 0) == Zeros(n);
    assert Zeros(n) + [0] == Zeros(n + 1);
  }

  lemma {:induction false} StartsAtOnce(n: nat)
    requires n <= 4
    ensures After(AtOnce(n)) == Log(Zeros(n), Zeros(n))
  {
    if n > 0 {
      StartsAtOnce(n - 1);
      AfterOneMore(AtOnce(n - 1), Pass(0, Some(0)));
      OneZeroMore(n - 1);
    } else {
      assert Zeros(0) == [];
    }
  }

  lemma {:induction false} AnHourDropsAll(n: nat)
    ensures Recent(Zeros(n), HOUR_MS) == []
  {
    if n == 0 {
    } else {
      AnHourDropsAll(n - 1);
      assert Zeros(n)[1..] == Zeros(n - 1);
    }
  }

  lemma AnHourLater(n: nat)
    requires n == 4
    ensures Monotone(AtOnce(n) + [Pass(HOUR_MS, Some(HOUR_MS))])
    ensures After(AtOnce(n) + [Pass(HOUR_MS, Some(HOUR_MS))]).all == Zeros(n) + [HOUR_MS]
  {
    StartsAtOnce(n);
    AnHourDropsAll(n);
    AfterOneMore(AtOnce(n), Pass(HOUR_MS, Some(HOUR_MS)));
  }

  /** The hour is half-open: five starts fit in one that counts both of its ends. */
  lemma FiveStartsAnHourApart()
    ensures Monotone(AtOnce(4) + [Pass(HOUR_MS, Some(HOUR_MS))])
    ensures After(AtOnce(4) + [Pass(HOUR_MS, Some(HOUR_MS))]).all == Zeros(4) + [HOUR_MS]
  {
    AnHourLater(4);
  }
}
