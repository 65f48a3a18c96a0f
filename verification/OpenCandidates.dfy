/**
 Which entries of the open board the agent may try now, best first: the most reward per
 competitor, then the soonest deadline. Rewards and competitor counts are integers compared
 by cross-multiplication; the reference order here divides them as reals.
 */
module OpenCandidates {
  import opened Wrappers

  /**
   A board entry: the fields the pick reads. `taskId` is None when the entry names no task,
   `reward` is 0 when unreadable, `submissions` is None when it is not a number.
   */
  datatype Entry = Entry(taskId: Option<string>, deadline: Option<int>, reward: int, submissions: Option<real>, facts: Facts)

  /** The off-chain facts the pick decides by, other than the deadline. */
  datatype Facts = Facts(
    isOpen: bool, publicBrief: bool, indexed: bool, chainUsable: bool,
    postedBySelf: bool, verifiedBySelf: bool, postedByOwner: bool,
    meetsFloor: bool, asksTooLong: bool)

  datatype SkipReason =
    | NotOpenTask | NoPublicBrief | NotIndexed | ChainProblem | NoDeadline | ClosesTooSoon
    | OwnTask | OwnVerification | OwnersTask | BelowFloor | TooLongAResult

  function OpenSkipReason(e: Entry, nowSec: int, marginSec: int): Option<SkipReason> {
    if !e.facts.isOpen then Some(NotOpenTask)
    else if !e.facts.publicBrief then Some(NoPublicBrief)
    else if !e.facts.indexed then Some(NotIndexed)
    else if !e.facts.chainUsable then Some(ChainProblem)
    else if e.deadline.None? then Some(NoDeadline)
    else if e.deadline.value - nowSec < marginSec then Some(ClosesTooSoon)
    else if e.facts.postedBySelf then Some(OwnTask)
    else if e.facts.verifiedBySelf then Some(OwnVerification)
    else if e.facts.postedByOwner then Some(OwnersTask)
    else if !e.facts.meetsFloor then Some(BelowFloor)
    else if e.facts.asksTooLong then Some(TooLongAResult)
    else None
  }

  /** The reason is true of the entry. */
  predicate IsSo(reason: SkipReason, e: Entry, nowSec: int, marginSec: int) {
    match reason
    case NotOpenTask => !e.facts.isOpen
    case NoPublicBrief => !e.facts.publicBrief
    case NotIndexed => !e.facts.indexed
    case ChainProblem => !e.facts.chainUsable
    case NoDeadline => e.deadline.None?
    case ClosesTooSoon => e.deadline.Some? && e.deadline.value < nowSec + marginSec
    case OwnTask => e.facts.postedBySelf
    case OwnVerification => e.facts.verifiedBySelf
    case OwnersTask => e.facts.postedByOwner
    case BelowFloor => !e.facts.meetsFloor
    case TooLongAResult => e.facts.asksTooLong
  }

  /** The order they are looked for in. */
  function Order(reason: SkipReason): nat {
    match reason
    case NotOpenTask => 0
    case NoPublicBrief => 1
    case NotIndexed => 2
    case ChainProblem => 3
    case NoDeadline => 4
    case ClosesTooSoon => 5
    case OwnTask => 6
    case OwnVerification => 7
    case OwnersTask => 8
    case BelowFloor => 9
    case TooLongAResult => 10
  }

  /** An entry is skipped for the first reason true of it, and for none when none is. */
  lemma SkippedForTheFirstReason(e: Entry, nowSec: int, marginSec: int, r: SkipReason)
    ensures var reason := OpenSkipReason(e, nowSec, marginSec);
            && (reason.None? ==> !IsSo(r, e, nowSec, marginSec))
            && (reason.Some? ==> IsSo(reason.value, e, nowSec, marginSec) && (IsSo(r, e, nowSec, marginSec) ==> Order(reason.value) <= Order(r)))
  {
  }

  /** What the process remembers that the pick reads: finished tasks, the unsent result, waits. */
  datatype Memory = Memory(done: set<string>, unsent: set<string>, retryAt: map<string, int>)

  /** An entry left out without a word: it names no task, or this process is done with it or waits on it. */
  predicate Silent(e: Entry, memory: Memory, nowMs: int) {
    || e.taskId.None?
    || e.taskId.value in memory.done + memory.unsent
    || (e.taskId.value in memory.retryAt && memory.retryAt[e.taskId.value] > nowMs)
  }

  predicate Eligible(e: Entry, memory: Memory, nowMs: int, marginSec: int) {
    !Silent(e, memory, nowMs) && OpenSkipReason(e, nowMs / 1000, marginSec).None?
  }

  function EligibleOf(entries: seq<Entry>, memory: Memory, nowMs: int, marginSec: int): (r: seq<Entry>)
    ensures forall e :: e in r <==> e in entries && Eligible(e, memory, nowMs, marginSec)
  {
    if entries == [] then []
    else
      var last := |entries| - 1;
      assert forall e :: e in entries <==> e in entries[..last] || e == entries[last];
      EligibleOf(entries[..last], memory, nowMs, marginSec)
      + (if Eligible(entries[last], memory, nowMs, marginSec) then [entries[last]] else [])
  }

  /**
   An entry is a candidate exactly when it names a task this process is not done with, holds no unsent
   result for and no longer waits on, and every fact is for it, its deadline a run away or more.
   */
  lemma CandidateExactly(e: Entry, memory: Memory, nowMs: int, marginSec: int)
    ensures Eligible(e, memory, nowMs, marginSec) <==>
              && e.taskId.Some? && e.taskId.value !in memory.done && e.taskId.value !in memory.unsent
              && (e.taskId.value in memory.retryAt ==> nowMs >= memory.retryAt[e.taskId.value])
              && e.deadline.Some? && e.deadline.value >= nowMs / 1000 + marginSec
              && e.facts == Facts(true, true, true, true, false, false, false, true, false)
  {
  }

  // ---- The order ----------------------------------------------------------------------------

  /** Submissions so far, never below none, plus this agent. */
  function Competitors(e: Entry): (n: int)
    ensures n >= 1
  {
    var floor := if e.submissions.Some? then e.submissions.value.Floor else 0;
    (if floor > 0 then floor else 0) + 1
  }

  /** This agent, and one for each submission there is a whole number of. */
  lemma CompetitorsAre(e: Entry, n: nat)
    ensures n < Competitors(e) <==> n == 0 || (e.submissions.Some? && n as real <= e.submissions.value)
  {
    if e.submissions.Some? {
      var floor := e.submissions.value.Floor;
      assert floor as real <= e.submissions.value < floor as real + 1.0;
      assert n <= floor ==> n as real <= floor as real;
      assert n > floor ==> n as real >= (floor + 1) as real;
    }
  }

  function DeadlineOf(e: Entry): int {
    if e.deadline.Some? then e.deadline.value else 0
  }

  /** The comparison the sort is given: whether `a` comes before `b`. */
  predicate Before(a: Entry, b: Entry) {
    var lhs := a.reward * Competitors(b);
    var rhs := b.reward * Competitors(a);
    if lhs != rhs then lhs > rhs else DeadlineOf(a) < DeadlineOf(b)
  }

  /** The reference: reward per competitor. */
  ghost function Share(e: Entry): real {
    e.reward as real / Competitors(e) as real
  }

  /** Cross-multiplying the integers orders entries exactly as reward per competitor and deadline do. */
  lemma BeforeIsByShare(a: Entry, b: Entry)
    ensures Before(a, b) <==> Share(a) > Share(b) || (Share(a) == Share(b) && DeadlineOf(a) < DeadlineOf(b))
  {
    CrossMultiply(a.reward, Competitors(a), b.reward, Competitors(b));
  }

  lemma CrossMultiply(x: int, p: int, y: int, q: int)
    requires p >= 1 && q >= 1
    ensures x * q > y * p <==> x as real / p as real > y as real / q as real
    ensures x * q == y * p <==> x as real / p as real == y as real / q as real
  {
    var s, t := x as real / p as real, y as real / q as real;
    var m := p as real * q as real;
    assert s * p as real == x as real && t * q as real == y as real;
    assert s * m == x as real * q as real == (x * q) as real;
    assert t * m == y as real * p as real == (y * p) as real;
    assert m > 0.0;
    assert s > t ==> (s - t) * m > 0.0;
    assert s < t ==> (t - s) * m > 0.0;
  }

  /** The comparison is a strict weak order, so a sort by it is well defined. */
  lemma BeforeIsStrictWeakOrder(a: Entry, b: Entry, c: Entry)
    ensures !Before(a, a)
    ensures Before(a, b) ==> !Before(b, a)
    ensures Before(a, b) && Before(b, c) ==> Before(a, c)
    ensures !Before(a, b) && !Before(b, a) && !Before(b, c) && !Before(c, b) ==> !Before(a, c) && !Before(c, a)
  {
    BeforeIsByShare(a, a);
    BeforeIsByShare(a, b);
    BeforeIsByShare(b, a);
    BeforeIsByShare(b, c);
    BeforeIsByShare(c, b);
    BeforeIsByShare(a, c);
    BeforeIsByShare(c, a);
  }

  // ---- The pick -----------------------------------------------------------------------------

  predicate Ordered(s: seq<Entry>) {
    forall i, j :: 0 <= i < j < |s| ==> !Before(s[j], s[i])
  }

  /** `e` put after every entry it does not come before. */
  function Insert(e: Entry, s: seq<Entry>): (r: seq<Entry>)
    ensures multiset(r) == multiset(s) + multiset{e}
    ensures |r| == |s| + 1
  {
    if s == [] || !Before(e, s[|s| - 1]) then s + [e]
    else
      var last := |s| - 1;
      assert s == s[..last] + [s[last]];
      Insert(e, s[..last]) + [s[last]]
  }

  /** The stable sort of `s` by Before. */
  function Sorted(s: seq<Entry>): (r: seq<Entry>)
    ensures multiset(r) == multiset(s)
    ensures |r| == |s|
  {
    if s == [] then []
    else
      var last := |s| - 1;
      assert s == s[..last] + [s[last]];
      Insert(s[last], Sorted(s[..last]))
  }

  lemma {:induction false} InsertKeepsOrder(e: Entry, s: seq<Entry>)
    requires Ordered(s)
    ensures Ordered(Insert(e, s))
  {
    if s == [] {
    } else {
      var last := |s| - 1;
      if Before(e, s[last]) {
        InsertKeepsOrder(e, s[..last]);
        var r := Insert(e, s[..last]);
        forall i | 0 <= i < |r|
          ensures !Before(s[last], r[i])
        {
          assert r[i] in multiset(r);
          assert r[i] in s[..last] || r[i] == e;
          BeforeIsStrictWeakOrder(e, s[last], e);
        }
      } else {
        forall i | 0 <= i < |s|
          ensures !Before(e, s[i])
        {
          NotBeforeIsTransitive(e, s[last], s[i]);
        }
      }
    }
  }

  lemma NotBeforeIsTransitive(a: Entry, b: Entry, c: Entry)
    requires !Before(a, b) && (b == c || !Before(b, c))
    ensures !Before(a, c)
  {
    BeforeIsByShare(a, b);
    BeforeIsByShare(b, c);
    BeforeIsByShare(a, c);
  }

  lemma {:induction false} SortedIsOrdered(s: seq<Entry>)
    ensures Ordered(Sorted(s))
  {
    if s == [] {
    } else {
      var last := |s| - 1;
      SortedIsOrdered(s[..last]);
      InsertKeepsOrder(s[last], Sorted(s[..last]));
    }
  }

  /** The entry, when it ranks with `x`. */
  function Tie(x: Entry, e: Entry): seq<Entry> { if Before(x, e) || Before(e, x) then [] else [e] }

  /** The entries that rank with `x`, in their order. */
  function TiedWith(x: Entry, s: seq<Entry>): seq<Entry> {
    if s == [] then [] else TiedWith(x, s[..|s| - 1]) + Tie(x, s[|s| - 1])
  }

  lemma OneMoreTied(x: Entry, s: seq<Entry>, e: Entry)
    ensures TiedWith(x, s + [e]) == TiedWith(x, s) + Tie(x, e)
  {
    assert (s + [e])[..|s|] == s;
  }

  lemma {:induction false} InsertKeepsTies(x: Entry, e: Entry, s: seq<Entry>)
    ensures TiedWith(x, Insert(e, s)) == TiedWith(x, s) + Tie(x, e)
  {
    if s == [] || !Before(e, s[|s| - 1]) {
      OneMoreTied(x, s, e);
    } else {
      var front, f := s[..|s| - 1], s[|s| - 1];
      var r := Insert(e, front);
      InsertKeepsTies(x, e, front);
      OneMoreTied(x, r, f);
      OneOfTwoIsNotTied(x, e, f);
      Swapped(TiedWith(x, front), Tie(x, e), Tie(x, f));
    }
  }

  lemma Swapped(s: seq<Entry>, a: seq<Entry>, b: seq<Entry>)
    requires a == [] || b == []
    ensures s + a + b == s + b + a
  {
  }

  /** Of two entries that do not rank alike, one does not rank with `x`. */
  lemma OneOfTwoIsNotTied(x: Entry, e: Entry, f: Entry)
    requires Before(e, f)
    ensures Tie(x, e) == [] || Tie(x, f) == []
  {
    BeforeIsStrictWeakOrder(e, x, f);
  }

  /** The sort is stable: candidates that rank alike stay in the board's order. */
  lemma {:induction false} TiesKeepTheirOrder(x: Entry, s: seq<Entry>)
    ensures TiedWith(x, Sorted(s)) == TiedWith(x, s)
  {
    if s == [] {
    } else {
      TiesKeepTheirOrder(x, s[..|s| - 1]);
      InsertKeepsTies(x, s[|s| - 1], Sorted(s[..|s| - 1]));
    }
  }

  /** The entries left out aloud, with why. */
  function SkippedOf(entries: seq<Entry>, memory: Memory, nowMs: int, marginSec: int): (r: seq<(string, SkipReason)>) {
    if entries == [] then []
    else
      var e := entries[|entries| - 1];
      var reason := OpenSkipReason(e, nowMs / 1000, marginSec);
      SkippedOf(entries[..|entries| - 1], memory, nowMs, marginSec)
      + (if !Silent(e, memory, nowMs) && reason.Some? then [(e.taskId.value, reason.value)] else [])
  }

  /**
   What the pick gives: a permutation of the eligible entries in the order of Before. Its
   head pays the most per competitor and, among those that pay as much, closes soonest. No
   entry of a task this process is done with, holds an unsent result for or waits on is in it.
   */
  lemma PickIsBestFirst(entries: seq<Entry>, memory: Memory, nowMs: int, marginSec: int)
    ensures var eligible := EligibleOf(entries, memory, nowMs, marginSec);
            var candidates := Sorted(eligible);
            && multiset(candidates) == multiset(eligible)
            && Ordered(candidates)
            && (forall e :: e in candidates <==> e in entries && Eligible(e, memory, nowMs, marginSec))
            && (forall e :: e in candidates ==>
                  || Share(e) < Share(candidates[0])
                  || (Share(e) == Share(candidates[0]) && DeadlineOf(candidates[0]) <= DeadlineOf(e)))
  {
    var eligible := EligibleOf(entries, memory, nowMs, marginSec);
    var candidates := Sorted(eligible);
    SortedIsOrdered(eligible);
    assert forall e :: e in candidates <==> e in multiset(candidates);
    assert forall e :: e in eligible <==> e in multiset(eligible);
    forall e | e in candidates
      ensures Share(e) < Share(candidates[0])
              || (Share(e) == Share(candidates[0]) && DeadlineOf(candidates[0]) <= DeadlineOf(e))
    {
      BeforeIsByShare(e, candidates[0]);
      BeforeIsByShare(e, e);
    }
  }

  /** What is skipped aloud is exactly every entry not left out silently that some reason is against. */
  lemma {:induction false} SkippedExactly(entries: seq<Entry>, memory: Memory, nowMs: int, marginSec: int, task: string, reason: SkipReason)
    ensures (task, reason) in SkippedOf(entries, memory, nowMs, marginSec) <==>
            exists e :: e in entries && !Silent(e, memory, nowMs) && e.taskId == Some(task) &&
                        OpenSkipReason(e, nowMs / 1000, marginSec) == Some(reason)
  {
    if entries == [] {
    } else {
      var last := |entries| - 1;
      SkippedExactly(entries[..last], memory, nowMs, marginSec, task, reason);
      assert forall e :: e in entries <==> e in entries[..last] || e == entries[last];
    }
  }

  /** Every entry is a candidate, skipped with a reason, or left out silently. */
  lemma {:induction false} NoEntryIsLost(entries: seq<Entry>, memory: Memory, nowMs: int, marginSec: int, k: nat)
    requires k < |entries| && !Silent(entries[k], memory, nowMs)
    ensures entries[k] in EligibleOf(entries, memory, nowMs, marginSec)
            || exists r :: (entries[k].taskId.value, r) in SkippedOf(entries, memory, nowMs, marginSec)
  {
    var reason := OpenSkipReason(entries[k], nowMs / 1000, marginSec);
    if reason.Some? {
      if k < |entries| - 1 {
        NoEntryIsLost(entries[..|entries| - 1], memory, nowMs, marginSec, k);
      } else {
        assert (entries[k].taskId.value, reason.value) in SkippedOf(entries, memory, nowMs, marginSec);
      }
    }
  }

  method PickOpenCandidates(entries: seq<Entry>, memory: Memory, nowMs: int, marginSec: int)
    returns (candidates: seq<Entry>, skipped: seq<(string, SkipReason)>)
    ensures candidates == Sorted(EligibleOf(entries, memory, nowMs, marginSec))
    ensures skipped == SkippedOf(entries, memory, nowMs, marginSec)
  {
    var chosen := [];
    skipped := [];
    for i := 0 to |entries|
      invariant chosen == EligibleOf(entries[..i], memory, nowMs, marginSec)
      invariant skipped == SkippedOf(entries[..i], memory, nowMs, marginSec)
    {
      var e := entries[i];
      assert entries[..i + 1][..i] == entries[..i];
      if !Silent(e, memory, nowMs) {
        var reason := OpenSkipReason(e, nowMs / 1000, marginSec);
        if reason.Some? {
          skipped := skipped + [(e.taskId.value, reason.value)];
        } else {
          chosen := chosen + [e];
        }
      }
    }
    assert entries[..|entries|] == entries;
    candidates := Sorted(chosen);
  }
}
