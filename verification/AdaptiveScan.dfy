/**
 The backfill's scan of TaskCompleted events: block ranges whose size is halved when the
 RPC refuses one. Which ranges are refused is the RPC's choice, and may differ between two
 requests for the same range.
 */
module AdaptiveScan {
  import opened Wrappers

  const MIN_CHUNK: nat := 500

  datatype Payout = Payout(taskId: nat, amount: nat)

  /** The events of each block, in log order. */
  type ChainLog = nat -> seq<Payout>

  /** A range of blocks asked for in one request, both ends included. */
  datatype Range = Range(first: nat, last: nat)

  /** The events of the blocks first..last, both included. */
  function EventsIn(log: ChainLog, first: nat, last: int): seq<Payout>
    decreases last + 1 - first
  {
    if first > last then [] else EventsIn(log, first, last - 1) + log(last)
  }

  /** The events put into the Map in turn: a task id keeps its last payout. */
  function Collected(payouts: map<nat, nat>, events: seq<Payout>): map<nat, nat> {
    if events == [] then payouts
    else
      var last := |events| - 1;
      Collected(payouts, events[..last])[events[last].taskId := events[last].amount]
  }

  function Halved(chunk: nat): nat {
    if chunk / 2 > MIN_CHUNK then chunk / 2 else MIN_CHUNK
  }

  /** How many refusals shrink a chunk to the minimum. */
  function Halvings(chunk: nat): nat {
    if chunk <= MIN_CHUNK then 0 else 1 + Halvings(Halved(chunk))
  }

  function Pow2(k: nat): (p: nat)
    ensures p > 0
  {
    if k == 0 then 1 else 2 * Pow2(k - 1)
  }

  /** At most the base-2 logarithm of chunk / MIN_CHUNK, rounded up. */
  lemma {:induction false} HalvingsIsLogarithmic(chunk: nat)
    requires chunk > MIN_CHUNK
    ensures MIN_CHUNK * Pow2(Halvings(chunk) - 1) < chunk
  {
    if Halved(chunk) > MIN_CHUNK {
      HalvingsIsLogarithmic(Halved(chunk));
      assert MIN_CHUNK * Pow2(Halvings(chunk) - 1) == 2 * (MIN_CHUNK * Pow2(Halvings(chunk) - 2));
    }
  }

  /** And no less: a refusal takes off no more than half. */
  lemma {:induction false} HalvingsAreNeeded(chunk: nat)
    ensures chunk < (MIN_CHUNK + 1) * Pow2(Halvings(chunk))
  {
    if chunk > MIN_CHUNK {
      HalvingsAreNeeded(Halved(chunk));
      assert (MIN_CHUNK + 1) * Pow2(Halvings(chunk)) == 2 * ((MIN_CHUNK + 1) * Pow2(Halvings(chunk) - 1));
    }
  }

  /** The ranges follow one another without gap or overlap, from `first` up to but not including `end`. */
  ghost predicate Tile(ranges: seq<Range>, first: nat, end: nat)
    decreases |ranges|
  {
    if ranges == [] then first == end
    else
      var last := |ranges| - 1;
      && ranges[last].first <= ranges[last].last && ranges[last].last + 1 == end
      && Tile(ranges[..last], first, ranges[last].first)
  }

  lemma {:induction false} EventsSplit(log: ChainLog, first: nat, mid: nat, last: int)
    requires first <= mid <= last + 1
    ensures EventsIn(log, first, last) == EventsIn(log, first, mid - 1) + EventsIn(log, mid, last)
    decreases last + 1 - mid
  {
    if mid <= last {
      EventsSplit(log, first, mid, last - 1);
    }
  }

  lemma {:induction false} CollectedInTurn(payouts: map<nat, nat>, a: seq<Payout>, b: seq<Payout>)
    ensures Collected(payouts, a + b) == Collected(Collected(payouts, a), b)
    decreases |b|
  {
    if b == [] {
      assert a + b == a;
    } else {
      var last := |b| - 1;
      CollectedInTurn(payouts, a, b[..last]);
      assert (a + b)[..|a + b| - 1] == a + b[..last];
    }
  }

  // ---- What a scan holds ----------------------------------------------------------------------

  /** `payout` is an event of one of the blocks, and no event of the blocks after it is for its task. */
  ghost predicate IsLastIn(events: seq<Payout>, payout: Payout) {
    exists i :: 0 <= i < |events| && events[i] == payout && forall j :: i < j < |events| ==> events[j].taskId != payout.taskId
  }

  lemma {:induction false} LastIsKept(events: seq<Payout>, task: nat)
    ensures task in Collected(map[], events) <==> exists i :: 0 <= i < |events| && events[i].taskId == task
    ensures task in Collected(map[], events) ==> IsLastIn(events, Payout(task, Collected(map[], events)[task]))
  {
    if events == [] {
    } else {
      var last := |events| - 1;
      LastIsKept(events[..last], task);
      assert forall i :: 0 <= i < last ==> events[..last][i] == events[i];
      if events[last].taskId == task {
        assert IsLastIn(events, events[last]);
      } else if task in Collected(map[], events) {
        var kept := Payout(task, Collected(map[], events)[task]);
        var i :| 0 <= i < last && events[..last][i] == kept && forall j :: i < j < last ==> events[..last][j].taskId != task;
        assert events[i] == kept;
      }
    }
  }

  /** The scan's events are exactly those of its blocks. */
  lemma {:induction false} EventsAreOfTheBlocks(log: ChainLog, first: nat, last: int, e: Payout)
    ensures e in EventsIn(log, first, last) <==> exists b: nat :: first <= b <= last && e in log(b)
    decreases last + 1 - first
  {
    if first <= last {
      EventsAreOfTheBlocks(log, first, last - 1, e);
      if b: nat :| first <= b <= last && e in log(b) {
        assert b <= last - 1 || b == last;
      }
    }
  }

  /**
   What a scan ends with: a task is in it exactly when one of the blocks holds a payout of it, with the
   amount of the last of these, none of the blocks after it, nor the rest of its own, holding another.
   */
  lemma ScanHoldsTheLastPayouts(log: ChainLog, first: nat, latest: int, task: nat)
    ensures var found := Collected(map[], EventsIn(log, first, latest));
            && (task in found <==> exists b: nat, amount :: first <= b <= latest && Payout(task, amount) in log(b))
            && (task in found ==>
                  exists b: nat :: first <= b <= latest && IsLastIn(log(b), Payout(task, found[task])) &&
                                   forall c: nat, amount :: b < c <= latest ==> Payout(task, amount) !in log(c))
  {
    var events := EventsIn(log, first, latest);
    LastIsKept(events, task);
    if task in Collected(map[], events) {
      var e := Payout(task, Collected(map[], events)[task]);
      assert e in events;
      EventsAreOfTheBlocks(log, first, latest, e);
      var b := BlockOfTheLast(log, first, latest, e);
    }
    if b: nat, amount :| first <= b <= latest && Payout(task, amount) in log(b) {
      EventsAreOfTheBlocks(log, first, latest, Payout(task, amount));
      var i :| 0 <= i < |events| && events[i] == Payout(task, amount);
    }
  }

  lemma {:induction false} BlockOfTheLast(log: ChainLog, first: nat, latest: int, e: Payout) returns (b: nat)
    requires IsLastIn(EventsIn(log, first, latest), e)
    ensures first <= b <= latest && IsLastIn(log(b), e)
    ensures forall c: nat, amount :: b < c <= latest ==> Payout(e.taskId, amount) !in log(c)
    decreases latest + 1 - first
  {
    var front, events := EventsIn(log, first, latest - 1), EventsIn(log, first, latest);
    var i :| 0 <= i < |events| && events[i] == e && forall j :: i < j < |events| ==> events[j].taskId != e.taskId;
    if i < |front| {
      assert front[i] == e && forall j :: i < j < |front| ==> front[j] == events[j];
      b := BlockOfTheLast(log, first, latest - 1, e);
      forall amount
        ensures Payout(e.taskId, amount) !in log(latest)
      {
        assert forall j :: 0 <= j < |log(latest)| ==> log(latest)[j] == events[|front| + j];
      }
    } else {
      b := latest;
      assert log(latest)[i - |front|] == e;
      assert forall j :: 0 <= j < |log(latest)| ==> log(latest)[j] == events[|front| + j];
    }
  }

  method PutAll(payouts: map<nat, nat>, events: seq<Payout>) returns (r: map<nat, nat>)
    ensures r == Collected(payouts, events)
  {
    r := payouts;
    for i := 0 to |events|
      invariant r == Collected(payouts, events[..i])
    {
      r := r[events[i].taskId := events[i].amount];
      assert events[..i + 1][..i] == events[..i];
    }
    assert events[..|events|] == events;
  }

  /** The blocks up to but not including `from` were read, in these ranges, and gave `found`. */
  ghost predicate ReadUpto(log: ChainLog, fromBlock: nat, from: nat, found: map<nat, nat>, ranges: seq<Range>) {
    fromBlock <= from && found == Collected(map[], EventsIn(log, fromBlock, from - 1)) && Tile(ranges, fromBlock, from)
  }

  /** One range more, served whole. */
  lemma RangeIsTaken(log: ChainLog, fromBlock: nat, found: map<nat, nat>, ranges: seq<Range>, range: Range)
    requires range.first <= range.last && ReadUpto(log, fromBlock, range.first, found, ranges)
    ensures ReadUpto(log, fromBlock, range.last + 1, Collected(found, EventsIn(log, range.first, range.last)), ranges + [range])
  {
    EventsSplit(log, fromBlock, range.first, range.last);
    CollectedInTurn(map[], EventsIn(log, fromBlock, range.first - 1), EventsIn(log, range.first, range.last));
    assert (ranges + [range])[..|ranges|] == ranges;
  }

  /** What is asked for next: a whole chunk, or what is left. */
  function NextRange(from: nat, chunk: nat, latest: int): (r: Range)
    requires chunk >= 1 && from <= latest
    ensures r.first == from <= r.last <= latest && r.last < from + chunk
    ensures r.last == latest || r.last == from + chunk - 1
  {
    Range(from, if latest < from + chunk - 1 then latest else from + chunk - 1)
  }

  /** A range of at most the first chunk, and short of the minimum, or of the first chunk, only at the end. */
  predicate IsChunk(range: Range, maxChunk: nat, latest: int) {
    var blocks := range.last + 1 - range.first;
    blocks <= maxChunk && (blocks >= MIN_CHUNK || blocks == maxChunk || range.last == latest)
  }

  /** A refusal halves the chunk, and costs one of its halvings. */
  lemma OneHalving(chunk: nat)
    requires chunk > MIN_CHUNK
    ensures 1 <= Halved(chunk) < chunk && Halvings(chunk) == 1 + Halvings(Halved(chunk))
  {
  }

  /** The whole range read is the whole scan. */
  lemma ReadToTheEnd(log: ChainLog, fromBlock: nat, from: nat, latest: int, found: map<nat, nat>, ranges: seq<Range>)
    requires ReadUpto(log, fromBlock, from, found, ranges)
    requires from == if fromBlock <= latest then latest + 1 else fromBlock
    ensures found == Collected(map[], EventsIn(log, fromBlock, latest)) && Tile(ranges, fromBlock, from)
  {
    if latest < fromBlock {
      assert EventsIn(log, fromBlock, latest) == [] == EventsIn(log, fromBlock, fromBlock - 1);
    }
  }

  /** A range served: its events are put into the Map. */
  method Take(log: ChainLog, ghost fromBlock: nat, found: map<nat, nat>, ranges: seq<Range>, range: Range)
    returns (foundNow: map<nat, nat>, rangesNow: seq<Range>)
    requires range.first <= range.last && ReadUpto(log, fromBlock, range.first, found, ranges)
    ensures ReadUpto(log, fromBlock, range.last + 1, foundNow, rangesNow) && rangesNow == ranges + [range]
  {
    RangeIsTaken(log, fromBlock, found, ranges, range);
    foundNow := PutAll(found, EventsIn(log, range.first, range.last));
    rangesNow := ranges + [range];
  }

  /**
   `refuses(n, r)` is whether the n-th request, for range r, fails. The scan either succeeds
   on ranges that tile fromBlock..latest exactly, with the Map every whole-range read would
   give, or fails on a refused range of at most MIN_CHUNK blocks, the `last` asked for. `refused` counts the
   refusals it got past: over the whole scan, no more than Halvings(maxChunk).
   */
  method ScanPayouts(log: ChainLog, refuses: (nat, Range) -> bool, fromBlock: nat, latest: int, maxChunk: nat)
    returns (payouts: Option<map<nat, nat>>, ranges: seq<Range>, refused: nat, requests: nat, ghost last: Range)
    requires maxChunk >= 1
    ensures payouts.Some? ==> payouts.value == Collected(map[], EventsIn(log, fromBlock, latest))
    ensures payouts.Some? ==> Tile(ranges, fromBlock, if fromBlock <= latest then latest + 1 else fromBlock)
    ensures payouts.None? ==> requests > 0 && refuses(requests - 1, last) && fromBlock <= last.first <= last.last <= latest && last.last < last.first + MIN_CHUNK
    ensures refused <= Halvings(maxChunk)
    ensures forall i :: 0 <= i < |ranges| ==> IsChunk(ranges[i], maxChunk, latest)
    ensures requests == |ranges| + refused + (if payouts.None? then 1 else 0)
  {
    var found: map<nat, nat> := map[];
    var chunk := maxChunk;
    var from := fromBlock;
    ranges, refused, requests := [], 0, 0;
    last := Range(0, 0);
    while from <= latest
      invariant fromBlock <= from <= (if fromBlock <= latest then latest + 1 else fromBlock)
      invariant 1 <= chunk <= maxChunk
      invariant ReadUpto(log, fromBlock, from, found, ranges)
      invariant refused + Halvings(chunk) == Halvings(maxChunk)
      invariant (chunk >= MIN_CHUNK || chunk == maxChunk) && forall i :: 0 <= i < |ranges| ==> IsChunk(ranges[i], maxChunk, latest)
      invariant requests == |ranges| + refused
      decreases latest + 1 - from, chunk
    {
      var range := NextRange(from, chunk, latest);
      requests, last := requests + 1, range;
      if refuses(requests - 1, range) {
        if chunk <= MIN_CHUNK {
          payouts := None;
          return;
        }
        OneHalving(chunk);
        chunk := Halved(chunk);
        refused := refused + 1;
      } else {
        found, ranges := Take(log, fromBlock, found, ranges, range);
        from := range.last + 1;
      }
    }
    ReadToTheEnd(log, fromBlock, from, latest, found, ranges);
    payouts := Some(found);
  }
}
