/**
 Judging in rounds: candidates are ranked in batches, then the batch winners in batches again,
 until at most one is left. Every ranking is one answer of a model that may answer anything.
 */
module Tournament {
  import opened Wrappers
  import opened Ranking

  const JUDGE_BATCH: nat := 6
  const JUDGE_MAX_SUBMISSIONS: nat := 60

  datatype Candidate = Candidate(id: string, submitter: string, text: string)

  /** What the n-th ranking call says of a batch: a checked ranking, or None. */
  type Rank = (nat, seq<Candidate>) -> Option<Ranked>

  /** One round: who entered it, the number of its first ranking call, and its scores. */
  datatype Round = Round(entrants: seq<Candidate>, firstCall: nat, scores: seq<Score>)

  /** `calls` counts every ranking call so far. */
  datatype Judgement = Failed(calls: nat) | Judged(winner: Option<Candidate>, rounds: seq<Round>, calls: nat)

  predicate DistinctIds(cs: seq<Candidate>) {
    forall i, j :: 0 <= i < j < |cs| ==> cs[i].id != cs[j].id
  }

  ghost function IdsOf(cs: seq<Candidate>): set<string> { set c | c in cs :: c.id }

  /** `rank` went through the check: what it gives is consistent with the batch. */
  ghost predicate Checked(rank: Rank) {
    forall n: nat, batch: seq<Candidate> :: rank(n, batch).Some? ==> Consistent(rank(n, batch).value, IdsOf(batch))
  }

  /** round.slice(i, i + b) */
  function Batch(round: seq<Candidate>, i: nat, b: nat): seq<Candidate>
    requires i <= |round|
  {
    if i + b <= |round| then round[i..i + b] else round[i..]
  }

  /** The batch's candidate with the winner's id, as a list of at most one. */
  function WinnerOf(batch: seq<Candidate>, ranked: Ranked): (w: seq<Candidate>)
    ensures |w| <= 1 && (w != [] ==> w[0] in batch && ranked.winner == Some(w[0].id))
  {
    if ranked.winner.None? || batch == [] then []
    else if batch[0].id == ranked.winner.value then [batch[0]]
    else WinnerOf(batch[1..], ranked)
  }

  // ---- What a judgement is --------------------------------------------------------------------

  datatype RoundResult = RoundFailed(calls: nat) | RoundDone(scores: seq<Score>, winners: seq<Candidate>, calls: nat)

  /** The batches of `round` from index `i` on, the next call being number `call`. */
  function RankFrom(round: seq<Candidate>, i: nat, call: nat, rank: Rank, b: nat): (r: RoundResult)
    requires b >= 1
    decreases |round| - i
  {
    if i >= |round| then RoundDone([], [], call)
    else
      var batch := Batch(round, i, b);
      var ranked := rank(call, batch);
      if ranked.None? then RoundFailed(call + 1)
      else
        After(ranked.value.scores, WinnerOf(batch, ranked.value), RankFrom(round, i + b, call + 1, rank, b))
  }

  /** A round costs a call for each batch, and has at most a winner from each. */
  lemma {:induction false} RoundCosts(round: seq<Candidate>, i: nat, call: nat, rank: Rank, b: nat)
    requires b >= 1 && i <= |round|
    ensures var r := RankFrom(round, i, call, rank, b);
            && call <= r.calls <= call + Batches(|round| - i, b)
            && (r.RoundDone? ==> r.calls == call + Batches(|round| - i, b) && |r.winners| <= r.calls - call)
    decreases |round| - i
  {
    if i < |round| && rank(call, Batch(round, i, b)).Some? {
      var ranked := rank(call, Batch(round, i, b)).value;
      var rest := RankFrom(round, i + b, call + 1, rank, b);
      if i + b <= |round| {
        RoundCosts(round, i + b, call + 1, rank, b);
      } else {
        assert rest == RoundDone([], [], call + 1);
      }
      assert RankFrom(round, i, call, rank, b) == After(ranked.scores, WinnerOf(Batch(round, i, b), ranked), rest);
    }
  }

  /** A round's result with earlier scores and winners put before its own. */
  function After(scores: seq<Score>, winners: seq<Candidate>, r: RoundResult): RoundResult {
    match r
    case RoundFailed(calls) => RoundFailed(calls)
    case RoundDone(s, w, calls) => RoundDone(scores + s, winners + w, calls)
  }

  lemma AfterNothing(r: RoundResult)
    ensures After([], [], r) == r
  {
    if r.RoundDone? {
      assert [] + r.scores == r.scores && [] + r.winners == r.winners;
    }
  }

  lemma AfterAfter(s1: seq<Score>, w1: seq<Candidate>, s2: seq<Score>, w2: seq<Candidate>, r: RoundResult)
    ensures After(s1, w1, After(s2, w2, r)) == After(s1 + s2, w1 + w2, r)
  {
    if r.RoundDone? {
      assert s1 + (s2 + r.scores) == (s1 + s2) + r.scores;
      assert w1 + (w2 + r.winners) == (w1 + w2) + r.winners;
    }
  }

  /** How many batches of at most `b` hold `m` candidates. */
  function Batches(m: nat, b: nat): (n: nat)
    requires b >= 1
    ensures n <= m && (m > 0 ==> n > 0)
    ensures b >= 2 && m >= 2 ==> n < m
  {
    if m == 0 then 0 else if m <= b then 1 else 1 + Batches(m - b, b)
  }

  /** Round after round; with batches of at least two, each round has fewer entrants than the last. */
  function Judge(round: seq<Candidate>, call: nat, rank: Rank, b: nat): (j: Judgement)
    requires b >= 2
    decreases |round|
  {
    RoundCosts(round, 0, call, rank, b);
    match RankFrom(round, 0, call, rank, b)
    case RoundFailed(calls) => Failed(calls)
    case RoundDone(scores, winners, calls) =>
      var this_round := Round(round, call, scores);
      if winners == [] then Judged(None, [this_round], calls)
      else if |winners| == 1 then Judged(Some(winners[0]), [this_round], calls)
      else
        match Judge(winners, calls, rank, b)
        case Failed(c) => Failed(c)
        case Judged(winner, rounds, c) => Judged(winner, [this_round] + rounds, c)
  }

  /** The model is not asked past a call at which nothing is answered. */
  lemma {:induction false} RoundStopsAt(round: seq<Candidate>, i: nat, call: nat, rank: Rank, b: nat, n: nat)
    requires b >= 1 && call <= n && forall batch :: rank(n, batch).None?
    ensures var r := RankFrom(round, i, call, rank, b); r.calls <= n || (r.RoundFailed? && r.calls == n + 1)
    decreases |round| - i
  {
    if i < |round| && rank(call, Batch(round, i, b)).Some? {
      RoundStopsAt(round, i + b, call + 1, rank, b, n);
    }
  }

  /** A judgement that reaches such a call ends there, failed. */
  lemma {:induction false} JudgementStopsAt(candidates: seq<Candidate>, call: nat, rank: Rank, b: nat, n: nat)
    requires b >= 2 && call <= n && forall batch :: rank(n, batch).None?
    ensures var j := Judge(candidates, call, rank, b); n < j.calls ==> j.Failed? && j.calls == n + 1
    decreases |candidates|
  {
    RoundCosts(candidates, 0, call, rank, b);
    RoundStopsAt(candidates, 0, call, rank, b, n);
    var r := RankFrom(candidates, 0, call, rank, b);
    if r.RoundDone? && |r.winners| >= 2 {
      JudgementStopsAt(r.winners, r.calls, rank, b, n);
    }
  }

  /** Ranking one batch more, after what was scored and won before. */
  lemma BatchIsRanked(scores: seq<Score>, winners: seq<Candidate>, round: seq<Candidate>, i: nat, call: nat, rank: Rank, b: nat)
    requires b >= 1 && i < |round| && rank(call, Batch(round, i, b)).Some?
    ensures var ranked := rank(call, Batch(round, i, b)).value;
            After(scores, winners, RankFrom(round, i, call, rank, b)) ==
            After(scores + ranked.scores, winners + WinnerOf(Batch(round, i, b), ranked), RankFrom(round, i + b, call + 1, rank, b))
  {
    var ranked := rank(call, Batch(round, i, b)).value;
    AfterAfter(scores, winners, ranked.scores, WinnerOf(Batch(round, i, b), ranked), RankFrom(round, i + b, call + 1, rank, b));
  }

  method RankRound(round: seq<Candidate>, firstCall: nat, rank: Rank, b: nat) returns (r: RoundResult)
    requires b >= 1
    ensures r == RankFrom(round, 0, firstCall, rank, b)
  {
    var scores: seq<Score>, winners: seq<Candidate>, call: nat, i: nat := [], [], firstCall, 0;
    AfterNothing(RankFrom(round, 0, firstCall, rank, b));
    while i < |round|
      invariant RankFrom(round, 0, firstCall, rank, b) == After(scores, winners, RankFrom(round, i, call, rank, b))
      decreases |round| - i
    {
      var batch := Batch(round, i, b);
      var ranked := rank(call, batch);
      if ranked.None? {
        return RoundFailed(call + 1);
      }
      var won := WinnerOf(batch, ranked.value);
      BatchIsRanked(scores, winners, round, i, call, rank, b);
      scores, winners := scores + ranked.value.scores, winners + won;
      call, i := call + 1, i + b;
    }
    assert scores + [] == scores && winners + [] == winners;
    r := RoundDone(scores, winners, call);
  }

  method JudgeInRounds(candidates: seq<Candidate>, rank: Rank, b: nat) returns (j: Judgement)
    requires b >= 2
    ensures j == Judge(candidates, 0, rank, b)
  {
    var rounds: seq<Round>, round, call := [], candidates, 0;
    while true
      invariant Judge(candidates, 0, rank, b) ==
                match Judge(round, call, rank, b)
                case Failed(c) => Failed(c)
                case Judged(w, rs, c) => Judged(w, rounds + rs, c)
      decreases |round|
    {
      var r := RankRound(round, call, rank, b);
      RoundCosts(round, 0, call, rank, b);
      if r.RoundFailed? {
        return Failed(r.calls);
      }
      ghost var before := rounds;
      rounds := rounds + [Round(round, call, r.scores)];
      if r.winners == [] {
        return Judged(None, rounds, r.calls);
      }
      if |r.winners| == 1 {
        return Judged(Some(r.winners[0]), rounds, r.calls);
      }
      ghost var later := Judge(r.winners, r.calls, rank, b);
      assert later.Judged? ==> before + ([Round(round, call, r.scores)] + later.rounds) == rounds + later.rounds;
      round, call := r.winners, r.calls;
    }
  }

  // ---- What it guarantees ---------------------------------------------------------------------

  /** `w` was named the winner of its batch, and scored no lower than any of that batch. */
  ghost predicate WonFrom(w: Candidate, round: seq<Candidate>, i: nat, call: nat, rank: Rank, b: nat)
    requires b >= 1
    decreases |round| - i
  {
    i < |round|
    && var batch := Batch(round, i, b);
       || (w in batch && rank(call, batch).Some? && rank(call, batch).value.winner == Some(w.id)
           && IsBest(rank(call, batch).value.scores, w.id))
       || WonFrom(w, round, i + b, call + 1, rank, b)
  }

  lemma FirstOrLater(won: seq<Candidate>, later: seq<Candidate>, w: Candidate)
    requires |won| <= 1 && w in won + later
    ensures (won != [] && w == won[0]) || w in later
  {
  }

  lemma BatchWinnerWon(round: seq<Candidate>, i: nat, call: nat, rank: Rank, b: nat, w: Candidate)
    requires b >= 1 && i < |round| && Checked(rank) && rank(call, Batch(round, i, b)).Some?
    requires w in WinnerOf(Batch(round, i, b), rank(call, Batch(round, i, b)).value)
    ensures w in round && WonFrom(w, round, i, call, rank, b)
  {
    assert Consistent(rank(call, Batch(round, i, b)).value, IdsOf(Batch(round, i, b)));
  }

  lemma {:induction false} RoundWinnersWon(round: seq<Candidate>, i: nat, call: nat, rank: Rank, b: nat)
    requires b >= 1 && Checked(rank) && RankFrom(round, i, call, rank, b).RoundDone?
    ensures forall w :: w in RankFrom(round, i, call, rank, b).winners ==> w in round && WonFrom(w, round, i, call, rank, b)
    decreases |round| - i
  {
    if i < |round| {
      RoundWinnersWon(round, i + b, call + 1, rank, b);
      var batch := Batch(round, i, b);
      var ranked := rank(call, batch).value;
      var won, later := WinnerOf(batch, ranked), RankFrom(round, i + b, call + 1, rank, b).winners;
      assert RankFrom(round, i, call, rank, b).winners == won + later;
      if won != [] {
        BatchWinnerWon(round, i, call, rank, b, won[0]);
      }
      forall w | w in won + later
        ensures w in round && WonFrom(w, round, i, call, rank, b)
      {
        FirstOrLater(won, later, w);
      }
    }
  }

  /**
   A pick entered as a candidate, and in every round it was in, the model named it the winner of
   its batch and scored nobody there higher. Each round has fewer entrants than the one before.
   */
  lemma {:induction false} PickWonEveryRound(candidates: seq<Candidate>, call: nat, rank: Rank, b: nat)
    requires b >= 2 && Checked(rank) && Judge(candidates, call, rank, b).Judged?
    ensures var j := Judge(candidates, call, rank, b);
            && j.rounds != [] && j.rounds[0].entrants == candidates
            && (forall k :: 0 < k < |j.rounds| ==> |j.rounds[k].entrants| < |j.rounds[k - 1].entrants|)
            && (j.winner.Some? ==>
                  && j.winner.value in candidates
                  && forall k :: 0 <= k < |j.rounds| ==>
                       WonFrom(j.winner.value, j.rounds[k].entrants, 0, j.rounds[k].firstCall, rank, b))
    decreases |candidates|
  {
    var r := RankFrom(candidates, 0, call, rank, b);
    RoundCosts(candidates, 0, call, rank, b);
    RoundWinnersWon(candidates, 0, call, rank, b);
    if |r.winners| >= 2 {
      PickWonEveryRound(r.winners, r.calls, rank, b);
    }
  }

  lemma ScoresOfBoth(a: seq<Score>, wantA: set<string>, b: seq<Score>, wantB: set<string>)
    requires ScoresAll(a, wantA) && ScoresAll(b, wantB) && wantA !! wantB
    ensures ScoresAll(a + b, wantA + wantB)
  {
    var s := a + b;
    forall id | id in wantA + wantB
      ensures Scored(s, id)
    {
      if id in wantA {
        var i :| 0 <= i < |a| && a[i].id == id;
        assert s[i].id == id;
      } else {
        var i :| 0 <= i < |b| && b[i].id == id;
        assert s[|a| + i].id == id;
      }
    }
  }

  /** The ids of a batch, and of what comes after it. */
  lemma BatchIds(round: seq<Candidate>, i: nat, b: nat) returns (next: nat)
    requires b >= 1 && i < |round| && DistinctIds(round)
    ensures i < next <= |round| && Batch(round, i, b) == round[i..next] && (i + b <= |round| ==> next == i + b)
    ensures i + b > |round| ==> next == |round|
    ensures IdsOf(round[i..next]) !! IdsOf(round[next..])
    ensures IdsOf(round[i..]) == IdsOf(round[i..next]) + IdsOf(round[next..])
  {
    next := if i + b <= |round| then i + b else |round|;
    assert round[i..] == round[i..next] + round[next..];
  }

  lemma WinnersDiffer(batch: seq<Candidate>, ranked: Ranked, later: seq<Candidate>, rest: set<string>)
    requires DistinctIds(later) && IdsOf(later) <= rest && IdsOf(batch) !! rest
    ensures DistinctIds(WinnerOf(batch, ranked) + later)
    ensures IdsOf(WinnerOf(batch, ranked) + later) <= IdsOf(batch) + rest
  {
    var won := WinnerOf(batch, ranked);
    if won != [] {
      assert won == [won[0]] && won[0].id in IdsOf(batch);
      assert forall i :: 0 <= i < |later| ==> later[i].id in IdsOf(later);
    } else {
      assert won + later == later;
    }
  }

  /** A round is its first batch, and the rest from `next` on. */
  lemma FirstBatch(round: seq<Candidate>, i: nat, call: nat, rank: Rank, b: nat, next: nat)
    requires b >= 1 && i < |round| && Checked(rank) && RankFrom(round, i, call, rank, b).RoundDone?
    requires next == if i + b <= |round| then i + b else |round|
    ensures var batch, rest := Batch(round, i, b), RankFrom(round, next, call + 1, rank, b);
            && rank(call, batch).Some? && Consistent(rank(call, batch).value, IdsOf(batch)) && rest.RoundDone?
            && RankFrom(round, i, call, rank, b) == After(rank(call, batch).value.scores, WinnerOf(batch, rank(call, batch).value), rest)
  {
    assert RankFrom(round, i + b, call + 1, rank, b) == RankFrom(round, next, call + 1, rank, b);
  }

  lemma BatchAndRest(batch: seq<Candidate>, ranked: Ranked, rest: RoundResult, restIds: set<string>)
    requires Consistent(ranked, IdsOf(batch)) && rest.RoundDone? && IdsOf(batch) !! restIds
    requires ScoresAll(rest.scores, restIds) && DistinctIds(rest.winners) && IdsOf(rest.winners) <= restIds
    ensures var r := After(ranked.scores, WinnerOf(batch, ranked), rest);
            && ScoresAll(r.scores, IdsOf(batch) + restIds)
            && DistinctIds(r.winners) && IdsOf(r.winners) <= IdsOf(batch) + restIds
  {
    ScoresOfBoth(ranked.scores, IdsOf(batch), rest.scores, restIds);
    WinnersDiffer(batch, ranked, rest.winners, restIds);
  }

  /** A round scores each of its entrants exactly once, and its winners are different entrants. */
  lemma {:induction false} RoundScoresEachOnce(round: seq<Candidate>, i: nat, call: nat, rank: Rank, b: nat)
    requires b >= 1 && i <= |round| && DistinctIds(round) && Checked(rank)
    requires RankFrom(round, i, call, rank, b).RoundDone?
    ensures var r := RankFrom(round, i, call, rank, b);
            && ScoresAll(r.scores, IdsOf(round[i..]))
            && DistinctIds(r.winners) && IdsOf(r.winners) <= IdsOf(round[i..])
    decreases |round| - i
  {
    if i < |round| {
      var next := BatchIds(round, i, b);
      FirstBatch(round, i, call, rank, b, next);
      RoundScoresEachOnce(round, next, call + 1, rank, b);
      BatchAndRest(Batch(round, i, b), rank(call, Batch(round, i, b)).value, RankFrom(round, next, call + 1, rank, b), IdsOf(round[next..]));
    }
  }

  /** Every round scores each of its entrants exactly once; the first, every candidate. */
  lemma {:induction false} EveryRoundScoresEachOnce(candidates: seq<Candidate>, call: nat, rank: Rank, b: nat)
    requires b >= 2 && DistinctIds(candidates) && Checked(rank) && Judge(candidates, call, rank, b).Judged?
    ensures forall r :: r in Judge(candidates, call, rank, b).rounds ==> ScoresAll(r.scores, IdsOf(r.entrants))
    decreases |candidates|
  {
    RoundScoresEachOnce(candidates, 0, call, rank, b);
    RoundCosts(candidates, 0, call, rank, b);
    assert candidates[0..] == candidates;
    var r := RankFrom(candidates, 0, call, rank, b);
    if |r.winners| >= 2 {
      EveryRoundScoresEachOnce(r.winners, r.calls, rank, b);
    }
  }

  // ---- What it costs --------------------------------------------------------------------------

  /** How many of the batches are full. */
  function FullBatches(m: nat, b: nat): nat
    requires b >= 1
  {
    if m < b then 0 else 1 + FullBatches(m - b, b)
  }

  function SumFull(rounds: seq<Round>, b: nat): nat
    requires b >= 1
  {
    if rounds == [] then 0 else FullBatches(|rounds[0].entrants|, b) + SumFull(rounds[1..], b)
  }

  function SumBatches(rounds: seq<Round>, b: nat): nat
    requires b >= 1
  {
    if rounds == [] then 0 else Batches(|rounds[0].entrants|, b) + SumBatches(rounds[1..], b)
  }

  lemma OneTimeMore(c: nat, x: nat)
    ensures c * (1 + x) == c + c * x
  {
  }

  /** At most one batch of a round is partial; a full one leaves b - 1 of its members behind. */
  lemma {:induction false} BatchesLeaveBehind(m: nat, b: nat)
    requires b >= 1
    ensures FullBatches(m, b) <= Batches(m, b) <= FullBatches(m, b) + 1
    ensures (b - 1) * FullBatches(m, b) + Batches(m, b) <= m
  {
    if m >= b {
      BatchesLeaveBehind(m - b, b);
      OneTimeMore(b - 1, FullBatches(m - b, b));
    }
  }

  lemma SumsOfFirst(first: Round, later: seq<Round>, b: nat)
    requires b >= 1
    ensures SumFull([first] + later, b) == FullBatches(|first.entrants|, b) + SumFull(later, b)
    ensures SumBatches([first] + later, b) == Batches(|first.entrants|, b) + SumBatches(later, b)
  {
    assert ([first] + later)[1..] == later;
  }

  lemma LeftBehindAddsUp(c: nat, full: nat, later: nat, total: nat, batches: nat, winners: nat, m: nat)
    requires c * full + batches <= m && winners <= batches && (later == 0 || c * later <= winners) && total == full + later
    ensures c * total <= m
  {
    assert c * total == c * full + c * later;
  }

  /** The ranking calls are one per batch of each round, at most one of a round's batches partial. */
  lemma {:induction false} CallsAreOnePerBatch(candidates: seq<Candidate>, call: nat, rank: Rank, b: nat)
    requires b >= 2 && Judge(candidates, call, rank, b).Judged?
    ensures var j := Judge(candidates, call, rank, b);
            && j.calls - call == SumBatches(j.rounds, b)
            && SumBatches(j.rounds, b) <= SumFull(j.rounds, b) + |j.rounds|
    decreases |candidates|
  {
    var r := RankFrom(candidates, 0, call, rank, b);
    var first := Round(candidates, call, r.scores);
    RoundCosts(candidates, 0, call, rank, b);
    BatchesLeaveBehind(|candidates|, b);
    SumsOfFirst(first, [], b);
    assert [first] + [] == [first];
    if |r.winners| >= 2 {
      CallsAreOnePerBatch(r.winners, r.calls, rank, b);
      SumsOfFirst(first, Judge(r.winners, r.calls, rank, b).rounds, b);
    }
  }

  /** The full batches of all rounds, times what each leaves behind, are at most the candidates. */
  lemma {:induction false} FullBatchesAreBounded(candidates: seq<Candidate>, call: nat, rank: Rank, b: nat)
    requires b >= 2 && Judge(candidates, call, rank, b).Judged?
    ensures (b - 1) * SumFull(Judge(candidates, call, rank, b).rounds, b) <= |candidates|
    decreases |candidates|
  {
    var m := |candidates|;
    var r := RankFrom(candidates, 0, call, rank, b);
    RoundCosts(candidates, 0, call, rank, b);
    BatchesLeaveBehind(m, b);
    FullOfFirst(candidates, call, rank, b);
    var later := if |r.winners| < 2 then 0 else SumFull(Judge(r.winners, r.calls, rank, b).rounds, b);
    if |r.winners| >= 2 {
      FullBatchesAreBounded(r.winners, r.calls, rank, b);
    }
    LeftBehindAddsUp(b - 1, FullBatches(m, b), later, SumFull(Judge(candidates, call, rank, b).rounds, b), Batches(m, b), |r.winners|, m);
  }

  lemma FullOfFirst(candidates: seq<Candidate>, call: nat, rank: Rank, b: nat)
    requires b >= 2 && Judge(candidates, call, rank, b).Judged?
    ensures var r := RankFrom(candidates, 0, call, rank, b);
            SumFull(Judge(candidates, call, rank, b).rounds, b) == FullBatches(|candidates|, b) +
              (if |r.winners| < 2 then 0 else SumFull(Judge(r.winners, r.calls, rank, b).rounds, b))
  {
    var r := RankFrom(candidates, 0, call, rank, b);
    var first := Round(candidates, call, r.scores);
    if |r.winners| < 2 {
      SumsOfFirst(first, [], b);
      assert [first] + [] == [first];
    } else {
      SumsOfFirst(first, Judge(r.winners, r.calls, rank, b).rounds, b);
    }
  }

  /** The most calls `m` candidates can take: each round as many winners as batches. */
  function MaxCalls(m: nat, b: nat): nat
    requires b >= 2
  {
    Batches(m, b) + (if Batches(m, b) >= 2 then MaxCalls(Batches(m, b), b) else 0)
  }

  lemma {:induction false} BatchesGrow(m: nat, n: nat, b: nat)
    requires b >= 1 && m <= n
    ensures Batches(m, b) <= Batches(n, b)
    decreases m
  {
    if m > b {
      BatchesGrow(m - b, n - b, b);
    }
  }

  lemma {:induction false} MaxCallsGrow(m: nat, n: nat, b: nat)
    requires b >= 2 && m <= n
    ensures MaxCalls(m, b) <= MaxCalls(n, b)
    decreases m
  {
    BatchesGrow(m, n, b);
    if Batches(m, b) >= 2 {
      MaxCallsGrow(Batches(m, b), Batches(n, b), b);
    }
  }

  /** No judgement, failed or not, takes more calls than that. */
  lemma {:induction false} CallsAreBounded(candidates: seq<Candidate>, call: nat, rank: Rank, b: nat)
    requires b >= 2
    ensures Judge(candidates, call, rank, b).calls <= call + MaxCalls(|candidates|, b)
    decreases |candidates|
  {
    var r := RankFrom(candidates, 0, call, rank, b);
    RoundCosts(candidates, 0, call, rank, b);
    if r.RoundDone? && |r.winners| >= 2 {
      CallsAreBounded(r.winners, r.calls, rank, b);
      MaxCallsGrow(|r.winners|, Batches(|candidates|, b), b);
    }
  }

  /** With the code's sizes, judging a task takes at most 13 model calls. */
  lemma ThirteenCallsAtMost(candidates: seq<Candidate>, rank: Rank)
    requires |candidates| <= JUDGE_MAX_SUBMISSIONS
    ensures Judge(candidates, 0, rank, JUDGE_BATCH).calls <= 13
  {
    CallsAreBounded(candidates, 0, rank, JUDGE_BATCH);
    MaxCallsGrow(|candidates|, JUDGE_MAX_SUBMISSIONS, JUDGE_BATCH);
    assert Batches(12, 6) == 2 && Batches(24, 6) == 4 && Batches(36, 6) == 6 && Batches(48, 6) == 8 && Batches(60, 6) == 10;
    assert Batches(10, 6) == 2 && Batches(2, 6) == 1;
    assert MaxCalls(2, 6) == 1 && MaxCalls(10, 6) == 3;
  }

  // ---- What the rankings say, and nothing else ------------------------------------------------

  /** The end of the batch that begins at `i`. */
  function EndOf(round: seq<Candidate>, i: nat, b: nat): (k: nat)
    requires b >= 1 && i < |round|
    ensures i < k <= |round|
  {
    if i + b <= |round| then i + b else |round|
  }

  /**
   From index `i` on, every batch was ranked: its scores come next in `scores`, and the candidate its
   ranking names, if it names one, comes next in `named`.
   */
  ghost predicate AreRanked(round: seq<Candidate>, i: nat, call: nat, rank: Rank, b: nat, scores: seq<Score>, named: seq<Candidate>)
    requires b >= 1
    decreases |round| - i
  {
    if i >= |round| then scores == [] && named == []
    else
      var k := EndOf(round, i, b);
      var answer := rank(call, round[i..k]);
      && answer.Some? && answer.value.scores <= scores
      && var later := scores[|answer.value.scores|..];
         match answer.value.winner
         case None => AreRanked(round, k, call + 1, rank, b, later, named)
         case Some(id) =>
           && named != [] && named[0] in round[i..k] && named[0].id == id
           && AreRanked(round, k, call + 1, rank, b, later, named[1..])
  }

  /** Some batch from index `i` on was asked for and not ranked, none before it: the last call was then number `calls` - 1. */
  ghost predicate FailsFrom(round: seq<Candidate>, i: nat, call: nat, rank: Rank, b: nat, calls: nat)
    requires b >= 1
    decreases |round| - i
  {
    i < |round| &&
    var k := EndOf(round, i, b);
    if rank(call, round[i..k]).None? then calls == call + 1 else FailsFrom(round, k, call + 1, rank, b, calls)
  }

  /** How many calls the batches of a round are. */
  function CallsOf(r: Round, b: nat): nat
    requires b >= 1
  {
    Batches(|r.entrants|, b)
  }

  /** Rounds in turn from these candidates: who enters the next is exactly who the rankings name, two or more of them. */
  ghost predicate IsCourse(rounds: seq<Round>, candidates: seq<Candidate>, call: nat, rank: Rank, b: nat)
    requires b >= 1
  {
    && rounds != [] && rounds[0].entrants == candidates && rounds[0].firstCall == call
    && forall k :: 0 <= k < |rounds| - 1 ==> LeadsTo(rounds[k], rounds[k + 1], rank, b)
  }

  ghost predicate LeadsTo(r: Round, next: Round, rank: Rank, b: nat)
    requires b >= 1
  {
    && AreRanked(r.entrants, 0, r.firstCall, rank, b, r.scores, next.entrants)
    && |next.entrants| >= 2 && next.firstCall == r.firstCall + CallsOf(r, b)
  }

  /** The last round names this winner and nobody else, or nobody at all. */
  ghost predicate EndsWith(rounds: seq<Round>, winner: Option<Candidate>, calls: nat, rank: Rank, b: nat)
    requires b >= 1 && rounds != []
  {
    var last := rounds[|rounds| - 1];
    && AreRanked(last.entrants, 0, last.firstCall, rank, b, last.scores, if winner.Some? then [winner.value] else [])
    && calls == last.firstCall + CallsOf(last, b)
  }

  /** A ranking of the last round failed. */
  ghost predicate EndsFailing(rounds: seq<Round>, calls: nat, rank: Rank, b: nat)
    requires b >= 1 && rounds != []
  {
    var last := rounds[|rounds| - 1];
    FailsFrom(last.entrants, 0, last.firstCall, rank, b, calls)
  }

  lemma {:induction false} FailedCallIsCounted(round: seq<Candidate>, i: nat, call: nat, rank: Rank, b: nat, calls: nat)
    requires b >= 1 && FailsFrom(round, i, call, rank, b, calls)
    ensures calls > call
    decreases |round| - i
  {
    if rank(call, round[i..EndOf(round, i, b)]).Some? {
      FailedCallIsCounted(round, EndOf(round, i, b), call + 1, rank, b, calls);
    }
  }

  /** A consistent ranking that names somebody names one of its batch. */
  lemma {:induction false} NamedIsFound(batch: seq<Candidate>, ranked: Ranked)
    requires ranked.winner.Some? && ranked.winner.value in IdsOf(batch)
    ensures |WinnerOf(batch, ranked)| == 1
  {
    if batch[0].id == ranked.winner.value {
    } else {
      assert IdsOf(batch) == {batch[0].id} + IdsOf(batch[1..]) by {
        assert batch == [batch[0]] + batch[1..];
      }
      NamedIsFound(batch[1..], ranked);
    }
  }

  lemma BatchIsSlice(round: seq<Candidate>, i: nat, b: nat)
    requires b >= 1 && i < |round|
    ensures Batch(round, i, b) == round[i..EndOf(round, i, b)]
  {
  }

  /** A round is what its rankings say: ranked to its end, or failed. */
  lemma {:induction false} RoundIsRanked(round: seq<Candidate>, i: nat, call: nat, rank: Rank, b: nat)
    requires b >= 1 && i <= |round| && Checked(rank)
    ensures var r := RankFrom(round, i, call, rank, b);
            if r.RoundDone? then AreRanked(round, i, call, rank, b, r.scores, r.winners) else FailsFrom(round, i, call, rank, b, r.calls)
    decreases |round| - i
  {
    if i == |round| {
    } else {
      var k := EndOf(round, i, b);
      BatchIsSlice(round, i, b);
      RoundIsRanked(round, k, call + 1, rank, b);
      assert RankFrom(round, i + b, call + 1, rank, b) == RankFrom(round, k, call + 1, rank, b);
      var answer := rank(call, round[i..k]);
      if answer.Some? && RankFrom(round, k, call + 1, rank, b).RoundDone? {
        PutBefore(round, i, call, rank, b, RankFrom(round, k, call + 1, rank, b));
      }
    }
  }

  lemma PutBefore(round: seq<Candidate>, i: nat, call: nat, rank: Rank, b: nat, rest: RoundResult)
    requires b >= 1 && i < |round| && Checked(rank) && rank(call, round[i..EndOf(round, i, b)]).Some? && rest.RoundDone?
    requires AreRanked(round, EndOf(round, i, b), call + 1, rank, b, rest.scores, rest.winners)
    ensures var batch := round[i..EndOf(round, i, b)];
            var ranked := rank(call, batch).value;
            AreRanked(round, i, call, rank, b, ranked.scores + rest.scores, WinnerOf(batch, ranked) + rest.winners)
  {
    var batch := round[i..EndOf(round, i, b)];
    var ranked := rank(call, batch).value;
    assert Consistent(ranked, IdsOf(batch));
    assert (ranked.scores + rest.scores)[|ranked.scores|..] == rest.scores;
    var won := WinnerOf(batch, ranked);
    if ranked.winner.Some? {
      NamedIsFound(batch, ranked);
      assert (won + rest.winners)[1..] == rest.winners;
    } else {
      assert won + rest.winners == rest.winners;
    }
  }

  lemma OneRoundCourse(r: Round, rank: Rank, b: nat)
    requires b >= 1
    ensures IsCourse([r], r.entrants, r.firstCall, rank, b)
  {
  }

  lemma LongerCourse(r: Round, rounds: seq<Round>, rank: Rank, b: nat)
    requires b >= 1 && rounds != [] && LeadsTo(r, rounds[0], rank, b)
    requires IsCourse(rounds, rounds[0].entrants, rounds[0].firstCall, rank, b)
    ensures IsCourse([r] + rounds, r.entrants, r.firstCall, rank, b)
    ensures ([r] + rounds)[|rounds|] == rounds[|rounds| - 1]
  {
    var all := [r] + rounds;
    forall k | 0 <= k < |all| - 1
      ensures LeadsTo(all[k], all[k + 1], rank, b)
    {
      if k > 0 {
        assert LeadsTo(rounds[k - 1], rounds[k - 1 + 1], rank, b);
      }
    }
  }

  /** These rounds are how the judgement came about. */
  ghost predicate Shows(rounds: seq<Round>, j: Judgement, candidates: seq<Candidate>, call: nat, rank: Rank, b: nat)
    requires b >= 1
  {
    && IsCourse(rounds, candidates, call, rank, b)
    && match j
       case Failed(calls) => EndsFailing(rounds, calls, rank, b)
       case Judged(winner, judged, calls) => rounds == judged && EndsWith(rounds, winner, calls, rank, b)
  }

  lemma OneRoundShows(candidates: seq<Candidate>, call: nat, rank: Rank, b: nat, r: RoundResult)
    requires b >= 2 && r == RankFrom(candidates, 0, call, rank, b)
    requires if r.RoundDone? then AreRanked(candidates, 0, call, rank, b, r.scores, r.winners) else FailsFrom(candidates, 0, call, rank, b, r.calls)
    requires r.RoundDone? ==> |r.winners| < 2 && r.calls == call + Batches(|candidates|, b)
    ensures Shows([Round(candidates, call, if r.RoundDone? then r.scores else [])], Judge(candidates, call, rank, b), candidates, call, rank, b)
  {
    OneRoundCourse(Round(candidates, call, if r.RoundDone? then r.scores else []), rank, b);
    if r.RoundDone? && |r.winners| == 1 {
      assert r.winners == [r.winners[0]];
    }
  }

  lemma MoreRoundsShow(first: Round, later: seq<Round>, j: Judgement, rank: Rank, b: nat, winners: seq<Candidate>, calls: nat)
    requires b >= 2 && Shows(later, j, winners, calls, rank, b) && |winners| >= 2 && calls == first.firstCall + CallsOf(first, b)
    requires AreRanked(first.entrants, 0, first.firstCall, rank, b, first.scores, winners)
    ensures Shows([first] + later, if j.Judged? then j.(rounds := [first] + j.rounds) else j, first.entrants, first.firstCall, rank, b)
  {
    LongerCourse(first, later, rank, b);
  }

  /**
   A judgement is what the rankings say: its rounds are a course whose last round names the winner and
   nobody else, or nobody; or it failed, and a course ends in a ranking that failed.
   */
  lemma {:induction false} JudgementIsWhatRankingsSay(candidates: seq<Candidate>, call: nat, rank: Rank, b: nat)
    returns (rounds: seq<Round>, j: Judgement)
    requires b >= 2 && Checked(rank)
    ensures j == Judge(candidates, call, rank, b) && Shows(rounds, j, candidates, call, rank, b)
    decreases |candidates|
  {
    var r := RankFrom(candidates, 0, call, rank, b);
    RoundCosts(candidates, 0, call, rank, b);
    RoundIsRanked(candidates, 0, call, rank, b);
    if r.RoundDone? && |r.winners| >= 2 {
      var first := Round(candidates, call, r.scores);
      rounds, j := JudgementIsWhatRankingsSay(r.winners, r.calls, rank, b);
      MoreRoundsShow(first, rounds, j, rank, b, r.winners, r.calls);
      rounds, j := [first] + rounds, if j.Judged? then j.(rounds := [first] + j.rounds) else j;
    } else {
      rounds, j := [Round(candidates, call, if r.RoundDone? then r.scores else [])], Judge(candidates, call, rank, b);
      OneRoundShows(candidates, call, rank, b, r);
    }
  }

  /** What is ranked is ranked one way. */
  lemma {:induction false} RankedOneWay(round: seq<Candidate>, i: nat, call: nat, rank: Rank, b: nat,
                                        s: seq<Score>, n: seq<Candidate>, t: seq<Score>, m: seq<Candidate>)
    requires b >= 1 && DistinctIds(round)
    requires AreRanked(round, i, call, rank, b, s, n) && AreRanked(round, i, call, rank, b, t, m)
    ensures s == t && n == m
    decreases |round| - i
  {
    if i >= |round| {
    } else {
      var k := EndOf(round, i, b);
      var ranked := rank(call, round[i..k]).value;
      var l := |ranked.scores|;
      match ranked.winner
      case None =>
        RankedOneWay(round, k, call + 1, rank, b, s[l..], n, t[l..], m);
      case Some(id) =>
        RankedOneWay(round, k, call + 1, rank, b, s[l..], n[1..], t[l..], m[1..]);
        assert n == [n[0]] + n[1..] && m == [m[0]] + m[1..];
      assert s == ranked.scores + s[l..] && t == ranked.scores + t[l..];
    }
  }

  lemma {:induction false} NotBothRankedAndFailed(round: seq<Candidate>, i: nat, call: nat, rank: Rank, b: nat,
                                                  scores: seq<Score>, named: seq<Candidate>, calls: nat)
    requires b >= 1 && AreRanked(round, i, call, rank, b, scores, named)
    ensures !FailsFrom(round, i, call, rank, b, calls)
    decreases |round| - i
  {
    if i >= |round| {
    } else {
      var k := EndOf(round, i, b);
      var ranked := rank(call, round[i..k]).value;
      NotBothRankedAndFailed(round, k, call + 1, rank, b, scores[|ranked.scores|..], if ranked.winner.Some? then named[1..] else named, calls);
    }
  }

  /** A judgement fails exactly when some ranking it asks for does. */
  lemma {:induction false} FailsExactlyWhenARankingDoes(candidates: seq<Candidate>, call: nat, rank: Rank, b: nat)
    requires b >= 2 && Checked(rank) && DistinctIds(candidates)
    ensures Judge(candidates, call, rank, b).Failed? <==>
            exists rounds, calls :: IsCourse(rounds, candidates, call, rank, b) && EndsFailing(rounds, calls, rank, b)
  {
    var mine, j := JudgementIsWhatRankingsSay(candidates, call, rank, b);
    if j.Judged? {
      forall rounds, calls | IsCourse(rounds, candidates, call, rank, b)
        ensures !EndsFailing(rounds, calls, rank, b)
      {
        CourseDoesNotFail(rounds, candidates, call, rank, b, calls);
      }
    }
  }

  lemma LaterCourse(rounds: seq<Round>, candidates: seq<Candidate>, call: nat, rank: Rank, b: nat)
    requires b >= 1 && |rounds| >= 2 && IsCourse(rounds, candidates, call, rank, b)
    ensures LeadsTo(rounds[0], rounds[1], rank, b)
    ensures IsCourse(rounds[1..], rounds[1].entrants, rounds[1].firstCall, rank, b)
  {
    assert LeadsTo(rounds[0], rounds[0 + 1], rank, b);
    var later := rounds[1..];
    forall k | 0 <= k < |later| - 1
      ensures LeadsTo(later[k], later[k + 1], rank, b)
    {
      var n := k + 1;
      assert LeadsTo(rounds[n], rounds[n + 1], rank, b);
    }
  }

  /** The round that follows is who won this one. */
  lemma NextIsWinners(candidates: seq<Candidate>, r: Round, next: Round, rank: Rank, b: nat)
    requires b >= 2 && Checked(rank) && DistinctIds(candidates) && LeadsTo(r, next, rank, b) && r.entrants == candidates
    requires RankFrom(candidates, 0, r.firstCall, rank, b).RoundDone?
    ensures var won := RankFrom(candidates, 0, r.firstCall, rank, b);
            next.entrants == won.winners && next.firstCall == won.calls && DistinctIds(won.winners)
  {
    var won := RankFrom(candidates, 0, r.firstCall, rank, b);
    RoundCosts(candidates, 0, r.firstCall, rank, b);
    RoundIsRanked(candidates, 0, r.firstCall, rank, b);
    RankedOneWay(candidates, 0, r.firstCall, rank, b, won.scores, won.winners, r.scores, next.entrants);
    RoundScoresEachOnce(candidates, 0, r.firstCall, rank, b);
  }

  lemma {:induction false} CourseDoesNotFail(rounds: seq<Round>, candidates: seq<Candidate>, call: nat, rank: Rank, b: nat, calls: nat)
    requires b >= 2 && Checked(rank) && DistinctIds(candidates) && Judge(candidates, call, rank, b).Judged?
    requires IsCourse(rounds, candidates, call, rank, b)
    ensures !EndsFailing(rounds, calls, rank, b)
    decreases |rounds|
  {
    var r := RankFrom(candidates, 0, call, rank, b);
    RoundCosts(candidates, 0, call, rank, b);
    if |rounds| == 1 {
      RoundIsRanked(candidates, 0, call, rank, b);
      NotBothRankedAndFailed(candidates, 0, call, rank, b, r.scores, r.winners, calls);
    } else {
      LaterCourse(rounds, candidates, call, rank, b);
      NextIsWinners(candidates, rounds[0], rounds[1], rank, b);
      CourseDoesNotFail(rounds[1..], r.winners, r.calls, rank, b, calls);
    }
  }
}
