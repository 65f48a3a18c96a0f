/**
 The scorecard anchored with a pick. Those not judged are counted per reason; when the card is too
 long, reasons are shortened and the counts are lumped together, but nobody drops out of them.
 */
module Scorecard {
  import opened Wrappers
  import opened OpenJudge
  import opened Ranking
  import opened Sorting
  import opened Tournament

  /** The excluded for one reason. */
  datatype Group = Group(why: Why, count: nat, submitters: seq<string>)

  datatype RowWhy = Because(why: Why) | OtherReasons | NotJudged

  /** A row of the card's notJudged list; None when its submitters are not named. */
  datatype Row = Row(why: RowWhy, count: nat, submitters: Option<seq<string>>)

  datatype ScoreRow = ScoreRow(submitter: Option<string>, score: real)

  datatype Card = Card(winner: Option<string>, submissions: nat, judged: nat, scores: seq<ScoreRow>,
                       laterRounds: seq<seq<ScoreRow>>, notJudged: seq<Row>)

  /** How much a card says: characters of each reason, submitters named per group, groups listed. */
  datatype Tier = Tier(reasonChars: nat, named: nat, maxGroups: nat)

  const TIERS: seq<Tier> := [Tier(300, 20, 20), Tier(100, 5, 10), Tier(0, 0, 5)]

  // ---- Grouping -------------------------------------------------------------------------------

  /** Those excluded for one reason, in order. */
  function NamesOf(excluded: seq<Excluded>, why: Why): seq<string> {
    if excluded == [] then []
    else
      var e := excluded[|excluded| - 1];
      NamesOf(excluded[..|excluded| - 1], why) + (if e.why == why then [e.submitter] else [])
  }

  function GroupTotal(groups: seq<Group>): nat {
    if groups == [] then 0 else GroupTotal(groups[..|groups| - 1]) + groups[|groups| - 1].count
  }

  function Total(rows: seq<Row>): nat {
    if rows == [] then 0 else Total(rows[..|rows| - 1]) + rows[|rows| - 1].count
  }

  /** One group per reason given, holding exactly those excluded for it. */
  ghost predicate GroupsAre(groups: seq<Group>, excluded: seq<Excluded>) {
    && (forall i, j :: 0 <= i < j < |groups| ==> groups[i].why != groups[j].why)
    && (forall i :: 0 <= i < |groups| ==> IsGroup(groups[i], excluded))
    && (forall k :: 0 <= k < |excluded| ==> exists i :: 0 <= i < |groups| && groups[i].why == excluded[k].why)
  }

  predicate IsGroup(g: Group, excluded: seq<Excluded>) {
    g.submitters == NamesOf(excluded, g.why) && g.count == |g.submitters|
  }

  lemma {:induction false} OneMoreCounted(groups: seq<Group>, i: nat, g: Group)
    requires i < |groups| && g.count == groups[i].count + 1
    ensures GroupTotal(groups[i := g]) == GroupTotal(groups) + 1
  {
    var last := |groups| - 1;
    var after := groups[i := g];
    if i < last {
      OneMoreCounted(groups[..last], i, g);
      assert after[..last] == groups[..last][i := g];
    } else {
      assert after[..last] == groups[..last];
    }
  }

  lemma {:induction false} NoNames(excluded: seq<Excluded>, why: Why)
    requires forall k :: 0 <= k < |excluded| ==> excluded[k].why != why
    ensures NamesOf(excluded, why) == []
  {
    if excluded == [] {
    } else {
      NoNames(excluded[..|excluded| - 1], why);
    }
  }

  method FindGroup(groups: seq<Group>, why: Why) returns (i: nat)
    ensures i <= |groups| && (i < |groups| ==> groups[i].why == why)
    ensures forall k :: 0 <= k < i ==> groups[k].why != why
  {
    i := 0;
    while i < |groups| && groups[i].why != why
      invariant i <= |groups| && forall k :: 0 <= k < i ==> groups[k].why != why
    {
      i := i + 1;
    }
  }

  /** Nothing in `excluded` short of its last entry has that entry's reason, when no group has. */
  lemma FirstOfItsReason(groups: seq<Group>, before: seq<Excluded>, e: Excluded)
    requires GroupsAre(groups, before) && forall i :: 0 <= i < |groups| ==> groups[i].why != e.why
    ensures GroupsAre(groups + [Group(e.why, 1, [e.submitter])], before + [e])
  {
    var excluded := before + [e];
    assert excluded[..|before|] == before;
    NoNames(before, e.why);
    var after := groups + [Group(e.why, 1, [e.submitter])];
    assert after[|groups|].why == e.why;
    assert forall i :: 0 <= i < |groups| ==> after[i] == groups[i] && IsGroup(groups[i], before);
    forall k | 0 <= k < |excluded|
      ensures exists i :: 0 <= i < |after| && after[i].why == excluded[k].why
    {
      if k < |before| {
        var i :| 0 <= i < |groups| && groups[i].why == before[k].why;
        assert after[i].why == excluded[k].why;
      }
    }
  }

  lemma OneMoreOfItsReason(groups: seq<Group>, i: nat, before: seq<Excluded>, e: Excluded)
    requires GroupsAre(groups, before) && i < |groups| && groups[i].why == e.why
    ensures GroupsAre(groups[i := Group(e.why, groups[i].count + 1, groups[i].submitters + [e.submitter])], before + [e])
  {
    var excluded := before + [e];
    assert excluded[..|before|] == before;
    var after := groups[i := Group(e.why, groups[i].count + 1, groups[i].submitters + [e.submitter])];
    assert forall j :: 0 <= j < |groups| ==> after[j].why == groups[j].why && IsGroup(groups[j], before);
    forall k | 0 <= k < |excluded|
      ensures exists j :: 0 <= j < |after| && after[j].why == excluded[k].why
    {
      if k < |before| {
        var j :| 0 <= j < |groups| && groups[j].why == before[k].why;
        assert after[j].why == excluded[k].why;
      } else {
        assert after[i].why == excluded[k].why;
      }
    }
  }

  method GroupByWhy(excluded: seq<Excluded>) returns (groups: seq<Group>)
    ensures GroupsAre(groups, excluded) && GroupTotal(groups) == |excluded|
  {
    groups := [];
    for k := 0 to |excluded|
      invariant GroupsAre(groups, excluded[..k]) && GroupTotal(groups) == k
    {
      var e := excluded[k];
      assert excluded[..k + 1] == excluded[..k] + [e];
      var i := FindGroup(groups, e.why);
      if i < |groups| {
        var g := Group(e.why, groups[i].count + 1, groups[i].submitters + [e.submitter]);
        OneMoreOfItsReason(groups, i, excluded[..k], e);
        OneMoreCounted(groups, i, g);
        groups := groups[i := g];
      } else {
        FirstOfItsReason(groups, excluded[..k], e);
        assert (groups + [Group(e.why, 1, [e.submitter])])[..|groups|] == groups;
        groups := groups + [Group(e.why, 1, [e.submitter])];
      }
    }
    assert excluded[..|excluded|] == excluded;
  }

  // ---- Most first -----------------------------------------------------------------------------

  function Fewness(g: Group): int { 0 - g.count }

  /** The groups, the largest first. */
  function MostFirst(s: seq<Group>): seq<Group> { SortBy(s, Fewness) }

  lemma {:induction false} InsertAddsCount(g: Group, s: seq<Group>)
    ensures GroupTotal(Insert(g, s, Fewness)) == GroupTotal(s) + g.count
  {
    if s == [] || Fewness(s[|s| - 1]) <= Fewness(g) {
      assert (s + [g])[..|s|] == s;
    } else {
      var last := |s| - 1;
      InsertAddsCount(g, s[..last]);
      var front := Insert(g, s[..last], Fewness);
      assert (front + [s[last]])[..|front|] == front;
    }
  }

  lemma {:induction false} SortingKeepsTotal(s: seq<Group>)
    ensures GroupTotal(MostFirst(s)) == GroupTotal(s)
  {
    if s == [] {
    } else {
      SortingKeepsTotal(s[..|s| - 1]);
      InsertAddsCount(s[|s| - 1], MostFirst(s[..|s| - 1]));
    }
  }

  // ---- The card -------------------------------------------------------------------------------

  function Upto<T>(s: seq<T>, n: nat): seq<T> { if |s| <= n then s else s[..n] }
  function From<T>(s: seq<T>, n: nat): seq<T> { if |s| <= n then [] else s[n..] }

  /** A group's row, naming at most `named` of its submitters. */
  function RowFor(g: Group, named: nat): Row {
    Row(Because(g.why), g.count, if named > 0 then Some(Upto(g.submitters, named)) else None)
  }

  function RowsFor(groups: seq<Group>, named: nat): seq<Row> {
    seq(|groups|, i requires 0 <= i < |groups| => RowFor(groups[i], named))
  }

  /** The counts of all groups, summed from the first on. */
  function SumFrom(groups: seq<Group>): nat {
    if groups == [] then 0 else groups[0].count + SumFrom(groups[1..])
  }

  /** The candidate a score is for, by its id. */
  function SubmitterOf(candidates: seq<Candidate>, id: string): Option<string> {
    if candidates == [] then None
    else if candidates[|candidates| - 1].id == id then Some(candidates[|candidates| - 1].submitter)
    else SubmitterOf(candidates[..|candidates| - 1], id)
  }

  function ScoredRows(candidates: seq<Candidate>, scores: seq<Score>): seq<ScoreRow> {
    seq(|scores|, i requires 0 <= i < |scores| => ScoreRow(SubmitterOf(candidates, scores[i].id), scores[i].score))
  }

  function LaterRows(candidates: seq<Candidate>, rounds: seq<Round>): seq<seq<ScoreRow>> {
    seq(|rounds|, i requires 0 <= i < |rounds| => ScoredRows(candidates, rounds[i].scores))
  }

  /** notJudged at one tier: the largest groups, then the rest as one. */
  function NotJudgedRows(groups: seq<Group>, named: nat, maxGroups: nat): seq<Row> {
    RowsFor(Upto(groups, maxGroups), named) +
    (if |groups| > maxGroups then [Row(OtherReasons, SumFrom(From(groups, maxGroups)), None)] else [])
  }

  function Make(groups: seq<Group>, winner: Option<string>, submissions: nat, candidates: seq<Candidate>,
                rounds: seq<Round>, tier: Tier): Card
    requires rounds != []
  {
    Card(winner, submissions, |candidates|, ScoredRows(candidates, rounds[0].scores),
         LaterRows(candidates, rounds[1..]), NotJudgedRows(groups, tier.named, tier.maxGroups))
  }

  lemma {:induction false} RowsKeepTotal(groups: seq<Group>, named: nat)
    ensures Total(RowsFor(groups, named)) == GroupTotal(groups)
  {
    if groups == [] {
    } else {
      var last := |groups| - 1;
      RowsKeepTotal(groups[..last], named);
      assert RowsFor(groups, named)[..last] == RowsFor(groups[..last], named);
    }
  }

  lemma {:induction false} SplitTotal(front: seq<Group>, back: seq<Group>)
    ensures GroupTotal(front + back) == GroupTotal(front) + SumFrom(back)
    decreases |back|
  {
    if back == [] {
      assert front + back == front;
    } else {
      assert front + back == (front + [back[0]]) + back[1..];
      SplitTotal(front + [back[0]], back[1..]);
      assert (front + [back[0]])[..|front|] == front;
    }
  }

  /** At every tier the rows count everybody. */
  lemma NotJudgedCountsAll(groups: seq<Group>, named: nat, maxGroups: nat)
    ensures Total(NotJudgedRows(groups, named, maxGroups)) == GroupTotal(groups)
  {
    var listed := RowsFor(Upto(groups, maxGroups), named);
    RowsKeepTotal(Upto(groups, maxGroups), named);
    if |groups| > maxGroups {
      SplitTotal(groups[..maxGroups], groups[maxGroups..]);
      assert groups == groups[..maxGroups] + groups[maxGroups..];
      var rows := NotJudgedRows(groups, named, maxGroups);
      assert rows[..|listed|] == listed;
    } else {
      assert listed + [] == listed;
    }
  }

  /** What a card says of those not judged is true: each reason's count, and who it names. */
  ghost predicate Honest(row: Row, excluded: seq<Excluded>) {
    row.why.Because? ==>
      && row.count == |NamesOf(excluded, row.why.why)|
      && (row.submitters.Some? ==> row.submitters.value <= NamesOf(excluded, row.why.why))
  }

  /** The reasons named come first, the largest first. */
  ghost predicate LargestFirst(rows: seq<Row>) {
    forall i, j :: 0 <= i < j < |rows| && rows[j].why.Because? ==> rows[i].why.Because? && rows[i].count >= rows[j].count
  }

  lemma RowsAreHonest(groups: seq<Group>, excluded: seq<Excluded>, tier: Tier)
    requires forall i :: 0 <= i < |groups| ==> IsGroup(groups[i], excluded)
    ensures forall row :: row in NotJudgedRows(groups, tier.named, tier.maxGroups) ==> Honest(row, excluded)
  {
    var named := Upto(groups, tier.maxGroups);
    forall row | row in NotJudgedRows(groups, tier.named, tier.maxGroups)
      ensures Honest(row, excluded)
    {
      if row in RowsFor(named, tier.named) {
        var i :| 0 <= i < |named| && RowsFor(named, tier.named)[i] == row;
        assert named[i] == groups[i] && row == RowFor(groups[i], tier.named);
      }
    }
  }

  lemma RowsAreLargestFirst(groups: seq<Group>, tier: Tier)
    requires InOrder(groups, Fewness)
    ensures LargestFirst(NotJudgedRows(groups, tier.named, tier.maxGroups))
    ensures |NotJudgedRows(groups, tier.named, tier.maxGroups)| <= tier.maxGroups + 1
  {
    var named := Upto(groups, tier.maxGroups);
    var rows := NotJudgedRows(groups, tier.named, tier.maxGroups);
    assert forall i :: 0 <= i < |named| ==> named[i] == groups[i] && rows[i] == RowFor(groups[i], tier.named);
    assert forall i, j :: 0 <= i < j < |named| ==> Fewness(groups[i]) <= Fewness(groups[j]);
    assert forall i :: |named| <= i < |rows| ==> rows[i].why == OtherReasons;
  }

  /** A card of this tier lists its largest groups, each with its count and the first few of its submitters, and the rest as one row. */
  ghost predicate AtTier(rows: seq<Row>, groups: seq<Group>, tier: Tier) {
    var listed := if |groups| <= tier.maxGroups then |groups| else tier.maxGroups;
    && |rows| == listed + (if |groups| > tier.maxGroups then 1 else 0)
    && (|groups| > tier.maxGroups ==> rows[listed].why == OtherReasons && rows[listed].submitters.None?)
    && forall i :: 0 <= i < listed ==>
         && rows[i].why == Because(groups[i].why) && rows[i].count == groups[i].count
         && (rows[i].submitters.Some? <==> tier.named > 0)
         && (tier.named > 0 ==>
               && rows[i].submitters.value <= groups[i].submitters
               && |rows[i].submitters.value| == if |groups[i].submitters| <= tier.named then |groups[i].submitters| else tier.named)
  }

  lemma RowsAreAtTier(groups: seq<Group>, tier: Tier)
    ensures AtTier(NotJudgedRows(groups, tier.named, tier.maxGroups), groups, tier)
  {
    var named := Upto(groups, tier.maxGroups);
    var rows := NotJudgedRows(groups, tier.named, tier.maxGroups);
    assert forall i :: 0 <= i < |named| ==> named[i] == groups[i] && rows[i] == RowFor(groups[i], tier.named);
  }

  /** What a card would say of the others at the tier, `head` being the rest of it. */
  ghost predicate IsCardAt(card: Card, head: Card, groups: seq<Group>, tier: Tier) {
    card == head.(notJudged := card.notJudged) && AtTier(card.notJudged, groups, tier) && Total(card.notJudged) == GroupTotal(groups)
  }

  ghost predicate DoesNotFit(head: Card, groups: seq<Group>, fits: (Card, nat) -> bool, tier: Tier) {
    exists tried :: IsCardAt(tried, head, groups, tier) && !fits(tried, tier.reasonChars)
  }

  /** The card is of the first tier of which it fits, the tiers before not fitting; after the third, nobody is named and no reason. */
  ghost predicate IsFirstFitting(card: Card, head: Card, groups: seq<Group>, fits: (Card, nat) -> bool, t: nat) {
    && t <= 3
    && (forall k :: 0 <= k < t ==> DoesNotFit(head, groups, fits, TIERS[k]))
    && (t < 3 ==> IsCardAt(card, head, groups, TIERS[t]) && fits(card, TIERS[t].reasonChars))
    && (t == 3 ==> card == head.(notJudged := [Row(NotJudged, GroupTotal(groups), None)]))
  }

  /** The rows count everybody excluded, truthfully, the most common reasons first. */
  ghost predicate Accounts(rows: seq<Row>, excluded: seq<Excluded>) {
    && Total(rows) == |excluded|
    && (forall row :: row in rows ==> Honest(row, excluded))
    && LargestFirst(rows)
  }

  /** The groups, the most common reason first. */
  method SortedGroups(excluded: seq<Excluded>) returns (groups: seq<Group>)
    ensures InOrder(groups, Fewness) && GroupTotal(groups) == |excluded| && GroupsAre(groups, excluded)
  {
    var unsorted := GroupByWhy(excluded);
    groups := MostFirst(unsorted);
    SortByIsInOrder(unsorted, Fewness);
    SortingKeepsTotal(unsorted);
    SortingKeepsGroups(unsorted, groups, excluded);
  }

  lemma SortingKeepsGroups(unsorted: seq<Group>, groups: seq<Group>, excluded: seq<Excluded>)
    requires GroupsAre(unsorted, excluded) && groups == MostFirst(unsorted)
    ensures GroupsAre(groups, excluded)
  {
    SameElements(unsorted, Fewness);
    PermutationKeepsNoRepeats(unsorted, groups);
    forall i | 0 <= i < |groups|
      ensures IsGroup(groups[i], excluded)
    {
      assert groups[i] in groups;
    }
    forall k | 0 <= k < |excluded|
      ensures exists i :: 0 <= i < |groups| && groups[i].why == excluded[k].why
    {
      var j :| 0 <= j < |unsorted| && unsorted[j].why == excluded[k].why;
      assert unsorted[j] in groups;
      var i :| 0 <= i < |groups| && groups[i] == unsorted[j];
    }
  }

  /** The card but for those not judged. */
  function Head(winner: Option<string>, submissions: nat, candidates: seq<Candidate>, rounds: seq<Round>): Card
    requires rounds != []
  {
    Card(winner, submissions, |candidates|, ScoredRows(candidates, rounds[0].scores), LaterRows(candidates, rounds[1..]), [])
  }

  /** The card at one tier. */
  method MakeAt(groups: seq<Group>, excluded: seq<Excluded>, winner: Option<string>, submissions: nat, candidates: seq<Candidate>,
                rounds: seq<Round>, tier: Tier) returns (card: Card)
    requires rounds != [] && GroupsAre(groups, excluded) && InOrder(groups, Fewness) && GroupTotal(groups) == |excluded|
    ensures IsCardAt(card, Head(winner, submissions, candidates, rounds), groups, tier)
    ensures Accounts(card.notJudged, excluded) && |card.notJudged| <= tier.maxGroups + 1
  {
    card := Make(groups, winner, submissions, candidates, rounds, tier);
    NotJudgedCountsAll(groups, tier.named, tier.maxGroups);
    RowsAreAtTier(groups, tier);
    RowsAreHonest(groups, excluded, tier);
    RowsAreLargestFirst(groups, tier);
  }

  /** The groups are those of the reasons given, and the card the first of them that fits. */
  ghost predicate IsBuilt(card: Card, head: Card, excluded: seq<Excluded>, fits: (Card, nat) -> bool) {
    exists groups, t: nat :: GroupsAre(groups, excluded) && InOrder(groups, Fewness) && IsFirstFitting(card, head, groups, fits, t)
  }

  /**
   buildScorecard: `fits` says whether a card with reasons of that length is under 30 KB. Whichever
   tier is taken, the judged and those not judged number the candidates and the excluded together.
   */
  method BuildScorecard(winner: Option<string>, submissions: nat, candidates: seq<Candidate>,
                        rounds: seq<Round>, excluded: seq<Excluded>, fits: (Card, nat) -> bool)
    returns (card: Card)
    requires rounds != []
    ensures card.judged == |candidates| && card.submissions == submissions && card.winner == winner
    ensures Accounts(card.notJudged, excluded) && |card.notJudged| <= 21
    ensures card.scores == ScoredRows(candidates, rounds[0].scores)
    ensures card.laterRounds == LaterRows(candidates, rounds[1..])
    ensures IsBuilt(card, Head(winner, submissions, candidates, rounds), excluded, fits)
  {
    var groups := SortedGroups(excluded);
    ghost var head := Head(winner, submissions, candidates, rounds);
    for t := 0 to |TIERS|
      invariant forall k :: 0 <= k < t ==> DoesNotFit(head, groups, fits, TIERS[k])
    {
      card := MakeAt(groups, excluded, winner, submissions, candidates, rounds, TIERS[t]);
      if fits(card, TIERS[t].reasonChars) {
        assert IsFirstFitting(card, head, groups, fits, t);
        return;
      }
    }
    card := Make(groups, winner, submissions, candidates, rounds, Tier(0, 0, 0));
    card := card.(notJudged := [Row(NotJudged, |excluded|, None)]);
    assert card.notJudged[..0] == [];
    assert IsFirstFitting(card, head, groups, fits, 3);
  }

  // ---- Its scores -----------------------------------------------------------------------------

  lemma {:induction false} SubmitterIs(candidates: seq<Candidate>, k: nat)
    requires k < |candidates| && DistinctIds(candidates)
    ensures SubmitterOf(candidates, candidates[k].id) == Some(candidates[k].submitter)
  {
    var last := |candidates| - 1;
    if k < last {
      SubmitterIs(candidates[..last], k);
    }
  }

  lemma {:induction false} IdsNumber(candidates: seq<Candidate>)
    requires DistinctIds(candidates)
    ensures |IdsOf(candidates)| == |candidates|
  {
    if candidates == [] {
      assert IdsOf(candidates) == {};
    } else {
      var last := |candidates| - 1;
      IdsNumber(candidates[..last]);
      assert candidates == candidates[..last] + [candidates[last]];
      assert IdsOf(candidates) == IdsOf(candidates[..last]) + {candidates[last].id};
    }
  }

  ghost function ScoredIds(scores: seq<Score>): set<string> { set i | 0 <= i < |scores| :: scores[i].id }

  lemma {:induction false} ScoresNumber(scores: seq<Score>)
    requires forall i, j :: 0 <= i < j < |scores| ==> scores[i].id != scores[j].id
    ensures |ScoredIds(scores)| == |scores|
  {
    if scores == [] {
    } else {
      var last := |scores| - 1;
      ScoresNumber(scores[..last]);
      assert ScoredIds(scores) == ScoredIds(scores[..last]) + {scores[last].id} by {
        assert forall i :: 0 <= i < last ==> scores[..last][i] == scores[i];
      }
    }
  }

  /** The card's first-round scores: one for each judged submission, under its own submitter. */
  lemma CardScoresEachJudged(candidates: seq<Candidate>, scores: seq<Score>)
    requires DistinctIds(candidates) && ScoresAll(scores, IdsOf(candidates))
    ensures |ScoredRows(candidates, scores)| == |candidates|
    ensures forall c :: c in candidates ==>
              exists i :: 0 <= i < |scores| && scores[i].id == c.id &&
                          ScoredRows(candidates, scores)[i] == ScoreRow(Some(c.submitter), scores[i].score)
  {
    IdsNumber(candidates);
    ScoresNumber(scores);
    assert ScoredIds(scores) == IdsOf(candidates) by {
      forall id | id in IdsOf(candidates)
        ensures id in ScoredIds(scores)
      {
        assert Scored(scores, id);
      }
    }
    forall c | c in candidates
      ensures exists i :: 0 <= i < |scores| && scores[i].id == c.id &&
                          ScoredRows(candidates, scores)[i] == ScoreRow(Some(c.submitter), scores[i].score)
    {
      var k :| 0 <= k < |candidates| && candidates[k] == c;
      SubmitterIs(candidates, k);
      assert c.id in IdsOf(candidates) && Scored(scores, c.id);
      var i :| 0 <= i < |scores| && scores[i].id == c.id;
      assert ScoredRows(candidates, scores)[i] == ScoreRow(Some(c.submitter), scores[i].score);
    }
  }
}
