/**
 What the judge makes of one model answer: a ranking is used only when it is consistent.
 */
module Ranking {
  import opened Wrappers
  import JsonScanner

  /** One score as the model wrote it: None for an id that is not text, or a score that is not a finite number. */
  datatype RawScore = RawScore(id: Option<string>, score: Option<real>)

  /** A model answer: not an object with a list of scores, or one, with its winner as written. */
  datatype RawAnswer = Malformed | RawAnswer(scores: seq<RawScore>, winner: Option<string>)

  datatype Score = Score(id: string, score: real)
  datatype Ranked = Ranked(winner: Option<string>, scores: seq<Score>)

  function Lower(c: char): char {
    if 'A' <= c <= 'Z' then ((c as int) - ('A' as int) + ('a' as int)) as char else c
  }

  function LowerCase(s: string): string { seq(|s|, i requires 0 <= i < |s| => Lower(s[i])) }

  /** "null", "none" and nothing at all name no winner. */
  predicate ReadsAsNone(s: string) { LowerCase(JsonScanner.Trim(s)) in ["", "null", "none"] }

  function WinnerNamed(winner: Option<string>): Option<string> {
    if winner.Some? && ReadsAsNone(winner.value) then None else winner
  }

  /** A winner is named unless none is given, or the text given is blank or null or none between white space, in letters of either case. */
  lemma NoneIsNamedExactly(winner: Option<string>)
    ensures WinnerNamed(winner) != winner ==> WinnerNamed(winner).None?
    ensures WinnerNamed(winner).None? <==>
              winner.None? || (var t := JsonScanner.Trim(winner.value); t == "" || SameLetters(t, "null") || SameLetters(t, "none"))
  {
    if winner.Some? {
      var t := JsonScanner.Trim(winner.value);
      LowerCaseIsSame(t, "null");
      LowerCaseIsSame(t, "none");
    }
  }

  /** The same letters, but for their case. */
  predicate SameLetters(s: string, lower: string) {
    && |s| == |lower|
    && forall i :: 0 <= i < |s| ==> s[i] == lower[i] || ('A' <= s[i] <= 'Z' && (s[i] as int) + 32 == lower[i] as int)
  }

  lemma LowerCaseIsSame(s: string, lower: string)
    requires forall i :: 0 <= i < |lower| ==> 'a' <= lower[i] <= 'z'
    ensures LowerCase(s) == lower <==> SameLetters(s, lower)
  {
    if SameLetters(s, lower) {
      assert forall i :: 0 <= i < |s| ==> LowerCase(s)[i] == lower[i];
    }
    if LowerCase(s) == lower {
      assert forall i :: 0 <= i < |s| ==> LowerCase(s)[i] == Lower(s[i]) == lower[i];
    }
  }

  /** Every wanted id is scored once, from 0 to 10, and nothing else is scored. */
  ghost predicate ScoresAll(scores: seq<Score>, want: set<string>) {
    && (forall i :: 0 <= i < |scores| ==> scores[i].id in want && 0.0 <= scores[i].score <= 10.0)
    && (forall i, j :: 0 <= i < j < |scores| ==> scores[i].id != scores[j].id)
    && (forall id :: id in want ==> Scored(scores, id))
  }

  ghost predicate Scored(scores: seq<Score>, id: string) {
    exists i :: 0 <= i < |scores| && scores[i].id == id
  }

  /** `id` is scored, and no score is above its own. */
  ghost predicate IsBest(scores: seq<Score>, id: string) {
    exists i :: 0 <= i < |scores| && scores[i].id == id && forall j :: 0 <= j < |scores| ==> scores[j].score <= scores[i].score
  }

  /** A ranking to be used: all scored, and the winner, if any, one of them scored no lower than any. */
  ghost predicate Consistent(r: Ranked, want: set<string>) {
    && ScoresAll(r.scores, want)
    && (r.winner.Some? ==> r.winner.value in want && IsBest(r.scores, r.winner.value))
  }

  ghost predicate ReadsScores(raw: seq<RawScore>, scores: seq<Score>) {
    && |scores| == |raw|
    && forall i :: 0 <= i < |raw| ==> raw[i].id == Some(scores[i].id) && raw[i].score == Some(scores[i].score)
  }

  /** `r` is what the answer says, read as it is written. */
  ghost predicate Reads(raw: RawAnswer, r: Ranked) {
    raw.RawAnswer? && ReadsScores(raw.scores, r.scores) && r.winner == WinnerNamed(raw.winner)
  }

  lemma SubsetOfSameSize<T>(a: set<T>, b: set<T>)
    requires a <= b
    ensures |a| <= |b| && (|a| == |b| <==> a == b)
  {
    assert |b - a| == |b| - |a|;
  }

  /** The scores read, if all wanted ids are scored properly; `seen` maps each to its score. */
  method CheckScores(raw: seq<RawScore>, want: set<string>) returns (scores: Option<seq<Score>>, seen: map<string, real>)
    ensures scores.Some? ==> ReadsScores(raw, scores.value) && ScoresAll(scores.value, want)
    ensures scores.Some? ==> seen.Keys == want && forall i :: 0 <= i < |scores.value| ==> scores.value[i].id in seen && seen[scores.value[i].id] == scores.value[i].score
    ensures scores.None? ==> forall s :: ReadsScores(raw, s) ==> !ScoresAll(s, want)
  {
    seen := map[];
    var read: seq<Score> := [];
    for i := 0 to |raw|
      invariant |read| == i
      invariant forall k :: 0 <= k < i ==> raw[k].id == Some(read[k].id) && raw[k].score == Some(read[k].score)
      invariant forall k :: 0 <= k < i ==> read[k].id in want && 0.0 <= read[k].score <= 10.0
      invariant forall k :: 0 <= k < i ==> read[k].id in seen && seen[read[k].id] == read[k].score
      invariant forall j, k :: 0 <= j < k < i ==> read[j].id != read[k].id
      invariant forall id :: id in seen ==> id in want && Scored(read, id)
    {
      var s := raw[i];
      if s.id.None? || s.id.value !in want || s.id.value in seen {
        RepeatsOrForeign(raw, want, read, i);
        return None, seen;
      }
      if s.score.None? || s.score.value < 0.0 || s.score.value > 10.0 {
        return None, seen;
      }
      seen := seen[s.id.value := s.score.value];
      OneMoreScored(read, Score(s.id.value, s.score.value));
      read := read + [Score(s.id.value, s.score.value)];
    }
    SubsetOfSameSize(seen.Keys, want);
    assert |seen.Keys| == |seen|;
    if |seen| != |want| {
      SomeNotScored(raw, want, read, seen.Keys);
      return None, seen;
    }
    scores := Some(read);
  }

  lemma OneMoreScored(read: seq<Score>, s: Score)
    ensures forall id :: Scored(read + [s], id) <==> Scored(read, id) || id == s.id
  {
    var more := read + [s];
    assert more[|read|].id == s.id;
    forall id | Scored(read, id)
      ensures Scored(more, id)
    {
      var k :| 0 <= k < |read| && read[k].id == id;
      assert more[k].id == id;
    }
  }

  lemma SomeNotScored(raw: seq<RawScore>, want: set<string>, read: seq<Score>, ids: set<string>)
    requires ReadsScores(raw, read) && !(want <= ids)
    requires forall k :: 0 <= k < |read| ==> read[k].id in ids
    ensures forall s :: ReadsScores(raw, s) ==> !ScoresAll(s, want)
  {
    var id :| id in want && id !in ids;
    forall s: seq<Score> | ReadsScores(raw, s)
      ensures !ScoresAll(s, want)
    {
      assert s == read;
      assert !Scored(read, id);
    }
  }

  lemma RepeatsOrForeign(raw: seq<RawScore>, want: set<string>, read: seq<Score>, i: nat)
    requires i < |raw| && |read| == i
    requires forall k :: 0 <= k < i ==> raw[k].id == Some(read[k].id)
    requires raw[i].id.None? || raw[i].id.value !in want || Scored(read, raw[i].id.value)
    ensures forall s :: ReadsScores(raw, s) ==> !ScoresAll(s, want)
  {
    forall s: seq<Score> | ReadsScores(raw, s)
      ensures !ScoresAll(s, want)
    {
      if raw[i].id.Some? && Scored(read, raw[i].id.value) {
        var k :| 0 <= k < i && read[k].id == raw[i].id.value;
        assert s[k].id == s[i].id;
      }
    }
  }

  /** The check accepts an answer exactly when it reads as a consistent ranking, and gives that ranking. */
  method CheckRanking(raw: RawAnswer, ids: seq<string>) returns (r: Option<Ranked>)
    ensures r.Some? ==> Reads(raw, r.value) && Consistent(r.value, set id | id in ids)
    ensures r.None? ==> forall s :: Reads(raw, s) ==> !Consistent(s, set id | id in ids)
  {
    if raw.Malformed? {
      return None;
    }
    var want := set id | id in ids;
    var scores, seen := CheckScores(raw.scores, want);
    if scores.None? {
      return None;
    }
    var winner := WinnerNamed(raw.winner);
    if winner.Some? {
      if winner.value !in want {
        return None;
      }
      for i := 0 to |scores.value|
        invariant forall k :: 0 <= k < i ==> scores.value[k].score <= seen[winner.value]
      {
        if scores.value[i].score > seen[winner.value] {
          forall s: Ranked | Reads(raw, s)
            ensures !IsBest(s.scores, winner.value)
          {
            assert s.scores == scores.value;
          }
          return None;
        }
      }
      assert Scored(scores.value, winner.value);
    }
    r := Some(Ranked(winner, scores.value));
  }
}
