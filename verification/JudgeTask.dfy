/**
 Judging one task, from the server's list to the pick: which submissions are considered, what is
 entered in the tournament, and what the recorded pick and its scorecard then are.
 */
module JudgeTask {
  import opened Wrappers
  import opened OpenJudge
  import opened Scorecard
  import opened Sorting
  import opened Tournament
  import JudgeRecord
  import Ranking

  // ---- Which submissions are considered -------------------------------------------------------

  /** The first 60 of the kept submissions that were not refused, by ordinal. */
  function Considered(kept: seq<Listing>, refused: set<string>): seq<Listing> {
    Upto(Without(ByOrdinal(kept), refused), JUDGE_MAX_SUBMISSIONS)
  }

  function RowsOf(s: seq<Listing>, why: Why): seq<Excluded> {
    seq(|s|, i requires 0 <= i < |s| => Excluded(s[i].submitter, why))
  }

  /** The rows of those never looked at: refused as winners, or after the first 60. */
  function UnconsideredRows(kept: seq<Listing>, refused: set<string>): seq<Excluded> {
    RowsOf(Only(kept, refused), RefusedWinner) +
    RowsOf(From(Without(ByOrdinal(kept), refused), JUDGE_MAX_SUBMISSIONS), BeyondTheFirst60)
  }

  lemma {:induction false} WithoutKeepsOrder(s: seq<Listing>, refused: set<string>)
    requires InOrder(s, Ordinal)
    ensures InOrder(Without(s, refused), Ordinal)
  {
    if s == [] {
    } else {
      var front := s[..|s| - 1];
      WithoutKeepsOrder(front, refused);
      var r := Without(front, refused);
      forall i | 0 <= i < |r|
        ensures Ordinal(r[i]) <= Ordinal(s[|s| - 1])
      {
        assert r[i] in front;
      }
    }
  }

  /** Nobody considered comes after somebody passed over, unless that one was refused. */
  lemma ConsideredAreEarliest(kept: seq<Listing>, refused: set<string>)
    ensures var c := Considered(kept, refused);
            && |c| <= JUDGE_MAX_SUBMISSIONS && InOrder(c, Ordinal)
            && (forall s :: s in c ==> s in kept && Ranking.LowerCase(s.submitter) !in refused)
            && forall e, s :: e in kept && e !in c && Ranking.LowerCase(e.submitter) !in refused && s in c ==>
                 |c| == JUDGE_MAX_SUBMISSIONS && s.ordinal <= e.ordinal
  {
    var sorted := ByOrdinal(kept);
    SortByIsInOrder(kept, Ordinal);
    SameElements(kept, Ordinal);
    var ordered := Without(sorted, refused);
    WithoutKeepsOrder(sorted, refused);
    var c := Considered(kept, refused);
    assert forall i :: 0 <= i < |c| ==> c[i] == ordered[i];
    forall e, s | e in kept && e !in c && Ranking.LowerCase(e.submitter) !in refused && s in c
      ensures |c| == JUDGE_MAX_SUBMISSIONS && s.ordinal <= e.ordinal
    {
      assert e in ordered;
      var k :| 0 <= k < |ordered| && ordered[k] == e;
      var i :| 0 <= i < |c| && c[i] == s;
      if k < |c| {
        assert c[k] == e;
      }
    }
  }

  /** Those never considered are listed with why: the refused as that, and everybody else not among the first 60 as that. */
  lemma UnconsideredAreListedWithWhy(kept: seq<Listing>, refused: set<string>, row: Excluded)
    ensures row in UnconsideredRows(kept, refused) ==> row.why in {RefusedWinner, BeyondTheFirst60}
    ensures row.why == RefusedWinner ==>
              (row in UnconsideredRows(kept, refused) <==>
               exists s :: s in kept && Ranking.LowerCase(s.submitter) in refused && row.submitter == s.submitter)
    ensures row.why == BeyondTheFirst60 && row in UnconsideredRows(kept, refused) ==>
              |Considered(kept, refused)| == 60 &&
              exists s :: s in kept && Ranking.LowerCase(s.submitter) !in refused && row.submitter == s.submitter
    ensures forall s :: s in kept && Ranking.LowerCase(s.submitter) !in refused && s !in Considered(kept, refused) ==>
              Excluded(s.submitter, BeyondTheFirst60) in UnconsideredRows(kept, refused)
  {
    var others, ordered := Only(kept, refused), Without(ByOrdinal(kept), refused);
    var late := From(ordered, JUDGE_MAX_SUBMISSIONS);
    SameElements(kept, Ordinal);
    RowsAreOf(others, RefusedWinner, row);
    RowsAreOf(late, BeyondTheFirst60, row);
    assert forall s :: s in late ==> s in ordered;
    forall s | s in kept && Ranking.LowerCase(s.submitter) !in refused && s !in Considered(kept, refused)
      ensures Excluded(s.submitter, BeyondTheFirst60) in UnconsideredRows(kept, refused)
    {
      assert forall j :: 0 <= j < |Considered(kept, refused)| ==> Considered(kept, refused)[j] == ordered[j];
      var k :| 0 <= k < |ordered| && ordered[k] == s;
      assert late[k - JUDGE_MAX_SUBMISSIONS] == s;
      RowsAreOf(late, BeyondTheFirst60, Excluded(s.submitter, BeyondTheFirst60));
    }
  }

  lemma RowsAreOf(s: seq<Listing>, why: Why, row: Excluded)
    ensures row in RowsOf(s, why) <==> row.why == why && exists e :: e in s && e.submitter == row.submitter
  {
    if e :| e in s && e.submitter == row.submitter && row.why == why {
      var i :| 0 <= i < |s| && s[i] == e;
      assert RowsOf(s, why)[i] == row;
    }
    if row in RowsOf(s, why) {
      var i :| 0 <= i < |s| && RowsOf(s, why)[i] == row;
      assert s[i] in s;
    }
  }

  lemma EverybodyIsCounted(kept: seq<Listing>, refused: set<string>)
    ensures |Considered(kept, refused)| + |UnconsideredRows(kept, refused)| == |kept|
  {
    RefusedCountIsOrderFree(kept, ByOrdinal(kept), refused);
  }

  // ---- What is entered ------------------------------------------------------------------------

  /** The text the judge reads: the stored one, or what was sent inline when that is blank or nothing is stored. */
  function TextRead(s: Listing, blob: Option<Blob>): string
    requires s.result.Some?
  {
    var data := s.result.value.data;
    if RootOf(s) != "" && blob.Some? && !Blank(blob.value.text) then blob.value.text
    else if data.output.Some? then data.output.value
    else data.json
  }

  /** The result is the committed one, the stored content itself if it is stored, and has a text. */
  predicate CanBeRead(s: Listing, committed: Evidence, blob: Option<Blob>) {
    && IsCommitted(s, committed)
    && (RootOf(s) != "" ==> Is64Hex(RootOf(s)) && blob.Some? && !blob.value.tooLarge && blob.value.isContent)
    && !Blank(TextRead(s, blob))
  }

  lemma ReadingIsRight(c: Checked, committed: Evidence, blob: Option<Blob>, giveUpOn: set<string>)
    requires RightVerdict(c, committed, blob, giveUpOn)
    ensures Readable(c) <==> CanBeRead(c.listing, committed, blob)
    ensures Readable(c) ==> TextOf(c) == TextRead(c.listing, blob)
  {
  }

  predicate CanBeReadAt(subs: seq<Listing>, i: nat, from: Source)
    requires i < |subs| && AreCommitted(subs, from)
  {
    CanBeRead(subs[i], from.escrow[from.addressOf(subs[i].submitter)], from.download(i, RootOf(subs[i])))
  }

  predicate PassesAt(subs: seq<Listing>, i: nat, from: Source, passes: string -> bool)
    requires i < |subs| && AreCommitted(subs, from)
  {
    CanBeReadAt(subs, i, from) && passes(TextRead(subs[i], from.download(i, RootOf(subs[i]))))
  }

  ghost predicate AnyPassesIn(subs: seq<Listing>, from: Source, passes: string -> bool)
    requires AreCommitted(subs, from)
  {
    exists i :: 0 <= i < |subs| && PassesAt(subs, i, from, passes)
  }

  /**
   The candidates are, in order and under different labels, exactly the submissions at `pool`: those
   that can be read and pass the task's checks, or all that can be read when none passes.
   */
  ghost predicate AreEntered(candidates: seq<Candidate>, pool: seq<nat>, subs: seq<Listing>, from: Source, passes: string -> bool)
    requires AreCommitted(subs, from)
  {
    && Picks(pool, |subs|) && |candidates| == |pool| && DistinctIds(candidates)
    && (forall i :: 0 <= i < |subs| ==>
          (i in pool <==> CanBeReadAt(subs, i, from) && (PassesAt(subs, i, from, passes) || !AnyPassesIn(subs, from, passes))))
    && (forall k :: 0 <= k < |pool| ==> IsEntry(candidates[k], subs[pool[k]], from.download(pool[k], RootOf(subs[pool[k]]))))
  }

  predicate IsEntry(c: Candidate, s: Listing, blob: Option<Blob>) {
    s.result.Some? && c.submitter == Ranking.LowerCase(s.submitter) && c.text == Shown(TextRead(s, blob))
  }

  /** What is checked of each of `subs` is right, and so is who is entered. */
  lemma CheckedAreEntered(subs: seq<Listing>, from: Source, giveUpOn: set<string>, passes: string -> bool)
    requires AreCommitted(subs, from) && FailedRoots(subs, from, giveUpOn) == []
    ensures var cs := CheckedAll(subs, from, giveUpOn);
            AreEntered(CandidatesOf(cs, passes), PoolOf(cs, passes), subs, from, passes)
  {
    var cs := CheckedAll(subs, from, giveUpOn);
    FailedAreWaitedFor(subs, from, giveUpOn);
    JudgeableAre(cs, passes);
    forall i | 0 <= i < |subs|
      ensures cs[i].listing == subs[i] && (Readable(cs[i]) <==> CanBeReadAt(subs, i, from))
      ensures Readable(cs[i]) ==> TextOf(cs[i]) == TextRead(subs[i], from.download(i, RootOf(subs[i])))
    {
      var committed, blob := from.escrow[from.addressOf(subs[i].submitter)], from.download(i, RootOf(subs[i]));
      assert !WaitsAt(subs, i, from, giveUpOn);
      CheckIsRight(subs[i], committed, blob, giveUpOn);
      ReadingIsRight(cs[i], committed, blob, giveUpOn);
    }
    SameChoice(cs, subs, from, passes);
    EntriesAre(cs, subs, from, passes);
  }

  /** The checks read what the submissions say. */
  ghost predicate AgreesWith(cs: seq<Checked>, subs: seq<Listing>, from: Source)
    requires AreCommitted(subs, from)
  {
    && |cs| == |subs|
    && forall i :: 0 <= i < |subs| ==>
         && cs[i].listing == subs[i] && (Readable(cs[i]) <==> CanBeReadAt(subs, i, from))
         && (Readable(cs[i]) ==> TextOf(cs[i]) == TextRead(subs[i], from.download(i, RootOf(subs[i]))))
  }

  lemma SameChoice(cs: seq<Checked>, subs: seq<Listing>, from: Source, passes: string -> bool)
    requires AreCommitted(subs, from) && AgreesWith(cs, subs, from)
    ensures AnyPasses(cs, passes) <==> AnyPassesIn(subs, from, passes)
  {
    if AnyPasses(cs, passes) {
      var i :| 0 <= i < |cs| && Readable(cs[i]) && passes(TextOf(cs[i]));
      assert PassesAt(subs, i, from, passes);
    }
    if AnyPassesIn(subs, from, passes) {
      var i :| 0 <= i < |subs| && PassesAt(subs, i, from, passes);
      assert Readable(cs[i]) && passes(TextOf(cs[i]));
    }
  }

  lemma EntriesAre(cs: seq<Checked>, subs: seq<Listing>, from: Source, passes: string -> bool)
    requires AreCommitted(subs, from) && AgreesWith(cs, subs, from)
    requires IsPool(cs, passes, PoolOf(cs, passes)) && AllStand(cs, PoolOf(cs, passes), CandidatesOf(cs, passes))
    ensures forall k :: 0 <= k < |PoolOf(cs, passes)| ==>
              var at := PoolOf(cs, passes)[k];
              IsEntry(CandidatesOf(cs, passes)[k], subs[at], from.download(at, RootOf(subs[at])))
  {
    var pool, candidates := PoolOf(cs, passes), CandidatesOf(cs, passes);
    forall k | 0 <= k < |pool|
      ensures IsEntry(candidates[k], subs[pool[k]], from.download(pool[k], RootOf(subs[pool[k]])))
    {
      assert StandsFor(candidates[k], cs[pool[k]]) && CanBeReadAt(subs, pool[k], from);
    }
  }

  // ---- What judging a task comes to -----------------------------------------------------------

  /**
   Everything judging a task is told: the list as read, the escrow's count and commitments, storage,
   the task's checks, the model, and at which ranking calls paid work waits.
   */
  datatype World = World(listed: seq<Listing>, count: nat, source: Source, passes: string -> bool, rank: Rank, busyAt: nat -> bool)
  {
    /** The entries whose submitter committed something. */
    function Kept(): seq<Listing> { RealOf(listed, source.escrow, source.addressOf) }

    /** The list is not padded, and as many of it are committed as the escrow counts. */
    predicate IsUsable() { |listed| <= count + MAX_LIST_EXCESS && |Kept()| >= count }
  }

  lemma ConsideredAreCommitted(w: World, refused: set<string>)
    ensures AreCommitted(Considered(w.Kept(), refused), w.source)
  {
    ConsideredAreEarliest(w.Kept(), refused);
    var c := Considered(w.Kept(), refused);
    assert forall i :: 0 <= i < |c| ==> c[i] in c;
  }

  /** The considered submissions, checked. */
  function ChecksOf(w: World, refused: set<string>, giveUpOn: set<string>): seq<Checked> {
    ConsideredAreCommitted(w, refused);
    CheckedAll(Considered(w.Kept(), refused), w.source, giveUpOn)
  }

  function RootsWaitedFor(w: World, refused: set<string>, giveUpOn: set<string>): seq<string> {
    ConsideredAreCommitted(w, refused);
    FailedRoots(Considered(w.Kept(), refused), w.source, giveUpOn)
  }

  function Entrants(w: World, refused: set<string>, giveUpOn: set<string>): seq<Candidate> {
    CandidatesOf(ChecksOf(w, refused, giveUpOn), w.passes)
  }

  /** A ranking yields to paid work, unless its task yielded often enough already. */
  function OrYield(rank: Rank, busyAt: nat -> bool, yielded: nat): Rank {
    (n: nat, batch: seq<Candidate>) => if yielded < JudgeRecord.MAX_JUDGE_YIELDS && busyAt(n) then None else rank(n, batch)
  }

  lemma YieldingIsChecked(rank: Rank, busyAt: nat -> bool, yielded: nat)
    requires Tournament.Checked(rank)
    ensures Tournament.Checked(OrYield(rank, busyAt, yielded))
  {
  }

  function JudgementOf(w: World, refused: set<string>, giveUpOn: set<string>, yielded: nat): Judgement {
    Tournament.Judge(Entrants(w, refused, giveUpOn), 0, OrYield(w.rank, w.busyAt, yielded), JUDGE_BATCH)
  }

  datatype Verdict =
    | ListUnusable
    | WaitsOnStorage(failedRoots: seq<string>)
    | NothingReadable(storageUnreadable: bool)
    | Yielded
    | RankingFailed
    | Nobody
    | Winner(c: Candidate)

  /** The failed ranking yielded to paid work. */
  predicate YieldedIn(j: Judgement, busyAt: nat -> bool, yielded: nat) {
    j.calls > 0 && yielded < JudgeRecord.MAX_JUDGE_YIELDS && busyAt(j.calls - 1)
  }

  function Decide(usable: bool, waitedFor: seq<string>, entrants: seq<Candidate>, storageUnreadable: bool, j: Judgement, byYield: bool): Verdict {
    if !usable then ListUnusable
    else if waitedFor != [] then WaitsOnStorage(waitedFor)
    else if entrants == [] then NothingReadable(storageUnreadable)
    else if j.Failed? then (if byYield then Yielded else RankingFailed)
    else if j.winner.None? then Nobody
    else Winner(j.winner.value)
  }

  /** What judging the task comes to, without these winners and these stored results. */
  function VerdictOf(w: World, refused: set<string>, giveUpOn: set<string>, yielded: nat): Verdict {
    var j := JudgementOf(w, refused, giveUpOn, yielded);
    Decide(w.IsUsable(), RootsWaitedFor(w, refused, giveUpOn), Entrants(w, refused, giveUpOn),
           StorageFailedSome(ExcludedOf(ChecksOf(w, refused, giveUpOn), w.passes)), j, YieldedIn(j, w.busyAt, yielded))
  }

  predicate StorageFailedSome(excluded: seq<Excluded>) {
    exists i :: 0 <= i < |excluded| && excluded[i].why == StorageUnreadable
  }

  /** A winner is a considered submitter, so none that was refused; waits are on stored results not given up on. */
  lemma VerdictsRespectWhatIsKnown(w: World, refused: set<string>, giveUpOn: set<string>, yielded: nat)
    requires Tournament.Checked(w.rank)
    ensures var v := VerdictOf(w, refused, giveUpOn, yielded);
            && (v.Winner? ==> v.c in Entrants(w, refused, giveUpOn) && v.c.submitter !in refused && Ranking.LowerCase(v.c.submitter) == v.c.submitter)
            && (v.WaitsOnStorage? ==> v.failedRoots != [])
            && (v.WaitsOnStorage? ==> forall root :: root in v.failedRoots ==> root !in giveUpOn && root in StoredRoots(w.source.escrow))
            && (v.Yielded? ==> yielded < JudgeRecord.MAX_JUDGE_YIELDS)
  {
    var v, roots, j := VerdictOf(w, refused, giveUpOn, yielded), RootsWaitedFor(w, refused, giveUpOn), JudgementOf(w, refused, giveUpOn, yielded);
    RootsWaitedForAreKnown(w, refused, giveUpOn);
    if v.Winner? {
      assert roots == [] && j.Judged? && j.winner == Some(v.c);
      WinnerIsAnEntrant(w, refused, giveUpOn, yielded);
    }
  }

  lemma RootsWaitedForAreKnown(w: World, refused: set<string>, giveUpOn: set<string>)
    ensures forall root :: root in RootsWaitedFor(w, refused, giveUpOn) ==> root !in giveUpOn && root in StoredRoots(w.source.escrow)
  {
    ConsideredAreCommitted(w, refused);
    FailedAreWaitedFor(Considered(w.Kept(), refused), w.source, giveUpOn);
  }

  lemma WinnerIsAnEntrant(w: World, refused: set<string>, giveUpOn: set<string>, yielded: nat)
    requires Tournament.Checked(w.rank) && RootsWaitedFor(w, refused, giveUpOn) == []
    requires JudgementOf(w, refused, giveUpOn, yielded).Judged? && JudgementOf(w, refused, giveUpOn, yielded).winner.Some?
    ensures var c := JudgementOf(w, refused, giveUpOn, yielded).winner.value;
            c in Entrants(w, refused, giveUpOn) && c.submitter !in refused && Ranking.LowerCase(c.submitter) == c.submitter
  {
    YieldingIsChecked(w.rank, w.busyAt, yielded);
    PickWonEveryRound(Entrants(w, refused, giveUpOn), 0, OrYield(w.rank, w.busyAt, yielded), JUDGE_BATCH);
    EntrantIsNotRefused(w, refused, giveUpOn, JudgementOf(w, refused, giveUpOn, yielded).winner.value);
  }

  lemma EntrantIsNotRefused(w: World, refused: set<string>, giveUpOn: set<string>, c: Candidate)
    requires RootsWaitedFor(w, refused, giveUpOn) == [] && c in Entrants(w, refused, giveUpOn)
    ensures c.submitter !in refused && Ranking.LowerCase(c.submitter) == c.submitter
  {
    var considered := Considered(w.Kept(), refused);
    ConsideredAreCommitted(w, refused);
    ConsideredAreEarliest(w.Kept(), refused);
    CheckedAreEntered(considered, w.source, giveUpOn, w.passes);
    var pool := PoolOf(ChecksOf(w, refused, giveUpOn), w.passes);
    var k :| 0 <= k < |pool| && Entrants(w, refused, giveUpOn)[k] == c;
    assert considered[pool[k]] in considered;
    LowerCaseTwice(considered[pool[k]].submitter);
  }

  lemma LowerCaseTwice(s: string)
    ensures Ranking.LowerCase(Ranking.LowerCase(s)) == Ranking.LowerCase(s)
  {
  }

  // ---- Judging it -----------------------------------------------------------------------------

  datatype Prepared =
    | NotYet
    | Waiting(failedRoots: seq<string>)
    | Ready(candidates: seq<Candidate>, checked: seq<Excluded>, unconsidered: seq<Excluded>)

  /** From the list to the candidates: nothing is judged while a committed result may be missing. */
  method PrepareJudging(w: World, refused: set<string>, giveUpOn: set<string>) returns (p: Prepared)
    ensures p.NotYet? <==> !w.IsUsable()
    ensures p.Waiting? <==> w.IsUsable() && RootsWaitedFor(w, refused, giveUpOn) != []
    ensures p.Waiting? ==> p.failedRoots == RootsWaitedFor(w, refused, giveUpOn)
    ensures p.Ready? ==>
              && p.candidates == Entrants(w, refused, giveUpOn) && p.checked + p.unconsidered == OthersOf(w, refused, giveUpOn)
              && (p.candidates == [] ==> (StorageFailedSome(p.checked) <==> SomeIsGivenUp(w, refused, giveUpOn)))
              && p.checked == ExcludedOf(ChecksOf(w, refused, giveUpOn), w.passes)
              && |p.candidates| + |p.checked| + |p.unconsidered| == |w.Kept()| && |p.candidates| <= JUDGE_MAX_SUBMISSIONS
              && Considereds(w, refused, giveUpOn, p.candidates)
  {
    if !w.IsUsable() {
      return NotYet;
    }
    var considered := Considered(w.Kept(), refused);
    ConsideredAreEarliest(w.Kept(), refused);
    ConsideredAreCommitted(w, refused);
    var checked, failedRoots := VerifyOpenResults(considered, w.source, giveUpOn);
    if failedRoots != [] {
      return Waiting(failedRoots);
    }
    var candidates, excluded := JudgeableSubmissions(checked, w.passes);
    CheckedAreEntered(considered, w.source, giveUpOn, w.passes);
    EverybodyIsCounted(w.Kept(), refused);
    GivenUpIsSaid(w, refused, giveUpOn);
    p := Ready(candidates, excluded, UnconsideredRows(w.Kept(), refused));
  }

  /** Everyone who is not judged: those considered but not entered, then those never considered. */
  function OthersOf(w: World, refused: set<string>, giveUpOn: set<string>): seq<Excluded> {
    ExcludedOf(ChecksOf(w, refused, giveUpOn), w.passes) + UnconsideredRows(w.Kept(), refused)
  }

  /** A considered submission's stored result could not be downloaded, and is no longer waited for. */
  ghost predicate SomeIsGivenUp(w: World, refused: set<string>, giveUpOn: set<string>) {
    var considered := Considered(w.Kept(), refused);
    AreCommitted(considered, w.source) && exists i :: 0 <= i < |considered| && IsGivenUp(considered, i, w.source, giveUpOn)
  }

  predicate IsGivenUp(subs: seq<Listing>, i: nat, from: Source, giveUpOn: set<string>)
    requires i < |subs| && AreCommitted(subs, from)
  {
    && IsCommitted(subs[i], from.escrow[from.addressOf(subs[i].submitter)])
    && RootOf(subs[i]) != "" && Is64Hex(RootOf(subs[i]))
    && from.download(i, RootOf(subs[i])).None? && Ranking.LowerCase(RootOf(subs[i])) in giveUpOn
  }

  lemma GivenUpIsSaid(w: World, refused: set<string>, giveUpOn: set<string>)
    requires RootsWaitedFor(w, refused, giveUpOn) == []
    ensures StorageFailedSome(ExcludedOf(ChecksOf(w, refused, giveUpOn), w.passes)) <==> SomeIsGivenUp(w, refused, giveUpOn)
  {
    var considered := Considered(w.Kept(), refused);
    ConsideredAreCommitted(w, refused);
    var cs := ChecksOf(w, refused, giveUpOn);
    FailedAreWaitedFor(considered, w.source, giveUpOn);
    JudgeableAre(cs, w.passes);
    forall i | 0 <= i < |considered|
      ensures cs[i].why == Some(StorageUnreadable) <==> IsGivenUp(considered, i, w.source, giveUpOn)
    {
      assert !WaitsAt(considered, i, w.source, giveUpOn);
      CheckIsRight(considered[i], w.source.escrow[w.source.addressOf(considered[i].submitter)], w.source.download(i, RootOf(considered[i])), giveUpOn);
    }
    StorageRowsAre(cs, w.passes);
  }

  /** Such a row is there exactly when a check says so. */
  lemma StorageRowsAre(cs: seq<Checked>, passes: string -> bool)
    ensures StorageFailedSome(ExcludedOf(cs, passes)) <==> exists i :: 0 <= i < |cs| && cs[i].why == Some(StorageUnreadable)
  {
    var rows := ExcludedOf(cs, passes);
    if i :| 0 <= i < |cs| && cs[i].why == Some(StorageUnreadable) {
      var row := GivenUpRow(cs, passes, i);
      var k :| 0 <= k < |rows| && rows[k] == row;
    }
    if k :| 0 <= k < |rows| && rows[k].why == StorageUnreadable {
      OthersAreListedWithWhy(cs, passes, rows[k]);
      var i :| 0 <= i < |cs| && i !in PoolOf(cs, passes) && IsListedAs(cs[i], rows[k]);
    }
  }

  lemma GivenUpRow(cs: seq<Checked>, passes: string -> bool, i: nat) returns (row: Excluded)
    requires i < |cs| && cs[i].why == Some(StorageUnreadable)
    ensures row.why == StorageUnreadable && row in ExcludedOf(cs, passes)
  {
    row := Excluded(cs[i].listing.submitter, StorageUnreadable);
    JudgeableAre(cs, passes);
    assert i !in PoolOf(cs, passes) && IsListedAs(cs[i], row);
    OthersAreListedWithWhy(cs, passes, row);
  }

  /** The candidates are exactly the considered submissions that are to be judged. */
  ghost predicate Considereds(w: World, refused: set<string>, giveUpOn: set<string>, candidates: seq<Candidate>) {
    var considered := Considered(w.Kept(), refused);
    AreCommitted(considered, w.source) &&
    AreEntered(candidates, PoolOf(ChecksOf(w, refused, giveUpOn), w.passes), considered, w.source, w.passes)
  }

  /** In every round it was in, the model named it the winner of its batch and scored nobody there higher. */
  ghost predicate WonAll(c: Candidate, rounds: seq<Round>, rank: Rank) {
    forall k :: 0 <= k < |rounds| ==> WonFrom(c, rounds[k].entrants, 0, rounds[k].firstCall, rank, JUDGE_BATCH)
  }

  /** The card accounts for every kept submission; all of the escrow's, when no address is listed twice. */
  ghost predicate CardIsComplete(card: Card, w: World) {
    && card.submissions == w.count
    && card.judged + Total(card.notJudged) == |w.Kept()|
    && (w.count == |w.source.escrow| ==>
          (DistinctAddresses(w.Kept(), w.source.addressOf) <==>
           card.judged + Total(card.notJudged) == card.submissions && Addresses(w.Kept(), w.source.addressOf) == w.source.escrow.Keys))
  }

  lemma CompleteCard(card: Card, w: World)
    requires w.IsUsable() && card.submissions == w.count && card.judged + Total(card.notJudged) == |w.Kept()|
    ensures CardIsComplete(card, w)
  {
    if w.count == |w.source.escrow| {
      KeptListIsTheCommittedSet(w.listed, w.source.escrow, w.source.addressOf);
    }
  }

  /** What the card says is what the judgement says. */
  ghost predicate CardIsOf(card: Card, j: Judgement, candidates: seq<Candidate>)
    requires j.Judged?
  {
    && j.rounds != [] && card.winner == (if j.winner.Some? then Some(j.winner.value.submitter) else None)
    && card.judged == |candidates| == |card.scores| && card.scores == ScoredRows(candidates, j.rounds[0].scores)
    && card.laterRounds == LaterRows(candidates, j.rounds[1..])
  }

  /**
   Judging a task end to end: a scorecard is made exactly when somebody or nobody won, of the judgement
   of exactly those to be judged. A winner is one of them, won its batch in every round, and was not
   refused; a ranking that fails picks nobody. No judgement takes more than 13 model calls.
   */
  method Judge(w: World, refused: set<string>, giveUpOn: set<string>, yielded: nat, fits: (Card, nat) -> bool)
    returns (v: Verdict, card: Option<Card>, calls: nat, ghost rounds: seq<Round>)
    requires Tournament.Checked(w.rank)
    ensures v.ListUnusable? <==> |w.listed| > w.count + MAX_LIST_EXCESS || |w.Kept()| < w.count
    ensures v.WaitsOnStorage? <==> !v.ListUnusable? && SomeWaits(w, refused, giveUpOn)
    ensures v.NothingReadable? <==> !v.ListUnusable? && !v.WaitsOnStorage? && !SomeCanBeRead(w, refused)
    ensures v.NothingReadable? ==> (v.storageUnreadable <==> SomeIsGivenUp(w, refused, giveUpOn))
    ensures v == VerdictOf(w, refused, giveUpOn, yielded) && (card.Some? <==> v.Winner? || v.Nobody?) && calls <= 13
    ensures v.ListUnusable? || v.WaitsOnStorage? || v.NothingReadable? ==> calls == 0
    ensures !v.ListUnusable? && !v.WaitsOnStorage? ==> Considereds(w, refused, giveUpOn, Entrants(w, refused, giveUpOn))
    ensures v.Winner? || v.Nobody? || v.Yielded? || v.RankingFailed? ==>
              IsOfTheRanking(v, card, calls, rounds, w, refused, giveUpOn, yielded)
  {
    calls, card, rounds := 0, None, [];
    WaitsAreOfSome(w, refused, giveUpOn);
    var p := PrepareJudging(w, refused, giveUpOn);
    if p.NotYet? {
      return ListUnusable, card, calls, rounds;
    }
    if p.Waiting? {
      return WaitsOnStorage(p.failedRoots), card, calls, rounds;
    }
    SomeEnterWhenSomeCanBeRead(w, refused, giveUpOn, p.candidates);
    if p.candidates == [] {
      return NothingReadable(StorageFailedSome(p.checked)), card, calls, rounds;
    }
    v, card, calls, rounds := RankEntrants(p.candidates, p.checked + p.unconsidered, w, refused, giveUpOn, yielded, fits);
  }

  /**
   What the ranking of the entrants came to: the verdict is what the rankings say; there is a card exactly of a judgement
   made, accounting for everyone; and a winner is an entrant not refused, who won its batch in every round.
   */
  ghost predicate IsOfTheRanking(v: Verdict, card: Option<Card>, calls: nat, rounds: seq<Round>, w: World, refused: set<string>,
                                 giveUpOn: set<string>, yielded: nat) {
    var j, entrants := JudgementOf(w, refused, giveUpOn, yielded), Entrants(w, refused, giveUpOn);
    && IsWhatRankingsSay(v, calls, rounds, entrants, w, yielded) && calls == j.calls
    && (v.Yielded? || v.RankingFailed? <==> j.Failed?)
    && (card.Some? <==> j.Judged?)
    && (card.Some? ==>
          && (v.Nobody? <==> j.winner.None?) && CardIsOf(card.value, j, entrants) && CardIsComplete(card.value, w)
          && Accounts(card.value.notJudged, OthersOf(w, refused, giveUpOn)))
    && (v.Winner? ==>
          && j.winner == Some(v.c) && v.c in entrants && v.c.submitter !in refused
          && WonAll(v.c, j.rounds, OrYield(w.rank, w.busyAt, yielded)))
  }

  method RankEntrants(entrants: seq<Candidate>, others: seq<Excluded>, w: World, refused: set<string>, giveUpOn: set<string>, yielded: nat,
                      fits: (Card, nat) -> bool) returns (v: Verdict, card: Option<Card>, calls: nat, ghost rounds: seq<Round>)
    requires Tournament.Checked(w.rank) && w.IsUsable() && RootsWaitedFor(w, refused, giveUpOn) == []
    requires entrants == Entrants(w, refused, giveUpOn) && others == OthersOf(w, refused, giveUpOn)
    requires DistinctIds(entrants) && |entrants| + |others| == |w.Kept()| && |entrants| <= JUDGE_MAX_SUBMISSIONS
    ensures v == VerdictIn(JudgementOf(w, refused, giveUpOn, yielded), w.busyAt, yielded) && calls <= 13
    ensures IsOfTheRanking(v, card, calls, rounds, w, refused, giveUpOn, yielded)
  {
    v, card, calls, rounds := RankThem(entrants, others, w, yielded, fits);
    if v.Winner? {
      WinnerIsAnEntrant(w, refused, giveUpOn, yielded);
    }
  }

  /**
   The verdict in terms of the rankings alone: the winner is the one candidate the last round names,
   nobody when it names none, and otherwise the last ranking asked for failed, or yielded to paid work.
   */
  ghost predicate IsWhatRankingsSay(v: Verdict, calls: nat, rounds: seq<Round>, candidates: seq<Candidate>, w: World, yielded: nat) {
    var rank := OrYield(w.rank, w.busyAt, yielded);
    && IsCourse(rounds, candidates, 0, rank, JUDGE_BATCH)
    && (v.Winner? ==> EndsWith(rounds, Some(v.c), calls, rank, JUDGE_BATCH))
    && (v.Nobody? ==> EndsWith(rounds, None, calls, rank, JUDGE_BATCH))
    && (v.Yielded? || v.RankingFailed? ==>
          && EndsFailing(rounds, calls, rank, JUDGE_BATCH) && calls > 0
          && (v.Yielded? <==> yielded < JudgeRecord.MAX_JUDGE_YIELDS && w.busyAt(calls - 1)))
  }

  /** Paid work that waits at a call has the task yield there, unless it yielded often enough; otherwise the model is asked. */
  lemma PaidWorkIsYieldedTo(candidates: seq<Candidate>, w: World, yielded: nat, n: nat, batch: seq<Candidate>)
    ensures var j := Tournament.Judge(candidates, 0, OrYield(w.rank, w.busyAt, yielded), JUDGE_BATCH);
            w.busyAt(n) && yielded <= 2 && n < j.calls ==> n == j.calls - 1 && VerdictIn(j, w.busyAt, yielded) == Yielded
    ensures yielded > 2 || !w.busyAt(n) ==> OrYield(w.rank, w.busyAt, yielded)(n, batch) == w.rank(n, batch)
  {
    if w.busyAt(n) && yielded <= 2 {
      JudgementStopsAt(candidates, 0, OrYield(w.rank, w.busyAt, yielded), JUDGE_BATCH, n);
    }
  }

  lemma ShownIsSaid(j: Judgement, rounds: seq<Round>, candidates: seq<Candidate>, w: World, yielded: nat)
    requires Shows(rounds, j, candidates, 0, OrYield(w.rank, w.busyAt, yielded), JUDGE_BATCH)
    ensures IsWhatRankingsSay(VerdictIn(j, w.busyAt, yielded), j.calls, rounds, candidates, w, yielded)
  {
    if j.Failed? {
      var last := rounds[|rounds| - 1];
      FailedCallIsCounted(last.entrants, 0, last.firstCall, OrYield(w.rank, w.busyAt, yielded), JUDGE_BATCH, j.calls);
    }
  }

  /** What a judgement is told as: failed or yielded, somebody or nobody. */
  function VerdictIn(j: Judgement, busyAt: nat -> bool, yielded: nat): Verdict {
    match j
    case Failed(_) => if YieldedIn(j, busyAt, yielded) then Yielded else RankingFailed
    case Judged(winner, _, _) => if winner.Some? then Winner(winner.value) else Nobody
  }

  /** The ranking, and its card. */
  method RankThem(candidates: seq<Candidate>, excluded: seq<Excluded>, w: World, yielded: nat, fits: (Card, nat) -> bool)
    returns (v: Verdict, card: Option<Card>, calls: nat, ghost rounds: seq<Round>)
    requires w.IsUsable() && Tournament.Checked(w.rank) && DistinctIds(candidates) && |candidates| + |excluded| == |w.Kept()|
    requires |candidates| <= JUDGE_MAX_SUBMISSIONS
    ensures var j := Tournament.Judge(candidates, 0, OrYield(w.rank, w.busyAt, yielded), JUDGE_BATCH);
            && v == VerdictIn(j, w.busyAt, yielded) && calls == j.calls <= 13
            && IsWhatRankingsSay(v, calls, rounds, candidates, w, yielded)
            && (card.Some? <==> j.Judged?)
            && (card.Some? ==> CardIsOf(card.value, j, candidates) && CardIsComplete(card.value, w) && Accounts(card.value.notJudged, excluded))
            && (v.Winner? ==> WonAll(v.c, j.rounds, OrYield(w.rank, w.busyAt, yielded)))
  {
    ghost var rank := OrYield(w.rank, w.busyAt, yielded);
    YieldingIsChecked(w.rank, w.busyAt, yielded);
    var j := JudgeInRounds(candidates, OrYield(w.rank, w.busyAt, yielded), JUDGE_BATCH);
    ThirteenCallsAtMost(candidates, rank);
    ghost var same;
    rounds, same := JudgementIsWhatRankingsSay(candidates, 0, rank, JUDGE_BATCH);
    ShownIsSaid(j, rounds, candidates, w, yielded);
    v, card, calls := VerdictIn(j, w.busyAt, yielded), None, j.calls;
    if j.Judged? {
      PickWonEveryRound(candidates, 0, rank, JUDGE_BATCH);
      var made := CardOf(candidates, excluded, j, w, rank, fits);
      card := Some(made);
    }
  }

  /** A considered submission's stored result is missing, and is still waited for. */
  ghost predicate SomeWaits(w: World, refused: set<string>, giveUpOn: set<string>) {
    var considered := Considered(w.Kept(), refused);
    AreCommitted(considered, w.source) && exists i :: 0 <= i < |considered| && WaitsAt(considered, i, w.source, giveUpOn)
  }

  ghost predicate SomeCanBeRead(w: World, refused: set<string>) {
    var considered := Considered(w.Kept(), refused);
    AreCommitted(considered, w.source) && exists i :: 0 <= i < |considered| && CanBeReadAt(considered, i, w.source)
  }

  lemma WaitsAreOfSome(w: World, refused: set<string>, giveUpOn: set<string>)
    ensures RootsWaitedFor(w, refused, giveUpOn) != [] <==> SomeWaits(w, refused, giveUpOn)
  {
    ConsideredAreCommitted(w, refused);
    FailedAreWaitedFor(Considered(w.Kept(), refused), w.source, giveUpOn);
  }

  lemma SomeEnterWhenSomeCanBeRead(w: World, refused: set<string>, giveUpOn: set<string>, candidates: seq<Candidate>)
    requires Considereds(w, refused, giveUpOn, candidates)
    ensures candidates != [] <==> SomeCanBeRead(w, refused)
  {
    var considered := Considered(w.Kept(), refused);
    SomeEnter(candidates, PoolOf(ChecksOf(w, refused, giveUpOn), w.passes), considered, w.source, w.passes);
  }

  lemma SomeEnter(candidates: seq<Candidate>, pool: seq<nat>, subs: seq<Listing>, from: Source, passes: string -> bool)
    requires AreCommitted(subs, from) && AreEntered(candidates, pool, subs, from, passes)
    ensures candidates != [] <==> exists i :: 0 <= i < |subs| && CanBeReadAt(subs, i, from)
  {
    if candidates != [] {
      assert pool[0] in pool && CanBeReadAt(subs, pool[0], from);
    }
    if i :| 0 <= i < |subs| && CanBeReadAt(subs, i, from) {
      if AnyPassesIn(subs, from, passes) {
        var k :| 0 <= k < |subs| && PassesAt(subs, k, from, passes);
        assert k in pool;
      } else {
        assert i in pool;
      }
    }
  }

  /** The card of a judgement. */
  method CardOf(candidates: seq<Candidate>, excluded: seq<Excluded>, j: Judgement, w: World, ghost rank: Rank, fits: (Card, nat) -> bool)
    returns (card: Card)
    requires w.IsUsable() && Tournament.Checked(rank) && DistinctIds(candidates) && |candidates| + |excluded| == |w.Kept()|
    requires j == Tournament.Judge(candidates, 0, rank, JUDGE_BATCH) && j.Judged?
    ensures CardIsOf(card, j, candidates) && CardIsComplete(card, w) && Accounts(card.notJudged, excluded)
  {
    PickWonEveryRound(candidates, 0, rank, JUDGE_BATCH);
    EveryRoundScoresEachOnce(candidates, 0, rank, JUDGE_BATCH);
    assert j.rounds[0] in j.rounds;
    CardScoresEachJudged(candidates, j.rounds[0].scores);
    card := BuildScorecard(if j.winner.Some? then Some(j.winner.value.submitter) else None, w.count, candidates, j.rounds, excluded, fits);
    CompleteCard(card, w);
  }
}
