/**
 The open pass over the maps it keeps: what one pass does to the record of every task, whatever it is
 told. At most one unsent result exists, and no task is both done and unsent.
 */
module OpenPass {
  import opened Wrappers
  import opened OpenRecord
  import opened OpenCandidates
  import OpenBounds
  import RollingCap
  import Sorting

  const MAX_OPEN_CHECKS_PER_PASS: nat := 5
  const MAX_LOGGED: nat := 2000

  type Hash = string

  /** A count that is kept only once it is above 0. */
  type Count = n: nat | n > 0 witness 1

  /** What the pass is told, task by task: how sending, or checking and running, went, and when it was over. */
  datatype Told = Told(send: Hash -> Send, check: Hash -> Check, endMs: Hash -> int, startMs: Hash -> int)

  class OpenState {
    var done: set<Hash>
    var retryAt: map<Hash, int>
    var attempts: map<Hash, Count>
    var unsent: map<Hash, Unsent>
    var logged: set<Hash>
    var absent: map<Hash, Count>
    var runs: seq<int>

    ghost function Of(h: Hash): Record
      reads this
    {
      Record(h in done, Find(retryAt, h), Get<Hash, nat>(attempts, h, 0), Find(unsent, h), h in logged, Get<Hash, nat>(absent, h, 0))
    }

    /** What is remembered of every task. */
    ghost function All(): Hash -> Record
      reads this
      ensures forall h :: All()(h) == Of(h)
    {
      RecordsIn(done, retryAt, attempts, unsent, logged, absent)
    }

    /** At most one unsent result, and of no task that is done. */
    ghost predicate Valid()
      reads this
    {
      && (forall h, k :: h in unsent && k in unsent ==> h == k)
      && (forall h :: h in unsent ==> h !in done)
    }

    constructor ()
      ensures Valid() && runs == [] && forall h :: Of(h) == NOTHING
    {
      done, retryAt, attempts, unsent := {}, map[], map[], map[];
      logged, absent, runs := {}, map[], [];
    }

    method MarkOpenDone(h: Hash)
      modifies `done, `unsent, `retryAt
      ensures Of(h) == MarkDone(old(Of(h))) && forall k :: k != h ==> Of(k) == old(Of(k))
    {
      done, unsent, retryAt := done + {h}, unsent - {h}, retryAt - {h};
    }

    method NoteOpenFailure(h: Hash, final: bool, nowMs: int)
      modifies `done, `unsent, `retryAt, `attempts
      ensures Of(h) == NoteFailure(old(Of(h)), final, nowMs) && forall k :: k != h ==> Of(k) == old(Of(k))
    {
      attempts := attempts[h := Get<Hash, nat>(attempts, h, 0) + 1];
      if final || attempts[h] >= MAX_OPEN_ATTEMPTS {
        MarkOpenDone(h);
        return;
      }
      retryAt := retryAt[h := nowMs + OPEN_RETRY_MS];
    }

    /** keepUnsent: `u` counts this try. */
    method Keep(h: Hash, u: Unsent)
      modifies `done, `unsent, `retryAt
      ensures Of(h) == KeepUnsent(old(Of(h)), u) && forall k :: k != h ==> Of(k) == old(Of(k))
    {
      if u.tries >= MAX_UNSENT_TRIES {
        MarkOpenDone(h);
        return;
      }
      unsent := unsent[h := u];
    }

    // ---- The board ------------------------------------------------------------------------------

    /** One task this process knows of, as a complete read had it. */
    method CountAbsence(k: Hash, listed: bool, nowSec: int)
      requires Known(Of(k))
      modifies `done, `retryAt, `attempts, `logged, `absent
      ensures Of(k) == Absence(old(Of(k)), Board(listed, true, nowSec)) && forall h :: h != k ==> Of(h) == old(Of(h))
    {
      if listed {
        absent := absent - {k};
        return;
      }
      var misses := Get<Hash, nat>(absent, k, 0) + 1;
      if misses < 2 {
        absent := absent[k := misses];
        return;
      }
      done, retryAt, attempts := done - {k}, retryAt - {k}, attempts - {k};
      logged, absent := logged - {k}, absent - {k};
    }

    method KnownTasks() returns (known: set<Hash>)
      ensures forall h :: h in known <==> Known(Of(h))
    {
      known := done + retryAt.Keys + attempts.Keys + logged + absent.Keys;
    }

    /** Counts a complete read's absences, and forgets those missing for the second time. */
    method CountAbsences(onBoard: set<Hash>, nowSec: int)
      modifies `done, `retryAt, `attempts, `logged, `absent
      ensures forall h :: Of(h) == Absence(old(Of(h)), Board(h in onBoard, true, nowSec))
    {
      var known := KnownTasks();
      var left := known;
      while left != {}
        invariant left <= known
        invariant forall h :: Of(h) == if h in known && h !in left then Absence(old(Of(h)), Board(h in onBoard, true, nowSec)) else old(Of(h))
      {
        var k :| k in left;
        left := left - {k};
        CountAbsence(k, k in onBoard, nowSec);
      }
    }

    method DropExpired(nowSec: int)
      modifies `unsent
      ensures forall h :: Of(h) == if Expires(old(Of(h)), nowSec) then old(Of(h)).(unsent := None) else old(Of(h))
    {
      var left := unsent.Keys;
      while left != {}
        invariant left <= unsent.Keys
        invariant forall h :: Of(h) == if h !in left && Expires(old(Of(h)), nowSec) then old(Of(h)).(unsent := None) else old(Of(h))
      {
        var k :| k in left;
        left := left - {k};
        if nowSec >= unsent[k].deadline {
          unsent := unsent - {k};
        }
      }
    }

    method PruneOpenState(onBoard: set<Hash>, complete: bool, nowSec: int) returns (ghost logsCleared: bool)
      modifies `done, `retryAt, `attempts, `logged, `absent, `unsent
      ensures forall h :: Of(h) == Prune(old(Of(h)), Board(h in onBoard, complete, nowSec), logsCleared)
    {
      if complete {
        CountAbsences(onBoard, nowSec);
      }
      logsCleared := |logged| > MAX_LOGGED;
      if |logged| > MAX_LOGGED {
        logged := {};
      }
      DropExpired(nowSec);
    }

    // ---- Sending and running --------------------------------------------------------------------

    method SendOpenResult(h: Hash, u: Unsent, s: Send)
      modifies `done, `unsent, `retryAt
      ensures Of(h) == SendResult(old(Of(h)), u, s) && forall k :: k != h ==> Of(k) == old(Of(k))
    {
      if s.nowSec >= u.deadline {
        MarkOpenDone(h);
        return;
      }
      if u.txHash.Some? {
        if s.lookup.Mined? {
          MarkOpenDone(h);
          return;
        }
        if EscrowTx.HoldsBack(s.lookup) {
          Keep(h, u.(tries := u.tries + 1));
          return;
        }
      }
      var tried := u.(tries := u.tries + 1, txHash := None);
      match s.answer {
        case NoGas => Keep(h, tried);
        case NoAnswer => Keep(h, tried);
        case Refused(status, code) =>
          if EscrowTx.OpenRefusalIsFinal(status, code) {
            MarkOpenDone(h);
          } else {
            Keep(h, tried);
          }
        case AlreadyOnChain => MarkOpenDone(h);
        case Built(tx, sending) =>
          var problem := EscrowTx.CheckUnsigned(tx, s.expected, WantedCall(s, u.evidence));
          if problem.Some? {
            MarkOpenDone(h);
          } else if sending.Landed? {
            MarkOpenDone(h);
          } else if sending.revert.Some? && sending.revert.value in FINAL_SUBMIT_OPEN_REVERTS {
            MarkOpenDone(h);
          } else {
            Keep(h, tried.(txHash := sending.hash));
          }
      }
    }

    /** A run whose model starts is counted for the cap; its result, if it makes one, is sent at once. */
    method RunOpenSubmission(h: Hash, deadline: int, run: Run, startMs: int, endMs: int)
      modifies this
      ensures Of(h) == RunTask(old(Of(h)), deadline, run, endMs) && forall k :: k != h ==> Of(k) == old(Of(k))
      ensures runs == old(runs) + if StartsModel(run) then [startMs] else []
    {
      if StartsModel(run) {
        runs := runs + [startMs];
      }
      match run {
        case BriefFailed(final) => NoteOpenFailure(h, final, endMs);
        case ModelFailed => NoteOpenFailure(h, false, endMs);
        case Threw(_) => NoteOpenFailure(h, false, endMs);
        case Produced(evidence, send) => SendOpenResult(h, Unsent(evidence, deadline, 0, None), send);
      }
    }

    /** openRunsLeft: drops starts older than an hour. */
    method OpenRunsLeft(nowMs: int) returns (left: int)
      modifies `runs
      ensures runs == RollingCap.Recent(old(runs), nowMs) && left == RollingCap.MAX_OPEN_RUNS_PER_HOUR - |runs|
    {
      while runs != [] && runs[0] <= nowMs - RollingCap.HOUR_MS
        invariant RollingCap.Recent(runs, nowMs) == RollingCap.Recent(old(runs), nowMs)
        decreases |runs|
      {
        runs := runs[1..];
      }
      left := RollingCap.MAX_OPEN_RUNS_PER_HOUR - |runs|;
    }

    // ---- Candidates -----------------------------------------------------------------------------

    method LogSkips(skips: seq<(Hash, SkipReason)>) returns (skipped: set<Hash>)
      modifies `logged
      ensures skipped == set s | s in skips :: s.0
      ensures forall h :: Of(h) == if h in skipped then old(Of(h)).(logged := true) else old(Of(h))
    {
      skipped := {};
      for i := 0 to |skips|
        invariant skipped == set s | s in skips[..i] :: s.0
        invariant forall h :: Of(h) == if h in skipped then old(Of(h)).(logged := true) else old(Of(h))
      {
        assert skips[..i + 1] == skips[..i] + [skips[i]];
        logged := logged + {skips[i].0};
        skipped := skipped + {skips[i].0};
      }
      assert skips[..|skips|] == skips;
    }

    method TryAgainLater(h: Hash, endMs: int)
      modifies `retryAt, `logged
      ensures Of(h) == TryLater(old(Of(h)), endMs) && forall k :: k != h ==> Of(k) == old(Of(k))
    {
      retryAt := retryAt[h := endMs + OPEN_RETRY_MS];
      logged := logged + {h};
    }

    method CheckCandidate(h: Hash, deadline: int, endMs: int, startMs: int, c: Check)
      modifies this
      ensures Of(h) == CheckTask(old(Of(h)), deadline, endMs, c) && forall k :: k != h ==> Of(k) == old(Of(k))
      ensures runs == old(runs) + if c.Go? && StartsModel(c.run) then [startMs] else []
    {
      match c {
        case GasProblem => logged := logged + {h};
        case CrashLoop => logged := logged + {h};
        case CrashedOnIt => MarkOpenDone(h);
        case EscrowUnread => TryAgainLater(h, endMs);
        case EscrowRefuses(final) =>
          if final {
            MarkOpenDone(h);
          } else {
            TryAgainLater(h, endMs);
          }
        case CheckUnread => TryAgainLater(h, endMs);
        case ServerRefuses(final) =>
          if final {
            MarkOpenDone(h);
          } else {
            TryAgainLater(h, endMs);
          }
        case Go(run) => RunOpenSubmission(h, deadline, run, startMs, endMs);
      }
    }

    /** The next candidate, `was` being what was remembered before the first. */
    method CheckNext(candidates: seq<Entry>, i: nat, told: Told, ghost was: Hash -> Record)
      requires i < |candidates| && TasksDiffer(candidates)
      requires forall h :: Of(h) == AttemptedIn(was(h), h, candidates[..i], told)
      modifies this
      ensures forall h :: Of(h) == AttemptedIn(was(h), h, candidates[..i] + [candidates[i]], told)
      ensures runs == old(runs) + StartsIn(candidates[..i] + [candidates[i]], told)
    {
      var e := candidates[i];
      var h := TaskOf(e);
      NotYetChecked(candidates, i);
      OneMoreChecked(candidates[..i], e);
      CheckCandidate(h, DeadlineOf(e), told.endMs(h), told.startMs(h), told.check(h));
    }

    /** The candidates in turn, a number of them, until one is run or crashes keep the worker off them all. */
    method CheckFirst(candidates: seq<Entry>, told: Told) returns (checked: seq<Entry>)
      requires TasksDiffer(candidates)
      modifies this
      ensures checked <= candidates && |checked| <= MAX_OPEN_CHECKS_PER_PASS
      ensures forall h :: Of(h) == AttemptedIn(old(Of(h)), h, checked, told)
      ensures runs == old(runs) + StartsIn(checked, told)
      ensures forall i :: 0 <= i < |checked| - 1 ==> !Ends(told.check(TaskOf(checked[i])))
      ensures IsEnough(checked, candidates, told)
    {
      checked := [];
      ghost var was := All();
      assert forall h :: was(h) == Of(h);
      for i := 0 to |candidates|
        invariant checked == candidates[..i] && i <= MAX_OPEN_CHECKS_PER_PASS
        invariant forall h :: Of(h) == AttemptedIn(was(h), h, checked, told)
        invariant runs == old(runs)
        invariant forall k :: 0 <= k < i ==> !Ends(told.check(TaskOf(candidates[k])))
      {
        if i == MAX_OPEN_CHECKS_PER_PASS {
          return;
        }
        var e := candidates[i];
        var h := TaskOf(e);
        CheckNext(candidates, i, told, was);
        checked := checked + [e];
        if Ends(told.check(h)) {
          return;
        }
      }
    }

    /** What the pick reads. */
    function WhatIsKept(): Memory
      reads this
    {
      Memory(done, unsent.Keys, retryAt)
    }

    /** The candidates, of different tasks, each fit to be tried, and the tasks skipped, none of theirs. */
    method PickFrom(board: seq<Entry>, nowMs: int, marginSec: nat) returns (candidates: seq<Entry>, skips: seq<(Hash, SkipReason)>)
      requires NamedOnce(board)
      ensures candidates == Sorted(EligibleOf(board, WhatIsKept(), nowMs, marginSec)) && TasksDiffer(candidates)
      ensures skips == SkippedOf(board, WhatIsKept(), nowMs, marginSec)
      ensures forall e :: e in candidates ==> IsFit(e, WhatIsKept(), nowMs, marginSec) && TaskOf(e) !in set s | s in skips :: s.0
    {
      candidates, skips := PickOpenCandidates(board, WhatIsKept(), nowMs, marginSec);
      CandidatesAreApart(board, WhatIsKept(), nowMs, marginSec);
      SkipsAreApart(board, WhatIsKept(), nowMs, marginSec);
    }

    /** The board's candidates: the others' reasons logged, then each checked in turn. */
    method TryCandidates(board: seq<Entry>, nowMs: int, marginSec: nat, told: Told) returns (skipped: set<Hash>, checked: seq<Entry>)
      requires NamedOnce(board)
      modifies this
      ensures |checked| <= MAX_OPEN_CHECKS_PER_PASS && checked <= Sorted(EligibleOf(board, old(WhatIsKept()), nowMs, marginSec))
      ensures forall e :: e in checked ==> IsFit(e, old(WhatIsKept()), nowMs, marginSec) && TaskOf(e) !in skipped
      ensures forall h :: Of(h) == AttemptedIn(if h in skipped then old(Of(h)).(logged := true) else old(Of(h)), h, checked, told)
      ensures runs == old(runs) + StartsIn(checked, told)
      ensures forall i :: 0 <= i < |checked| - 1 ==> !Ends(told.check(TaskOf(checked[i])))
      ensures IsEnough(checked, Sorted(EligibleOf(board, old(WhatIsKept()), nowMs, marginSec)), told)
      ensures skipped == SkippedTasks(board, old(WhatIsKept()), nowMs, marginSec)
    {
      var candidates, skips := PickFrom(board, nowMs, marginSec);
      skipped := LogSkips(skips);
      checked := CheckFirst(candidates, told);
      assert forall e :: e in checked ==> e in candidates;
    }

    /** The unsent result is taken out, and sent. */
    method SendUnsent(told: Told) returns (task: Hash)
      requires Valid() && unsent != map[]
      modifies this
      ensures old(Of(task)).unsent.Some?
      ensures Of(task) == OpenBounds.StepRecord(old(Of(task)), OpenBounds.Resent(told.send(task)))
      ensures forall h :: h != task ==> Of(h) == old(Of(h))
      ensures Valid() && runs == old(runs)
    {
      var h :| h in unsent;
      task := h;
      var u := unsent[h];
      unsent := unsent - {h};
      SendOpenResult(h, u, told.send(h));
      OneAtMost(Of(h), h);
    }

    /** Only `h` may hold an unsent result, and it is not done as well. */
    ghost method OneAtMost(r: Record, h: Hash)
      requires r == Of(h) && !(r.done && r.unsent.Some?) && forall k :: k != h ==> Of(k).unsent.None?
      ensures Valid()
    {
      forall k | k in unsent
        ensures k == h && k !in done
      {
        assert Of(k).unsent.Some?;
      }
    }

    /** The board's candidates, when nothing is unsent: at most the last one checked leaves a result unsent. */
    method TryBoard(board: seq<Entry>, nowMs: int, marginSec: nat, told: Told) returns (o: Outcome)
      requires NamedOnce(board) && unsent == map[]
      modifies this
      ensures o.Tried? && IsTried(o, board, old(WhatIsKept()), nowMs, marginSec, told)
      ensures forall h :: Of(h) == Followed(old(Of(h)), NextFor(h, o, nowMs, told))
      ensures forall h :: NextFor(h, o, nowMs, told).Some? ==> OpenBounds.Possible(old(Of(h)), NextFor(h, o, nowMs, told).value, marginSec)
      ensures runs == old(runs) + StartsIn(o.checked, told)
      ensures Valid()
    {
      var skipped, checked := TryCandidates(board, nowMs, marginSec, told);
      o := Tried(skipped, checked);
      forall h
        ensures Of(h) == Followed(old(Of(h)), NextFor(h, o, nowMs, told)) && HasRoomFor(Of(h), h, checked, told)
        ensures NextFor(h, o, nowMs, told).Some? ==> OpenBounds.Possible(old(Of(h)), NextFor(h, o, nowMs, told).value, marginSec)
      {
        TriedIsFollowed(old(Of(h)), Of(h), old(WhatIsKept()), h, skipped, checked, nowMs, marginSec, told);
      }
      OnlyTheLastIsRun(checked, told);
    }

    /** Valid is kept: a check that is not the last makes no result. */
    ghost method OnlyTheLastIsRun(checked: seq<Entry>, told: Told)
      requires forall h :: HasRoomFor(Of(h), h, checked, told)
      requires forall i :: 0 <= i < |checked| - 1 ==> !Ends(told.check(TaskOf(checked[i])))
      ensures Valid()
    {
      var last := if checked == [] then "" else TaskOf(checked[|checked| - 1]);
      forall h | h in unsent
        ensures h == last && h !in done
      {
        assert Of(h).unsent.Some?;
        var e := EntryFor(h, checked).value;
        var i :| 0 <= i < |checked| && checked[i] == e;
      }
    }

    /** Tasks and results the board's read lets go. */
    method ReadBoard(board: seq<Entry>, complete: bool, nowMs: int) returns (ghost read: Hash -> OpenBounds.Event)
      requires Valid()
      modifies this
      ensures Valid() && runs == old(runs)
      ensures forall h :: IsReadOf(read(h), h, board, complete, nowMs)
      ensures forall h :: Of(h) == OpenBounds.StepRecord(old(Of(h)), read(h))
    {
      var onBoard := set e | e in NamedIn(board) :: TaskOf(e);
      ghost var logsCleared := PruneOpenState(onBoard, complete, nowMs / 1000);
      read := (h: Hash) => OpenBounds.Read(Board(h in onBoard, complete, nowMs / 1000), logsCleared);
      forall h
        ensures IsReadOf(read(h), h, board, complete, nowMs)
      {
        NamedIsListed(board, h);
        AmongIsIn(h, NamedIn(board));
      }
      forall h
        ensures Of(h).unsent.Some? ==> old(Of(h)).unsent.Some? && !Of(h).done
      {
        OpenBounds.PruningIsApart(old(Of(h)), read(h).board, logsCleared);
      }
      forall h, k | h in unsent && k in unsent
        ensures h == k && h !in done
      {
        assert Of(h).unsent.Some? && Of(k).unsent.Some?;
      }
    }

    /** The board's turn, when nothing is unsent and the model answers: tried unless the cap is reached. */
    method TryUnderCap(board: seq<Entry>, nowMs: int, marginSec: nat, told: Told) returns (o: Outcome)
      requires NamedOnce(board) && unsent == map[] && Valid()
      modifies this
      ensures Valid() && (o.Capped? || o.Tried?)
      ensures forall h :: Of(h) == Followed(old(Of(h)), NextFor(h, o, nowMs, told))
      ensures forall h :: NextFor(h, o, nowMs, told).Some? ==> OpenBounds.Possible(old(Of(h)), NextFor(h, o, nowMs, told).value, marginSec)
      ensures runs == RollingCap.Step(RollingCap.Log(old(runs), []), CapPass(o, nowMs, told)).runs
      ensures o.Tried? ==> IsTried(o, board, old(WhatIsKept()), nowMs, marginSec, told)
      ensures o.Tried? || o.Capped? ==> (o.Tried? <==> |RollingCap.Recent(old(runs), nowMs)| < RollingCap.MAX_OPEN_RUNS_PER_HOUR)
    {
      var left := OpenRunsLeft(nowMs);
      if left <= 0 {
        return Capped;
      }
      o := TryBoard(board, nowMs, marginSec, told);
    }

    /** What a pass does once the board was read: one event at most for each task. */
    method Work(board: seq<Entry>, nowMs: int, marginSec: nat, modelBlocked: bool, told: Told) returns (o: Outcome)
      requires Valid() && NamedOnce(board)
      modifies this
      ensures Valid()
      ensures forall h :: Of(h) == Followed(old(Of(h)), NextFor(h, o, nowMs, told))
      ensures forall h :: NextFor(h, o, nowMs, told).Some? ==> OpenBounds.Possible(old(Of(h)), NextFor(h, o, nowMs, told).value, marginSec)
      ensures o.Sent? <==> exists h :: old(Of(h)).unsent.Some?
      ensures o.Sent? || o.Blocked? ==> runs == old(runs)
      ensures o.Capped? || o.Tried? ==> runs == RollingCap.Step(RollingCap.Log(old(runs), []), CapPass(o, nowMs, told)).runs
      ensures o.Tried? ==> IsTried(o, board, old(WhatIsKept()), nowMs, marginSec, told)
      ensures o.Tried? || o.Capped? ==> (o.Tried? <==> |RollingCap.Recent(old(runs), nowMs)| < RollingCap.MAX_OPEN_RUNS_PER_HOUR)
    {
      assert forall h :: h in unsent <==> Of(h).unsent.Some?;
      if unsent != map[] {
        var task := SendUnsent(told);
        o := Sent(task);
      } else if modelBlocked {
        o := Blocked;
      } else {
        o := TryUnderCap(board, nowMs, marginSec, told);
      }
    }

    /**
     openPassCore: after the board's read, either the unsent result is sent, or up to 5 candidates are
     checked and at most one is run. Each task's record follows its history by one read and at most one
     event more, every one of which the history allows; at most one unsent result is left.
     */
    method Pass(board: seq<Entry>, complete: bool, nowMs: int, marginSec: nat, modelBlocked: bool, told: Told)
      returns (o: Outcome, ghost read: Hash -> OpenBounds.Event, ghost kept: Memory)
      requires Valid() && NamedOnce(board)
      modifies this
      ensures Valid()
      ensures forall h :: IsReadOf(read(h), h, board, complete, nowMs)
      ensures forall h :: Of(h) == Followed(OpenBounds.StepRecord(old(Of(h)), read(h)), NextFor(h, o, nowMs, told))
      ensures forall h :: NextFor(h, o, nowMs, told).Some? ==>
                OpenBounds.Possible(OpenBounds.StepRecord(old(Of(h)), read(h)), NextFor(h, o, nowMs, told).value, marginSec)
      ensures o.Sent? <==> exists h :: OpenBounds.StepRecord(old(Of(h)), read(h)).unsent.Some?
      ensures o.Sent? || o.Blocked? ==> runs == old(runs)
      ensures o.Capped? || o.Tried? ==> runs == RollingCap.Step(RollingCap.Log(old(runs), []), CapPass(o, nowMs, told)).runs
      ensures forall h :: IsKeptOf(kept, h, OpenBounds.StepRecord(old(Of(h)), read(h)))
      ensures o.Tried? ==> IsTried(o, board, kept, nowMs, marginSec, told)
      ensures o.Tried? || o.Capped? ==> (o.Tried? <==> |RollingCap.Recent(old(runs), nowMs)| < RollingCap.MAX_OPEN_RUNS_PER_HOUR)
    {
      read := ReadBoard(board, complete, nowMs);
      kept := WhatIsKept();
      assert forall h :: IsKeptOf(kept, h, Of(h));
      o := Work(board, nowMs, marginSec, modelBlocked, told);
    }
  }

  ghost function RecordsIn(done: set<Hash>, retryAt: map<Hash, int>, attempts: map<Hash, Count>, unsent: map<Hash, Unsent>,
                           logged: set<Hash>, absent: map<Hash, Count>): Hash -> Record
  {
    (h: Hash) =>
      Record(h in done, Find(retryAt, h), Get<Hash, nat>(attempts, h, 0), Find(unsent, h), h in logged, Get<Hash, nat>(absent, h, 0))
  }

  /** What a pass did: sent the unsent result, found the model blocked or the cap reached, or tried the board. */
  datatype Outcome = Sent(task: Hash) | Blocked | Capped | Tried(skipped: set<Hash>, checked: seq<Entry>)

  /** The tasks skipped with a reason. */
  function SkippedTasks(board: seq<Entry>, kept: Memory, nowMs: int, marginSec: int): set<Hash> {
    set s | s in SkippedOf(board, kept, nowMs, marginSec) :: s.0
  }

  /** The candidates were all checked, or 5 of them, or the last one checked was run or ended the pass. */
  predicate IsEnough(checked: seq<Entry>, candidates: seq<Entry>, told: Told) {
    || |checked| == 5
    || checked == candidates
    || (checked != [] && var c := told.check(TaskOf(checked[|checked| - 1])); c.Go? || c.CrashLoop?)
  }

  /** At most 5 were checked, the best first, none left out before an end, and only the last can have been one. */
  predicate IsTried(o: Outcome, board: seq<Entry>, kept: Memory, nowMs: int, marginSec: nat, told: Told)
    requires o.Tried?
  {
    && |o.checked| <= 5 && o.checked <= Sorted(EligibleOf(board, kept, nowMs, marginSec))
    && o.skipped == SkippedTasks(board, kept, nowMs, marginSec)
    && IsEnough(o.checked, Sorted(EligibleOf(board, kept, nowMs, marginSec)), told)
    && forall i :: 0 <= i < |o.checked| - 1 ==> !told.check(TaskOf(o.checked[i])).Go? && !told.check(TaskOf(o.checked[i])).CrashLoop?
  }

  /** The pass as the hourly cap sees it. */
  function CapPass(o: Outcome, nowMs: int, told: Told): RollingCap.Pass {
    var starts := if o.Tried? then StartsIn(o.checked, told) else [];
    RollingCap.Pass(nowMs, if starts == [] then None else Some(starts[0]))
  }

  /** What happened to a task in the pass, after the board's read. */
  function NextFor(h: Hash, o: Outcome, nowMs: int, told: Told): Option<OpenBounds.Event> {
    match o
    case Sent(task) => if h == task then Some(OpenBounds.Resent(told.send(h))) else None
    case Blocked => None
    case Capped => None
    case Tried(skipped, checked) =>
      if EntryFor(h, checked).Some? then Some(CheckOf(EntryFor(h, checked).value, nowMs, told))
      else if h in skipped then Some(OpenBounds.Skipped(nowMs / 1000))
      else None
  }

  function Followed(r: Record, next: Option<OpenBounds.Event>): Record {
    if next.Some? then OpenBounds.StepRecord(r, next.value) else r
  }

  /** The entries that name a task. */
  function NamedIn(board: seq<Entry>): seq<Entry> {
    if board == [] then []
    else NamedIn(board[..|board| - 1]) + (if board[|board| - 1].taskId.Some? then [board[|board| - 1]] else [])
  }

  /** The read as a task's history has it: the task is listed exactly when some entry names it. */
  ghost predicate IsReadOf(read: OpenBounds.Event, h: Hash, board: seq<Entry>, complete: bool, nowMs: int) {
    && read.Read? && read.board.complete == complete && read.board.nowSec == nowMs / 1000
    && (read.board.listed <==> exists e :: e in board && e.taskId == Some(h))
  }

  lemma {:induction false} NamedIsListed(board: seq<Entry>, h: Hash)
    ensures IsAmong(h, NamedIn(board)) <==> exists e :: e in board && e.taskId == Some(h)
  {
    NamedAreThose(board);
    if IsAmong(h, NamedIn(board)) {
      var i :| 0 <= i < |NamedIn(board)| && TaskOf(NamedIn(board)[i]) == h;
      assert NamedIn(board)[i] in NamedIn(board);
    }
    if e :| e in board && e.taskId == Some(h) {
      assert e in NamedIn(board);
      var i :| 0 <= i < |NamedIn(board)| && NamedIn(board)[i] == e;
      assert TaskOf(NamedIn(board)[i]) == h;
    }
  }

  lemma {:induction false} NamedAreThose(board: seq<Entry>)
    ensures forall e :: e in NamedIn(board) <==> e in board && e.taskId.Some?
  {
    if board == [] {
    } else {
      var last := |board| - 1;
      NamedAreThose(board[..last]);
      assert board == board[..last] + [board[last]];
    }
  }

  /** The entry of a task. */
  function EntryFor(h: Hash, s: seq<Entry>): (e: Option<Entry>)
    ensures e.Some? ==> e.value in s && TaskOf(e.value) == h
    ensures e.None? ==> forall k :: 0 <= k < |s| ==> TaskOf(s[k]) != h
  {
    if s == [] then None
    else if TaskOf(s[|s| - 1]) == h then Some(s[|s| - 1])
    else EntryFor(h, s[..|s| - 1])
  }

  lemma AmongIsIn(h: Hash, s: seq<Entry>)
    ensures IsAmong(h, s) <==> h in set e | e in s :: TaskOf(e)
  {
    if IsAmong(h, s) {
      var i :| 0 <= i < |s| && TaskOf(s[i]) == h;
      assert s[i] in s;
    }
  }

  /** What checking a candidate is, in the history of its task. */
  function CheckOf(e: Entry, nowMs: int, told: Told): OpenBounds.Event {
    OpenBounds.Checked(DeadlineOf(e), nowMs, told.endMs(TaskOf(e)), told.check(TaskOf(e)))
  }

  /** A free task checked: no result unless it was run, and none of a task that is done. */
  lemma CheckingLeavesRoom(r: Record, e: Entry, told: Told)
    requires !r.done && r.unsent.None?
    ensures var after, c := Attempted(r, e, told), told.check(TaskOf(e));
            (after.unsent.Some? ==> c.Go?) && !(after.done && after.unsent.Some?)
  {
    var c := told.check(TaskOf(e));
    if c.Go? && c.run.Produced? {
      OpenBounds.SendingSettles(r, Unsent(c.run.evidence, DeadlineOf(e), 0, None), c.run.send);
    }
  }

  /** After the checks: an unsent result is of a task that was run, and is not done. */
  predicate HasRoomFor(r: Record, h: Hash, checked: seq<Entry>, told: Told) {
    r.unsent.Some? ==> !r.done && EntryFor(h, checked).Some? && told.check(h).Go?
  }

  /** What is kept of a task, as the pick reads it. */
  predicate IsKeptOf(kept: Memory, h: Hash, r: Record) {
    (h in kept.done <==> r.done) && (h in kept.unsent <==> r.unsent.Some?) && r.retryAt == Find(kept.retryAt, h)
  }

  lemma TriedIsFollowed(r: Record, after: Record, kept: Memory, h: Hash, skipped: set<Hash>, checked: seq<Entry>,
                        nowMs: int, marginSec: nat, told: Told)
    requires IsKeptOf(kept, h, r) && r.unsent.None?
    requires forall e :: e in checked ==> IsFit(e, kept, nowMs, marginSec) && TaskOf(e) !in skipped
    requires after == AttemptedIn(if h in skipped then r.(logged := true) else r, h, checked, told)
    ensures var next := NextFor(h, Tried(skipped, checked), nowMs, told);
            && after == Followed(r, next) && HasRoomFor(after, h, checked, told)
            && (next.Some? ==> OpenBounds.Possible(r, next.value, marginSec))
  {
    var e := EntryFor(h, checked);
    if e.Some? {
      assert IsFit(e.value, kept, nowMs, marginSec);
      CheckingLeavesRoom(r, e.value, told);
    }
  }

  /** The board names each task once. */
  predicate NamedOnce(board: seq<Entry>) {
    forall i, j :: 0 <= i < j < |board| && board[i].taskId.Some? ==> board[i].taskId != board[j].taskId
  }

  /** Nothing kept is against trying the task, and there is time left. */
  predicate IsFit(e: Entry, kept: Memory, nowMs: int, marginSec: int) {
    var h := TaskOf(e);
    && h !in kept.done && h !in kept.unsent && (h in kept.retryAt ==> kept.retryAt[h] <= nowMs)
    && DeadlineOf(e) - nowMs / 1000 >= marginSec
  }

  lemma {:induction false} EligibleTasksDiffer(board: seq<Entry>, kept: Memory, nowMs: int, marginSec: int)
    requires NamedOnce(board)
    ensures TasksDiffer(EligibleOf(board, kept, nowMs, marginSec))
  {
    if board == [] {
    } else {
      var last := |board| - 1;
      EligibleTasksDiffer(board[..last], kept, nowMs, marginSec);
      var front := EligibleOf(board[..last], kept, nowMs, marginSec);
      forall i | 0 <= i < |front| && Eligible(board[last], kept, nowMs, marginSec)
        ensures TaskOf(front[i]) != TaskOf(board[last])
      {
        assert front[i] in front && front[i] in board[..last];
      }
    }
  }

  lemma CandidatesAreApart(board: seq<Entry>, kept: Memory, nowMs: int, marginSec: int)
    requires NamedOnce(board)
    ensures var candidates := Sorted(EligibleOf(board, kept, nowMs, marginSec));
            && TasksDiffer(candidates)
            && forall e :: e in candidates ==> e in board && Eligible(e, kept, nowMs, marginSec) && IsFit(e, kept, nowMs, marginSec)
  {
    var eligible := EligibleOf(board, kept, nowMs, marginSec);
    var candidates := Sorted(eligible);
    PickIsBestFirst(board, kept, nowMs, marginSec);
    EligibleTasksDiffer(board, kept, nowMs, marginSec);
    Sorting.PermutationKeepsNoRepeats(eligible, candidates);
    forall i, j | 0 <= i < j < |candidates|
      ensures TaskOf(candidates[i]) != TaskOf(candidates[j])
    {
      assert candidates[i] in candidates && candidates[j] in candidates;
      assert candidates[i] in eligible && candidates[j] in eligible;
      assert candidates[i] != candidates[j];
    }
  }

  lemma {:induction false} SkippedAreOnTheBoard(board: seq<Entry>, kept: Memory, nowMs: int, marginSec: int)
    ensures forall s :: s in SkippedOf(board, kept, nowMs, marginSec) ==>
              exists i :: 0 <= i < |board| && board[i].taskId == Some(s.0) && OpenSkipReason(board[i], nowMs / 1000, marginSec).Some?
  {
    if board == [] {
    } else {
      var last := |board| - 1;
      SkippedAreOnTheBoard(board[..last], kept, nowMs, marginSec);
      forall s | s in SkippedOf(board, kept, nowMs, marginSec)
        ensures exists i :: 0 <= i < |board| && board[i].taskId == Some(s.0) && OpenSkipReason(board[i], nowMs / 1000, marginSec).Some?
      {
        if s in SkippedOf(board[..last], kept, nowMs, marginSec) {
          var i :| 0 <= i < last && board[..last][i].taskId == Some(s.0) && OpenSkipReason(board[..last][i], nowMs / 1000, marginSec).Some?;
          assert board[i] == board[..last][i];
        }
      }
    }
  }

  /** No task is both skipped and a candidate. */
  lemma SkipsAreApart(board: seq<Entry>, kept: Memory, nowMs: int, marginSec: int)
    requires NamedOnce(board)
    ensures forall e :: e in Sorted(EligibleOf(board, kept, nowMs, marginSec)) ==>
              TaskOf(e) !in set s | s in SkippedOf(board, kept, nowMs, marginSec) :: s.0
  {
    SkippedAreOnTheBoard(board, kept, nowMs, marginSec);
    CandidatesAreApart(board, kept, nowMs, marginSec);
    forall s, e | s in SkippedOf(board, kept, nowMs, marginSec) && e in Sorted(EligibleOf(board, kept, nowMs, marginSec))
      ensures s.0 != TaskOf(e)
    {
      var i :| 0 <= i < |board| && board[i].taskId == Some(s.0) && OpenSkipReason(board[i], nowMs / 1000, marginSec).Some?;
      var k :| 0 <= k < |board| && board[k] == e;
    }
  }

  function TaskOf(e: Entry): Hash { if e.taskId.Some? then e.taskId.value else "" }

  predicate TasksDiffer(s: seq<Entry>) { forall i, j :: 0 <= i < j < |s| ==> TaskOf(s[i]) != TaskOf(s[j]) }

  predicate IsAmong(h: Hash, s: seq<Entry>) { exists i :: 0 <= i < |s| && TaskOf(s[i]) == h }

  lemma NotYetChecked(s: seq<Entry>, i: nat)
    requires i < |s| && TasksDiffer(s)
    ensures EntryFor(TaskOf(s[i]), s[..i]).None?
  {
    assert forall e :: e in s[..i] ==> TaskOf(e) != TaskOf(s[i]);
  }

  lemma OneMoreChecked(s: seq<Entry>, e: Entry)
    ensures forall h :: EntryFor(h, s + [e]) == if h == TaskOf(e) then Some(e) else EntryFor(h, s)
  {
    assert (s + [e])[..|s|] == s;
  }

  /** A candidate checked, and perhaps run. */
  function Attempted(r: Record, e: Entry, told: Told): Record {
    CheckTask(r, DeadlineOf(e), told.endMs(TaskOf(e)), told.check(TaskOf(e)))
  }

  /** A task's record after these checks. */
  function AttemptedIn(r: Record, h: Hash, checked: seq<Entry>, told: Told): Record {
    match EntryFor(h, checked)
    case None => r
    case Some(e) => Attempted(r, e, told)
  }

  /** The start of the model run these checks came to, if any. */
  function StartsIn(checked: seq<Entry>, told: Told): seq<int> {
    if checked == [] then []
    else
      var h := TaskOf(checked[|checked| - 1]);
      var c := told.check(h);
      if c.Go? && StartsModel(c.run) then [told.startMs(h)] else []
  }

  /** The starts recorded are those of the checks that called their model: of a run that made a result, or failed once it had begun. */
  lemma StartsExactly(o: Outcome, board: seq<Entry>, kept: Memory, nowMs: int, marginSec: nat, told: Told)
    requires o.Tried? && IsTried(o, board, kept, nowMs, marginSec, told)
    ensures |StartsIn(o.checked, told)| <= 1
    ensures forall e :: e in o.checked && told.check(TaskOf(e)).Go? && !told.check(TaskOf(e)).run.BriefFailed? && told.check(TaskOf(e)).run != Threw(false) ==>
              StartsIn(o.checked, told) == [told.startMs(TaskOf(e))]
    ensures StartsIn(o.checked, told) != [] ==>
              exists e :: e in o.checked && told.check(TaskOf(e)).Go? && !told.check(TaskOf(e)).run.BriefFailed? && told.check(TaskOf(e)).run != Threw(false)
  {
    forall e | e in o.checked && told.check(TaskOf(e)).Go?
      ensures e == o.checked[|o.checked| - 1]
    {
      var i :| 0 <= i < |o.checked| && o.checked[i] == e;
    }
    if StartsIn(o.checked, told) != [] {
      assert o.checked[|o.checked| - 1] in o.checked;
    }
  }
}
