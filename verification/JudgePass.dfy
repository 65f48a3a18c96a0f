/**
 The judging pass over the maps it keeps: what one call does to the record of every task, listed once,
 more often or not at all, whatever it is told.
 */
module JudgePass {
  import opened Wrappers
  import opened EscrowTx
  import opened JudgeRecord
  import opened JudgeHistory
  import opened Sorting
  import Ranking

  const MAX_PICKS_PER_PASS: nat := 8

  type Hash = string

  function Restrict<V>(m: map<Hash, V>, keys: set<Hash>): (r: map<Hash, V>)
    ensures forall h :: h in r <==> h in m && h in keys
    ensures forall h :: h in r ==> r[h] == m[h]
  {
    map h | h in m && h in keys :: m[h]
  }

  /** How sending a pick goes, and how judging a task. */
  datatype Posting = Posting(io: Io, lookup: Lookup, answer: SelectAnswer)
  datatype Asking = Asking(io: Io, busy: bool, answer: JudgeAnswer)

  /** What the pass is told: by task; by place on the list; by place among the picks sent; and among the tasks judged. */
  datatype Told = Told(self: string, kept: Hash -> bool, view: nat -> View, posting: nat -> Posting, asking: nat -> Asking)

  /** A held pick whose turn may come. */
  datatype Held = Held(task: Hash, pick: Pick)

  function LastTried(h: Held): int { h.pick.lastTriedAt }

  class JudgeState {
    var done: set<Hash>
    var attempts: map<Hash, nat>
    var retryAt: map<Hash, int>
    var picked: map<Hash, Pick>
    var confirm: map<Hash, Confirm>
    var excluded: map<Hash, set<string>>
    var storageWaits: map<Hash, Waits>
    var yielded: map<Hash, nat>

    /** What is remembered of one task. */
    ghost function Of(h: Hash): Record
      reads this
    {
      Record(h in done, Get(attempts, h, 0), Get(retryAt, h, 0), Find(picked, h), Find(confirm, h),
             Get(excluded, h, {}), Get(storageWaits, h, Waits(0, map[])), Get(yielded, h, 0))
    }

    /** And of every task. */
    ghost function All(): Hash -> Record
      reads this
      ensures forall h :: All()(h) == Of(h)
    {
      RecordsIn(done, attempts, retryAt, picked, confirm, excluded, storageWaits, yielded)
    }

    constructor ()
      ensures forall h :: Of(h) == NOTHING
    {
      done, attempts, retryAt, picked := {}, map[], map[], map[];
      confirm, excluded, storageWaits, yielded := map[], map[], map[], map[];
    }

    method ConfirmAll(told: Told)
      modifies this
      ensures forall h :: Of(h) == ConfirmScorecard(old(Of(h)), told.kept(h))
    {
      var left := confirm.Keys;
      while left != {}
        invariant left <= confirm.Keys
        invariant forall h :: h in left ==> Of(h) == old(Of(h))
        invariant forall h :: h !in left ==> Of(h) == ConfirmScorecard(old(Of(h)), told.kept(h))
      {
        var h :| h in left;
        left := left - {h};
        ConfirmOne(h, told.kept(h));
      }
    }

    method ConfirmOne(h: Hash, kept: bool)
      requires h in confirm
      modifies `confirm
      ensures Of(h) == ConfirmScorecard(old(Of(h)), kept) && forall k :: k != h ==> Of(k) == old(Of(k))
      ensures old(confirm.Keys) - {h} <= confirm.Keys
    {
      var c := confirm[h];
      if kept || c.tries + 1 >= MAX_SCORECARD_CONFIRMS {
        confirm := confirm - {h};
      } else {
        confirm := confirm[h := c.(tries := c.tries + 1)];
      }
    }

    /** Picks whose task left the list: looked up a while, if a transaction was sent. */
    method ReleaseUnlisted(listed: set<Hash>) returns (ready: seq<Held>)
      modifies this
      ensures AllReleased(old(All()), All(), listed, ready)
    {
      ready := [];
      var left := picked.Keys - listed;
      NoneReleased(All(), listed, left);
      while left != {}
        invariant left <= picked.Keys && left !! listed
        invariant AllReleased(old(All()), All(), listed + left, ready)
      {
        ghost var spared := listed + left;
        var h :| h in left;
        left := left - {h};
        ready := ReleaseNext(h, ready, spared, old(All()));
        assert spared - {h} == listed + left;
      }
      assert listed + left == listed;
    }

    method ReleaseNext(h: Hash, ready: seq<Held>, ghost spared: set<Hash>, ghost was: Hash -> Record) returns (more: seq<Held>)
      requires h in picked && h in spared && AllReleased(was, All(), spared, ready)
      modifies `picked
      ensures AllReleased(was, All(), spared - {h}, more) && old(picked.Keys) - {h} <= picked.Keys
    {
      var kept := ReleaseOne(h);
      more := if kept then ready + [Held(h, picked[h])] else ready;
      forall k | k != h
        ensures All()(k) == old(All())(k)
      {
        assert Of(k) == old(Of(k));
      }
      OneMoreReleased(was, old(All()), All(), spared, h, ready, more);
    }

    method ReleaseOne(h: Hash) returns (kept: bool)
      requires h in picked
      modifies `picked
      ensures (Of(h), kept) == Unlisted(old(Of(h))) && forall k :: k != h ==> Of(k) == old(Of(k))
      ensures (kept <==> h in picked) && old(picked.Keys) - {h} <= picked.Keys
    {
      var lookups := picked[h].lookups + 1;
      kept := picked[h].txHash.Some? && lookups <= MAX_UNLISTED_LOOKUPS;
      picked := if kept then picked[h := picked[h].(lookups := lookups)] else picked - {h};
    }

    /** A full list says which tasks are gone: forget them. */
    method ForgetUnlisted(listed: set<Hash>)
      modifies this
      ensures forall h :: Of(h) == if h in listed then old(Of(h)) else Forget(old(Of(h)))
    {
      done := done * listed;
      attempts := Restrict(attempts, listed);
      retryAt := Restrict(retryAt, listed);
      excluded := Restrict(excluded, listed);
      storageWaits := Restrict(storageWaits, listed);
      yielded := Restrict(yielded, listed);
    }

    method LookAt(h: Hash, now: int, self: string, view: View) returns (decision: Decision)
      modifies this
      ensures (Of(h), decision) == Look(old(Of(h)), now, Seen(h, self, view))
      ensures forall k :: k != h ==> Of(k) == old(Of(k))
    {
      if h in done || Get(retryAt, h, 0) > now || (Get(attempts, h, 0) >= MAX_JUDGE_ATTEMPTS && h !in picked) {
        return Skip;
      }
      match view {
        case Unindexed => decision := Skip;
        case NoChain => done := done + {h}; decision := Skip;
        case Unread => retryAt := retryAt[h := now + JUDGE_RETRY_MS]; decision := Skip;
        case OnChain(taskHash, verifier, phase) =>
          if Ranking.LowerCase(taskHash) != Ranking.LowerCase(h) {
            done := done + {h};
            decision := Skip;
          } else if Ranking.LowerCase(verifier) != self {
            done := done + {h};
            decision := Skip;
          } else {
            decision := LookAtPhase(h, phase);
          }
      }
    }

    method LookAtPhase(h: Hash, phase: nat) returns (decision: Decision)
      modifies `picked, `done
      ensures (Of(h), decision) == LookInPhase(old(Of(h)), phase)
      ensures forall k :: k != h ==> Of(k) == old(Of(k))
    {
      if phase < PHASE_VERIFIER_PICK {
        return Skip;
      }
      if phase > PHASE_VERIFIER_PICK {
        if h in picked && picked[h].txHash.Some? {
          return Ready;
        }
        picked, done := picked - {h}, done + {h};
        return Skip;
      }
      decision := if h in picked then Ready else ToJudge;
    }

    method SendHeld(h: Hash, pick: Pick, io: Io, lookup: Lookup, a: SelectAnswer)
      requires h in picked && picked[h] == pick
      modifies this
      ensures Of(h) == SendPick(old(Of(h)), pick, io, lookup, a)
      ensures forall k :: k != h ==> Of(k) == old(Of(k))
    {
      if pick.txHash.Some? {
        if lookup.Mined? {
          FinishTask(h);
          confirm := confirm[h := Confirm(pick.card, 0)];
          return;
        }
        if HoldsBack(lookup) {
          return;
        }
      }
      match a {
        case NoGas =>
        case NoAnswer =>
        case Refused(status, code) =>
          if code in WINNER_REFUSALS {
            ExcludeWinner(h, pick);
          } else if code != "NOT_A_SUBMITTER" && OpenRefusalIsFinal(status, code) {
            FinishTask(h);
            ConfirmIfSent(h, pick);
          }
        case Built(tx, sending) => SignAndSend(h, pick, io, tx, sending);
      }
    }

    /** The transaction the server built, checked, signed and waited for. */
    method SignAndSend(h: Hash, pick: Pick, io: Io, tx: Option<EscrowTx.Tx>, sending: Sending)
      requires h in picked && picked[h] == pick
      modifies `picked, `done, `confirm
      ensures Of(h) == SendPick(old(Of(h)), pick, io, Unknown, Built(tx, sending)) && forall k :: k != h ==> Of(k) == old(Of(k))
    {
      if CheckUnsigned(tx, io.expected, WantedCall(io, pick)).Some? {
        FinishTask(h);
      } else if sending.Landed? {
        FinishTask(h);
        confirm := confirm[h := Confirm(pick.card, 0)];
      } else if FinalRevert(sending) {
        FinishTask(h);
        ConfirmIfSent(h, pick);
      } else if sending.hash.Some? {
        picked := picked[h := pick.(txHash := sending.hash)];
      }
    }

    /** A refusal of this winner: judged again without it, which spends an attempt. */
    method ExcludeWinner(h: Hash, pick: Pick)
      modifies `excluded, `picked, `attempts
      ensures Of(h) == old(Of(h)).(excluded := old(Of(h)).excluded + {Ranking.LowerCase(pick.winner)}, picked := None, attempts := old(Of(h)).attempts + 1)
      ensures forall k :: k != h ==> Of(k) == old(Of(k))
    {
      excluded := excluded[h := Get(excluded, h, {}) + {Ranking.LowerCase(pick.winner)}];
      picked := picked - {h};
      attempts := attempts[h := Get(attempts, h, 0) + 1];
    }

    method FinishTask(h: Hash)
      modifies `picked, `done
      ensures Of(h) == Finish(old(Of(h))) && forall k :: k != h ==> Of(k) == old(Of(k))
    {
      picked, done := picked - {h}, done + {h};
    }

    method ConfirmIfSent(h: Hash, pick: Pick)
      modifies `confirm
      ensures confirm == if pick.txHash.Some? then old(confirm)[h := Confirm(pick.card, 0)] else old(confirm)
    {
      if pick.txHash.Some? {
        confirm := confirm[h := Confirm(pick.card, 0)];
      }
    }

    /** One task of toJudge; `ends` says that the pass ends with it. */
    method JudgeOne(h: Hash, now: int, io: Io, busy: bool, a: JudgeAnswer) returns (ends: bool)
      modifies this
      ensures Of(h) == JudgeTask(old(Of(h)), now, io, busy, a)
      ensures forall k :: k != h ==> Of(k) == old(Of(k))
      ensures ends <==> EndsPass(old(Of(h)), busy, a)
    {
      if Get(attempts, h, 0) >= MAX_JUDGE_ATTEMPTS {
        return false;
      }
      if busy && Get(yielded, h, 0) < MAX_JUDGE_YIELDS {
        yielded := yielded[h := Get(yielded, h, 0) + 1];
        return true;
      }
      Conclude(h, now, io, a);
      ends := StartsRanking(a);
    }

    /** The task's judging, past the check for waiting paid work. */
    method Conclude(h: Hash, now: int, io: Io, a: JudgeAnswer)
      requires Of(h).attempts < MAX_JUDGE_ATTEMPTS
      modifies this
      ensures Of(h) == JudgeTask(old(Of(h)), now, io, false, a)
      ensures forall k :: k != h ==> Of(k) == old(Of(k))
    {
      match a {
        case CannotPay => LookLater(h, now);
        case Crashed(final) => if final { done := done + {h}; }
        case NobodySubmitted => done := done + {h};
        case ListUnusable => LookLater(h, now);
        case StorageFailed(failedRoots) => WaitOnStorage(h, now, failedRoots);
        case NothingReadable(storageUnreadable) =>
          if !(storageUnreadable && Get(storageWaits, h, Waits(0, map[])).passes < MAX_TASK_STORAGE_WAITS) {
            SpendAttempt(h);
          }
          LookLater(h, now);
        case BriefUnread => LookLater(h, now);
        case RankYielded => yielded := yielded[h := Get(yielded, h, 0) + 1];
        case RankFailed =>
          yielded := yielded - {h};
          SpendAttempt(h);
        case NobodyAcceptable => yielded, done := yielded - {h}, done + {h};
        case Winner(winner, card, answer) => RecordPick(h, Pick(winner, card, None, 0, now), io, answer);
      }
    }

    method RecordPick(h: Hash, pick: Pick, io: Io, answer: SelectAnswer)
      modifies this
      ensures Of(h) == SendPick(old(Of(h)).(yielded := 0, picked := Some(pick)), pick, io, Unknown, answer)
      ensures forall k :: k != h ==> Of(k) == old(Of(k))
    {
      yielded := yielded - {h};
      picked := picked[h := pick];
      SendHeld(h, pick, io, Unknown, answer);
    }

    method WaitOnStorage(h: Hash, now: int, failedRoots: seq<string>)
      modifies `storageWaits, `retryAt
      ensures var w := old(Of(h)).waits;
              Of(h) == old(Of(h)).(waits := Waits(w.passes + 1, CountRoots(w.roots, failedRoots)), retryAt := now + JUDGE_RETRY_MS)
      ensures forall k :: k != h ==> Of(k) == old(Of(k))
    {
      var waits := Get(storageWaits, h, Waits(0, map[]));
      storageWaits := storageWaits[h := Waits(waits.passes + 1, CountRoots(waits.roots, failedRoots))];
      LookLater(h, now);
    }

    method SpendAttempt(h: Hash)
      modifies `attempts
      ensures attempts == old(attempts)[h := Get(old(attempts), h, 0) + 1]
    {
      attempts := attempts[h := Get(attempts, h, 0) + 1];
    }

    method LookLater(h: Hash, now: int)
      modifies `retryAt
      ensures retryAt == old(retryAt)[h := now + JUDGE_RETRY_MS]
    {
      retryAt := retryAt[h := now + JUDGE_RETRY_MS];
    }

    // ---- The pass -------------------------------------------------------------------------------

    /** Scorecards confirmed, and the tasks off the list let go: how every pass opens. */
    method Tidy(list: seq<Hash>, complete: bool, told: Told) returns (unlisted: seq<Held>)
      modifies this
      ensures AllHeld(All(), Opening(old(All()), list, complete, told), list, unlisted, []) && AreOff(unlisted, list)
    {
      var listed := Listed(list);
      ConfirmAll(told);
      ghost var confirmed := All();
      unlisted := ReleaseUnlisted(listed);
      ghost var released := All();
      ReleasedAreOff(confirmed, released, list, unlisted);
      if complete {
        ForgetUnlisted(listed);
      }
      TidyIsOpening(old(All()), confirmed, released, All(), list, complete, told, unlisted);
    }

    /** 1. Every place on the list, the escrow's view, no model call: the picks as found, and the tasks to judge. */
    method LookAll(list: seq<Hash>, unlisted: seq<Held>, now: int, told: Told, ghost at: Hash -> Task)
      returns (ready: seq<Held>, toJudge: seq<Hash>)
      requires AllHeld(All(), at, list, unlisted, [])
      modifies this
      ensures AllHeld(All(), Looked(at, list, now, told), list, ready, toJudge)
      ensures AllLook(at, list, now, told)
      ensures AreInOrder(unlisted, ready, toJudge, list)
    {
      ready, toJudge := unlisted, [];
      NoLooks(at, now, told);
      for i := 0 to |list|
        invariant AreInOrder(unlisted, ready, toJudge, list[..i])
        invariant AllHeld(All(), Looked(at, list[..i], now, told), list, ready, toJudge)
        invariant AllLook(at, list[..i], now, told)
      {
        ready, toJudge := LookInTurn(list, i, unlisted, ready, toJudge, now, told, at);
      }
      assert list[..|list|] == list;
    }

    method LookInTurn(list: seq<Hash>, i: nat, ghost unlisted: seq<Held>, ready: seq<Held>, toJudge: seq<Hash>, now: int, told: Told,
                      ghost at: Hash -> Task) returns (more: seq<Held>, moreToJudge: seq<Hash>)
      requires i < |list| && AllHeld(All(), Looked(at, list[..i], now, told), list, ready, toJudge)
      requires AllLook(at, list[..i], now, told) && AreInOrder(unlisted, ready, toJudge, list[..i])
      modifies this
      ensures AllHeld(All(), Looked(at, list[..i + 1], now, told), list, more, moreToJudge)
      ensures AllLook(at, list[..i + 1], now, told) && AreInOrder(unlisted, more, moreToJudge, list[..i + 1])
    {
      more, moreToJudge := LookNext(list, i, ready, toJudge, now, told, at);
      OneMoreInOrder(unlisted, ready, toJudge, list, i, more, moreToJudge);
    }

    method LookNext(list: seq<Hash>, i: nat, ready: seq<Held>, toJudge: seq<Hash>, now: int, told: Told, ghost at: Hash -> Task)
      returns (more: seq<Held>, moreToJudge: seq<Hash>)
      requires i < |list| && AllHeld(All(), Looked(at, list[..i], now, told), list, ready, toJudge)
      requires AllLook(at, list[..i], now, told)
      modifies this
      ensures AllHeld(All(), Looked(at, list[..i + 1], now, told), list, more, moreToJudge)
      ensures AllLook(at, list[..i + 1], now, told)
      ensures AddsAtMost(list[i], ready, toJudge, more, moreToJudge)
    {
      more, moreToJudge := LookAdding(list[i], told.self, told.view(i), ready, toJudge, now);
      forall k | k != list[i]
        ensures All()(k) == old(All())(k)
      {
        assert Of(k) == old(Of(k));
      }
      assert Of(list[i]) == All()(list[i]) && old(Of(list[i])) == old(All())(list[i]);
      OneMoreLook(old(All()), All(), at, list, i, now, told, ready, toJudge, more, moreToJudge);
    }

    method LookAdding(h: Hash, self: string, view: View, ready: seq<Held>, toJudge: seq<Hash>, now: int)
      returns (more: seq<Held>, moreToJudge: seq<Hash>)
      modifies this
      ensures var (r, d) := Look(old(Of(h)), now, Seen(h, self, view)); Of(h) == r && Adds(h, r, d, ready, toJudge, more, moreToJudge)
      ensures forall k :: k != h ==> Of(k) == old(Of(k))
      ensures AddsAtMost(h, ready, toJudge, more, moreToJudge)
    {
      more, moreToJudge := ready, toJudge;
      var decision := LookAt(h, now, self, view);
      LookingIsFree(old(Of(h)), now, Seen(h, self, view));
      match decision {
        case Skip =>
        case Ready => more := ready + [Held(h, picked[h])];
        case ToJudge => moreToJudge := toJudge + [h];
      }
    }

    method SendOne(e: Held, now: int, posting: Posting)
      modifies this
      ensures Of(e.task) == SendFound(old(Of(e.task)), e.pick, now, posting.io, posting.lookup, posting.answer)
      ensures forall k :: k != e.task ==> Of(k) == old(Of(k))
    {
      var pick := e.pick.(lastTriedAt := now);
      picked := picked[e.task := pick];
      SendHeld(e.task, pick, posting.io, posting.lookup, posting.answer);
    }

    method SendNext(sent: seq<Held>, i: nat, now: int, told: Told, ghost at: Hash -> Task)
      requires i < |sent| && AllCanSend(All(), Sent(at, sent[..i], now, told), sent[i..]) && AllSend(at, sent[..i], now, told)
      modifies this
      ensures AllCanSend(All(), Sent(at, sent[..i + 1], now, told), sent[i + 1..]) && AllSend(at, sent[..i + 1], now, told)
    {
      SendOne(sent[i], now, told.posting(i));
      forall k | k != sent[i].task
        ensures All()(k) == old(All())(k)
      {
        assert Of(k) == old(Of(k));
      }
      assert Of(sent[i].task) == All()(sent[i].task) && old(Of(sent[i].task)) == old(All())(sent[i].task);
      OneMoreSent(old(All()), All(), at, sent, i, now, told);
    }

    /** The picks given, in turn, each as it was found. */
    method SendAll(sent: seq<Held>, now: int, told: Told, ghost at: Hash -> Task)
      requires AllCanSend(All(), at, sent)
      modifies this
      ensures AllCanSend(All(), Sent(at, sent, now, told), [])
      ensures AllSend(at, sent, now, told)
    {
      NoSends(at, now, told);
      for i := 0 to |sent|
        invariant AllCanSend(All(), Sent(at, sent[..i], now, told), sent[i..])
        invariant AllSend(at, sent[..i], now, told)
      {
        SendNext(sent, i, now, told, at);
      }
      assert sent[..|sent|] == sent;
    }

    /** 2. The held picks, the longest waiting first, a number of them. */
    method SendReady(ready: seq<Held>, now: int, told: Told, ghost at: Hash -> Task) returns (sent: seq<Held>)
      requires AllCanSend(All(), at, ready)
      modifies this
      ensures sent == Upto(SortBy(ready, LastTried), MAX_PICKS_PER_PASS) && InOrder(sent, LastTried) && AreLongestWaiting(sent, ready)
      ensures AllCanSend(All(), Sent(at, sent, now, told), [])
      ensures AllSend(at, sent, now, told) && AreFirstEight(sent, ready)
    {
      sent := Upto(SortBy(ready, LastTried), MAX_PICKS_PER_PASS);
      FirstAreLongestWaiting(ready, sent);
      FirstAreEight(ready, sent);
      forall h
        ensures CanSend(at(h), h, sent)
      {
        SentAreReady(at(h), h, ready, sent);
      }
      SendAll(sent, now, told, at);
    }

    method JudgeNext(toJudge: seq<Hash>, i: nat, now: int, told: Told, ghost at: Hash -> Task) returns (ends: bool)
      requires i < |toJudge| && AllCanBeJudged(All(), Judged(at, toJudge[..i], now, told), toJudge[i..])
      requires AllJudge(at, toJudge[..i], now, told)
      modifies this
      ensures AllAre(All(), Judged(at, toJudge[..i + 1], now, told))
      ensures !ends ==> AllCanBeJudged(All(), Judged(at, toJudge[..i + 1], now, told), toJudge[i + 1..])
      ensures AllJudge(at, toJudge[..i + 1], now, told)
      ensures ends <==> EndsThere(Judged(at, toJudge[..i], now, told), toJudge, i, told)
    {
      var a := told.asking(i);
      ends := JudgeOne(toJudge[i], now, a.io, a.busy, a.answer);
      forall k | k != toJudge[i]
        ensures All()(k) == old(All())(k)
      {
        assert Of(k) == old(Of(k));
      }
      assert Of(toJudge[i]) == All()(toJudge[i]) && old(Of(toJudge[i])) == old(All())(toJudge[i]);
      OneMoreJudged(old(All()), All(), at, toJudge, i, now, told, ends);
    }

    /** 3. The tasks to judge, until one yields, or the model was asked about it. */
    method JudgeFirst(toJudge: seq<Hash>, now: int, modelAnswers: bool, told: Told, ghost at: Hash -> Task) returns (tried: seq<Hash>)
      requires AllCanBeJudged(All(), at, toJudge)
      modifies this
      ensures tried <= toJudge && (!modelAnswers ==> tried == [])
      ensures AllAre(All(), Judged(at, tried, now, told)) && AllJudge(at, tried, now, told)
      ensures EndsLast(at, tried, toJudge, modelAnswers, now, told)
    {
      tried := [];
      NoJudges(at, now, told);
      if modelAnswers {
        tried := JudgeUntilOneEnds(toJudge, now, told, at);
      }
    }

    method JudgeUntilOneEnds(toJudge: seq<Hash>, now: int, told: Told, ghost at: Hash -> Task) returns (tried: seq<Hash>)
      requires AllCanBeJudged(All(), at, toJudge)
      modifies this
      ensures tried <= toJudge
      ensures AllAre(All(), Judged(at, tried, now, told)) && AllJudge(at, tried, now, told)
      ensures EndsLast(at, tried, toJudge, true, now, told)
    {
      NoJudges(at, now, told);
      var ends, n := false, 0;
      while n < |toJudge| && !ends
        invariant n <= |toJudge| && AllJudge(at, toJudge[..n], now, told)
        invariant AllAre(All(), Judged(at, toJudge[..n], now, told))
        invariant !ends ==> AllCanBeJudged(All(), Judged(at, toJudge[..n], now, told), toJudge[n..])
        invariant !ends ==> NoneEnds(at, toJudge, n, now, told)
        invariant ends ==> n > 0 && NoneEnds(at, toJudge, n - 1, now, told)
        invariant ends ==> EndsThere(Judged(at, toJudge[..n - 1], now, told), toJudge, n - 1, told)
        decreases |toJudge| - n
      {
        ends := JudgeNext(toJudge, n, now, told, at);
        OneMoreNotEnding(at, toJudge, n, now, told);
        n := n + 1;
      }
      if !ends {
        FewerDoNotEnd(at, toJudge, n, now, told);
      }
      tried := toJudge[..n];
      LastEnds(at, tried, toJudge, now, told);
    }

    /**
     openJudgePassCore: what one pass makes of every task is what its events make of it, all of them
     possible: a look for each time the list names it, its pick sent as it was found, and it judged. `ready`
     are the picks found: at most 8 of them are sent, none left over was tried longer ago than one sent.
     `toJudge` are the tasks to judge, taken in order until one has its ranking started.
     */
    method Pass(list: seq<Hash>, complete: bool, now: int, modelAnswers: bool, told: Told)
      returns (sent: seq<Held>, tried: seq<Hash>, ghost ready: seq<Held>, ghost toJudge: seq<Hash>)
      modifies this
      ensures forall h :: Of(h) == Follow(Task(old(Of(h)), IDLE), EventsOf(h, list, complete, now, told, sent, tried)).record
      ensures forall h :: AllPossible(Task(old(Of(h)), IDLE), EventsOf(h, list, complete, now, told, sent, tried))
      ensures forall h :: IsFound(Found(old(Of(h)), h, list, complete, now, told), h, ready, toJudge)
      ensures sent == Upto(SortBy(ready, LastTried), MAX_PICKS_PER_PASS) && InOrder(sent, LastTried) && AreLongestWaiting(sent, ready)
      ensures AreFirstEight(sent, ready) && AreFoundInOrder(ready, toJudge, list)
      ensures tried <= toJudge && (!modelAnswers ==> tried == [])
      ensures forall i :: 0 <= i < |tried| - 1 ==> !EndsAt(old(Of(tried[i])), list, complete, now, told, sent, tried, i)
      ensures !modelAnswers || tried == toJudge ||
                (tried != [] && EndsAt(old(Of(tried[|tried| - 1])), list, complete, now, told, sent, tried, |tried| - 1))
    {
      ghost var was := All();
      var unlisted := Tidy(list, complete, told);
      ghost var opening := Opening(was, list, complete, told);
      var picks, tasks := LookAll(list, unlisted, now, told, opening);
      ready, toJudge := picks, tasks;
      ghost var looked := Looked(opening, list, now, told);
      HeldCanBeSent(All(), looked, list, picks, tasks);
      assert AreFoundInOrder(ready, toJudge, list);
      sent := SendReady(picks, now, told, looked);
      ghost var posted := Sent(looked, sent, now, told);
      SentCanBeJudged(All(), looked, sent, tasks, now, told);
      tried := JudgeFirst(tasks, now, modelAnswers, told, posted);
      PassesAreTheirEvents(was, All(), list, complete, now, modelAnswers, told, sent, tried, ready, toJudge);
    }
  }

  ghost function RecordsIn(done: set<Hash>, attempts: map<Hash, nat>, retryAt: map<Hash, int>, picked: map<Hash, Pick>,
                           confirm: map<Hash, Confirm>, excluded: map<Hash, set<string>>, storageWaits: map<Hash, Waits>,
                           yielded: map<Hash, nat>): Hash -> Record
  {
    (h: Hash) =>
      Record(h in done, Get(attempts, h, 0), Get(retryAt, h, 0), Find(picked, h), Find(confirm, h),
             Get(excluded, h, {}), Get(storageWaits, h, Waits(0, map[])), Get(yielded, h, 0))
  }

  function Upto(s: seq<Held>, n: nat): seq<Held> { if |s| <= n then s else s[..n] }

  function Listed(list: seq<Hash>): set<Hash> { set h | h in list }

  /** How often a task is among these. */
  function Times(h: Hash, s: seq<Hash>): nat { multiset(s)[h] }

  function Tasks(s: seq<Held>): seq<Hash> { seq(|s|, i requires 0 <= i < |s| => s[i].task) }

  // ---- The pass in the history of a task ------------------------------------------------------

  function OpeningOf(h: Hash, list: seq<Hash>, complete: bool, told: Told): seq<Event> {
    [Begins(told.kept(h))] + (if h in list then [] else [Leaves(complete)])
  }

  function LooksOf(h: Hash, list: seq<Hash>, now: int, told: Told): seq<Event> {
    if list == [] then []
    else
      var last := |list| - 1;
      LooksOf(h, list[..last], now, told) + (if list[last] == h then [Looks(now, Seen(h, told.self, told.view(last)))] else [])
  }

  function SendsOf(h: Hash, sent: seq<Held>, now: int, told: Told): seq<Event> {
    if sent == [] then []
    else
      var last := |sent| - 1;
      var p := told.posting(last);
      SendsOf(h, sent[..last], now, told) + (if sent[last].task == h then [Sends(now, p.io, p.lookup, p.answer)] else [])
  }

  function JudgesOf(h: Hash, tried: seq<Hash>, now: int, told: Told): seq<Event> {
    if tried == [] then []
    else
      var last := |tried| - 1;
      var a := told.asking(last);
      JudgesOf(h, tried[..last], now, told) + (if tried[last] == h then [Judges(now, a.io, a.busy, a.answer)] else [])
  }

  /** What the pass is in the history of a task. */
  function EventsOf(h: Hash, list: seq<Hash>, complete: bool, now: int, told: Told, sent: seq<Held>, tried: seq<Hash>): seq<Event> {
    OpeningOf(h, list, complete, told) + LooksOf(h, list, now, told) + SendsOf(h, sent, now, told) + JudgesOf(h, tried, now, told)
  }

  /** Each place of the list is a look at its task, told what is said at that place. */
  lemma {:induction false} EveryPlaceIsALook(h: Hash, list: seq<Hash>, now: int, told: Told)
    ensures |LooksOf(h, list, now, told)| == Times(h, list)
    ensures forall i :: 0 <= i < |list| && list[i] == h ==> Looks(now, Seen(h, told.self, told.view(i))) in LooksOf(h, list, now, told)
  {
    if list == [] {
    } else {
      var last := |list| - 1;
      EveryPlaceIsALook(h, list[..last], now, told);
      assert list == list[..last] + [list[last]];
    }
  }

  /** Each pick sent is a send of its task, told what is said of it. */
  lemma {:induction false} EveryPickIsASend(h: Hash, sent: seq<Held>, now: int, told: Told)
    ensures |SendsOf(h, sent, now, told)| == Times(h, Tasks(sent))
    ensures forall i :: 0 <= i < |sent| && sent[i].task == h ==>
              Sends(now, told.posting(i).io, told.posting(i).lookup, told.posting(i).answer) in SendsOf(h, sent, now, told)
  {
    if sent == [] {
    } else {
      var last := |sent| - 1;
      EveryPickIsASend(h, sent[..last], now, told);
      assert Tasks(sent) == Tasks(sent[..last]) + [sent[last].task];
    }
  }

  /** Each task judged is so in its own history, told what is said of it. */
  lemma {:induction false} EveryTaskTriedIsJudged(h: Hash, tried: seq<Hash>, now: int, told: Told)
    ensures |JudgesOf(h, tried, now, told)| == Times(h, tried)
    ensures forall i :: 0 <= i < |tried| && tried[i] == h ==>
              Judges(now, told.asking(i).io, told.asking(i).busy, told.asking(i).answer) in JudgesOf(h, tried, now, told)
  {
    if tried == [] {
    } else {
      var last := |tried| - 1;
      EveryTaskTriedIsJudged(h, tried[..last], now, told);
      assert tried == tried[..last] + [tried[last]];
    }
  }

  /** A task as the pass opens, and once its looks were taken. */
  function Opened(r: Record, h: Hash, list: seq<Hash>, complete: bool, told: Told): Task {
    Follow(Task(r, IDLE), OpeningOf(h, list, complete, told))
  }

  function Found(r: Record, h: Hash, list: seq<Hash>, complete: bool, now: int, told: Told): Task {
    Follow(Opened(r, h, list, complete, told), LooksOf(h, list, now, told))
  }

  ghost function Opening(was: Hash -> Record, list: seq<Hash>, complete: bool, told: Told): Hash -> Task {
    (h: Hash) => Opened(was(h), h, list, complete, told)
  }

  ghost function Looked(at: Hash -> Task, list: seq<Hash>, now: int, told: Told): Hash -> Task {
    (h: Hash) => Follow(at(h), LooksOf(h, list, now, told))
  }

  ghost function Sent(at: Hash -> Task, sent: seq<Held>, now: int, told: Told): Hash -> Task {
    (h: Hash) => Follow(at(h), SendsOf(h, sent, now, told))
  }

  ghost function Judged(at: Hash -> Task, tried: seq<Hash>, now: int, told: Told): Hash -> Task {
    (h: Hash) => Follow(at(h), JudgesOf(h, tried, now, told))
  }

  /** Judging the i-th of these ends the pass. */
  ghost predicate EndsThere(at: Hash -> Task, tried: seq<Hash>, i: nat, told: Told)
    requires i < |tried|
  {
    EndsPass(at(tried[i]).record, told.asking(i).busy, told.asking(i).answer)
  }

  ghost predicate EndsAt(r: Record, list: seq<Hash>, complete: bool, now: int, told: Told, sent: seq<Held>, tried: seq<Hash>, i: nat)
    requires i < |tried|
  {
    EndsPass(Follow(Task(r, IDLE), EventsOf(tried[i], list, complete, now, told, sent, tried[..i])).record,
             told.asking(i).busy, told.asking(i).answer)
  }

  /** The picks of this task that are ready are as its turn has them, and so are its places among the tasks to judge. */
  predicate IsFound(t: Task, h: Hash, ready: seq<Held>, toJudge: seq<Hash>) {
    && Times(h, Tasks(ready)) == t.turn.ready && Times(h, toJudge) == t.turn.toJudge
    && forall e :: e in ready && e.task == h ==> t.turn.held == Some(e.pick)
  }

  /** And its record follows its looks, in which the pick can only be given up. */
  predicate IsHeld(r: Record, t: Task, h: Hash, list: seq<Hash>, ready: seq<Held>, toJudge: seq<Hash>) {
    && r == t.record && IsFound(t, h, ready, toJudge)
    && t.turn.stage in {Begun, OnList, OffList} && (h in list ==> t.turn.stage in {Begun, OnList})
    && (t.turn.ready > 0 ==> t.turn.held.Some? && (r.picked == t.turn.held || r.picked.None?))
  }

  /** These picks of the task may be sent. */
  predicate CanSend(t: Task, h: Hash, s: seq<Held>) {
    && t.turn.stage != Judging && Times(h, Tasks(s)) <= t.turn.ready
    && forall e :: e in s && e.task == h ==> t.turn.held == Some(e.pick)
  }

  lemma NotAmong(h: Hash, s: seq<Held>)
    requires Times(h, Tasks(s)) == 0
    ensures forall e :: e in s ==> e.task != h
  {
    forall e | e in s
      ensures e.task != h
    {
      var i :| 0 <= i < |s| && s[i] == e;
      assert Tasks(s)[i] == e.task && Tasks(s)[i] in Tasks(s);
    }
  }

  lemma NoneUnlessTimes(h: Hash, s: seq<Held>)
    ensures Times(h, Tasks(s)) == 0 ==> forall e :: e in s ==> e.task != h
  {
    if Times(h, Tasks(s)) == 0 {
      NotAmong(h, s);
    }
  }

  lemma OneMoreTime(s: seq<Held>, e: Held)
    ensures forall h :: Times(h, Tasks(s + [e])) == Times(h, Tasks(s)) + if e.task == h then 1 else 0
  {
    assert Tasks(s + [e]) == Tasks(s) + [e.task];
  }

  lemma OpeningIsItsSteps(r: Record, h: Hash, list: seq<Hash>, complete: bool, told: Told)
    ensures var confirmed := ConfirmScorecard(r, told.kept(h));
            var (left, ready) := Unlist(confirmed, complete);
            Opened(r, h, list, complete, told) ==
              if h in list then Task(confirmed, BEGUN)
              else Task(left, if ready then Turn(OffList, left.picked, 0, 1, 0) else Turn(OffList, None, 0, 0, 0))
  {
    var t := Task(r, IDLE);
    var begins := Begins(told.kept(h));
    FollowOneMore(t, [], begins);
    assert [] + [begins] == [begins];
    FollowOneMore(t, [begins], Leaves(complete));
    assert [begins] + [] == [begins];
  }

  /** Every record is as its task has it. */
  ghost predicate AllHeld(records: Hash -> Record, at: Hash -> Task, list: seq<Hash>, ready: seq<Held>, toJudge: seq<Hash>) {
    forall h :: IsHeld(records(h), at(h), h, list, ready, toJudge)
  }

  ghost predicate AllCanSend(records: Hash -> Record, at: Hash -> Task, s: seq<Held>) {
    forall h :: records(h) == at(h).record && CanSend(at(h), h, s)
  }

  ghost predicate AllAre(records: Hash -> Record, at: Hash -> Task) { forall h :: records(h) == at(h).record }

  ghost predicate AllCanBeJudged(records: Hash -> Record, at: Hash -> Task, s: seq<Hash>) {
    forall h :: records(h) == at(h).record && Times(h, s) <= at(h).turn.toJudge
  }

  /** The picks of tasks off the list, but for those still spared. */
  ghost predicate IsReleased(was: Record, r: Record, h: Hash, isSpared: bool, ready: seq<Held>) {
    && (r, Times(h, Tasks(ready))) == (if isSpared then (was, 0) else (Unlisted(was).0, if Unlisted(was).1 then 1 else 0))
    && forall e :: e in ready && e.task == h ==> r.picked == Some(e.pick)
  }

  ghost predicate AllReleased(was: Hash -> Record, records: Hash -> Record, spared: set<Hash>, ready: seq<Held>) {
    forall h :: IsReleased(was(h), records(h), h, h in spared, ready)
  }

  lemma NoneReleased(records: Hash -> Record, listed: set<Hash>, left: set<Hash>)
    requires forall h :: records(h).picked.Some? && h !in listed ==> h in left
    ensures AllReleased(records, records, listed + left, [])
  {
    assert forall h :: Times(h, Tasks([])) == 0;
  }

  lemma OneMoreReleased(was: Hash -> Record, before: Hash -> Record, after: Hash -> Record, spared: set<Hash>, h: Hash,
                        ready: seq<Held>, more: seq<Held>)
    requires AllReleased(was, before, spared, ready) && h in spared
    requires after(h) == Unlisted(before(h)).0 && forall k :: k != h ==> after(k) == before(k)
    requires if Unlisted(before(h)).1 then after(h).picked.Some? && more == ready + [Held(h, after(h).picked.value)] else more == ready
    ensures AllReleased(was, after, spared - {h}, more)
  {
    assert IsReleased(was(h), before(h), h, true, ready);
    NotAmong(h, ready);
    if more != ready {
      OneMoreTime(ready, more[|ready|]);
    }
    forall k
      ensures IsReleased(was(k), after(k), k, k in spared - {h}, more)
    {
      assert IsReleased(was(k), before(k), k, k in spared, ready);
    }
  }

  lemma TidyIsOpening(was: Hash -> Record, confirmed: Hash -> Record, released: Hash -> Record, after: Hash -> Record,
                      list: seq<Hash>, complete: bool, told: Told, unlisted: seq<Held>)
    requires forall h :: confirmed(h) == ConfirmScorecard(was(h), told.kept(h))
    requires AllReleased(confirmed, released, Listed(list), unlisted)
    requires forall h :: after(h) == if complete && h !in list then Forget(released(h)) else released(h)
    ensures AllHeld(after, Opening(was, list, complete, told), list, unlisted, [])
  {
    forall h
      ensures IsHeld(after(h), Opened(was(h), h, list, complete, told), h, list, unlisted, [])
    {
      OpeningIsItsSteps(was(h), h, list, complete, told);
      assert IsReleased(confirmed(h), released(h), h, h in Listed(list), unlisted);
      NoneUnlessTimes(h, unlisted);
    }
  }

  ghost predicate AllLook(at: Hash -> Task, list: seq<Hash>, now: int, told: Told) {
    forall h :: AllPossible(at(h), LooksOf(h, list, now, told))
  }

  ghost predicate AllSend(at: Hash -> Task, sent: seq<Held>, now: int, told: Told) {
    forall h :: AllPossible(at(h), SendsOf(h, sent, now, told))
  }

  ghost predicate AllJudge(at: Hash -> Task, tried: seq<Hash>, now: int, told: Told) {
    forall h :: AllPossible(at(h), JudgesOf(h, tried, now, told))
  }

  lemma NoLooks(at: Hash -> Task, now: int, told: Told)
    ensures forall h :: Looked(at, [], now, told)(h) == at(h) && AllPossible(at(h), LooksOf(h, [], now, told))
  {
  }

  lemma NoSends(at: Hash -> Task, now: int, told: Told)
    ensures forall h :: Sent(at, [], now, told)(h) == at(h) && AllPossible(at(h), SendsOf(h, [], now, told))
  {
  }

  lemma NoJudges(at: Hash -> Task, now: int, told: Told)
    ensures forall h :: Judged(at, [], now, told)(h) == at(h) && AllPossible(at(h), JudgesOf(h, [], now, told))
  {
  }

  lemma LookEvents(h: Hash, list: seq<Hash>, i: nat, now: int, told: Told, t: Task)
    requires i < |list| && AllPossible(t, LooksOf(h, list[..i], now, told))
    requires list[i] == h ==> Possible(Follow(t, LooksOf(h, list[..i], now, told)), Looks(now, Seen(h, told.self, told.view(i))))
    ensures AllPossible(t, LooksOf(h, list[..i + 1], now, told))
    ensures Follow(t, LooksOf(h, list[..i + 1], now, told)) ==
            if list[i] == h then Next(Follow(t, LooksOf(h, list[..i], now, told)), Looks(now, Seen(h, told.self, told.view(i))))
            else Follow(t, LooksOf(h, list[..i], now, told))
  {
    assert list[..i + 1][..i] == list[..i];
    var before := LooksOf(h, list[..i], now, told);
    FollowOneMore(t, before, Looks(now, Seen(h, told.self, told.view(i))));
    assert before + [] == before;
  }

  /** What is ready and to be judged once a place of `h` was looked at. */
  /** The task goes last among the picks, or among the tasks to judge, or nowhere. */
  predicate AddsAtMost(h: Hash, ready: seq<Held>, toJudge: seq<Hash>, more: seq<Held>, moreToJudge: seq<Hash>) {
    && (more == ready || (|more| == |ready| + 1 && more[..|ready|] == ready && more[|ready|].task == h))
    && (moreToJudge == toJudge || moreToJudge == toJudge + [h])
  }

  /** Some of these, in their order. */
  predicate InListOrder(s: seq<Hash>, list: seq<Hash>)
    decreases |list|
  {
    if list == [] then s == []
    else
      || InListOrder(s, list[..|list| - 1])
      || (s != [] && s[|s| - 1] == list[|list| - 1] && InListOrder(s[..|s| - 1], list[..|list| - 1]))
  }

  /** The picks of tasks off the list come first, then the others and the tasks to judge, in the list's order. */
  ghost predicate AreInOrder(unlisted: seq<Held>, ready: seq<Held>, toJudge: seq<Hash>, list: seq<Hash>) {
    unlisted <= ready && InListOrder(Tasks(ready[|unlisted|..]), list) && InListOrder(toJudge, list)
  }

  ghost predicate AreOff(unlisted: seq<Held>, list: seq<Hash>) { forall i :: 0 <= i < |unlisted| ==> unlisted[i].task !in list }

  ghost predicate AreFoundInOrder(ready: seq<Held>, toJudge: seq<Hash>, list: seq<Hash>) {
    exists unlisted :: AreInOrder(unlisted, ready, toJudge, list) && AreOff(unlisted, list)
  }

  lemma ReleasedAreOff(was: Hash -> Record, records: Hash -> Record, list: seq<Hash>, unlisted: seq<Held>)
    requires AllReleased(was, records, Listed(list), unlisted)
    ensures AreOff(unlisted, list)
  {
    forall h | h in list
      ensures forall e :: e in unlisted ==> e.task != h
    {
      assert IsReleased(was(h), records(h), h, h in Listed(list), unlisted);
      NotAmong(h, unlisted);
    }
    assert forall i :: 0 <= i < |unlisted| ==> unlisted[i] in unlisted;
  }

  lemma OneMoreListed(s: seq<Hash>, list: seq<Hash>, h: Hash)
    requires InListOrder(s, list)
    ensures InListOrder(s, list + [h]) && InListOrder(s + [h], list + [h])
  {
    assert (list + [h])[..|list|] == list && (s + [h])[..|s|] == s;
  }

  lemma OneMoreInOrder(unlisted: seq<Held>, ready: seq<Held>, toJudge: seq<Hash>, list: seq<Hash>, i: nat, more: seq<Held>, moreToJudge: seq<Hash>)
    requires i < |list| && AreInOrder(unlisted, ready, toJudge, list[..i]) && AddsAtMost(list[i], ready, toJudge, more, moreToJudge)
    ensures AreInOrder(unlisted, more, moreToJudge, list[..i + 1])
  {
    var before, h := list[..i], list[i];
    OneMoreListed(toJudge, before, h);
    OneMoreListed(Tasks(ready[|unlisted|..]), before, h);
    assert list[..i + 1] == before + [h];
    if more != ready {
      assert Tasks(more[|unlisted|..]) == Tasks(ready[|unlisted|..]) + [h];
    }
  }

  predicate Adds(h: Hash, after: Record, d: Decision, ready: seq<Held>, toJudge: seq<Hash>, more: seq<Held>, moreToJudge: seq<Hash>) {
    match d
    case Skip => more == ready && moreToJudge == toJudge
    case Ready => after.picked.Some? && more == ready + [Held(h, after.picked.value)] && moreToJudge == toJudge
    case ToJudge => more == ready && moreToJudge == toJudge + [h]
  }

  lemma OneMoreLook(before: Hash -> Record, after: Hash -> Record, at: Hash -> Task, list: seq<Hash>, i: nat, now: int, told: Told,
                    ready: seq<Held>, toJudge: seq<Hash>, more: seq<Held>, moreToJudge: seq<Hash>)
    requires i < |list| && AllHeld(before, Looked(at, list[..i], now, told), list, ready, toJudge)
    requires AllLook(at, list[..i], now, told)
    requires forall k :: k != list[i] ==> after(k) == before(k)
    requires var h := list[i];
             var (r, d) := Look(before(h), now, Seen(h, told.self, told.view(i)));
             after(h) == r && Adds(h, r, d, ready, toJudge, more, moreToJudge)
    ensures AllHeld(after, Looked(at, list[..i + 1], now, told), list, more, moreToJudge)
    ensures AllLook(at, list[..i + 1], now, told)
  {
    var h := list[i];
    var looked := Looked(at, list[..i], now, told);
    forall k
      ensures IsHeld(after(k), Looked(at, list[..i + 1], now, told)(k), k, list, more, moreToJudge)
      ensures AllPossible(at(k), LooksOf(k, list[..i + 1], now, told))
    {
      assert IsHeld(before(k), looked(k), k, list, ready, toJudge);
      if k == h {
        LookHolds(before(h), looked(h), h, list, ready, toJudge, now, Seen(h, told.self, told.view(i)), more, moreToJudge);
      } else {
        OthersHold(before(k), looked(k), k, h, list, ready, toJudge, more, moreToJudge);
      }
      LookEvents(k, list, i, now, told, at(k));
    }
  }

  lemma LookHolds(r: Record, t: Task, h: Hash, list: seq<Hash>, ready: seq<Held>, toJudge: seq<Hash>, now: int, a: LookAnswer,
                  more: seq<Held>, moreToJudge: seq<Hash>)
    requires IsHeld(r, t, h, list, ready, toJudge) && h in list
    requires Adds(h, Look(r, now, a).0, Look(r, now, a).1, ready, toJudge, more, moreToJudge)
    ensures Possible(t, Looks(now, a)) && IsHeld(Look(r, now, a).0, Next(t, Looks(now, a)), h, list, more, moreToJudge)
  {
    LookingIsFree(r, now, a);
    NoneUnlessTimes(h, ready);
    if r.picked.Some? {
      OneMoreTime(ready, Held(h, r.picked.value));
    }
  }

  lemma OthersHold(r: Record, t: Task, k: Hash, h: Hash, list: seq<Hash>, ready: seq<Held>, toJudge: seq<Hash>,
                   more: seq<Held>, moreToJudge: seq<Hash>)
    requires IsHeld(r, t, k, list, ready, toJudge) && k != h
    requires more == ready || (more != [] && more[..|more| - 1] == ready && more[|more| - 1].task == h)
    requires moreToJudge == toJudge || moreToJudge == toJudge + [h]
    ensures IsHeld(r, t, k, list, more, moreToJudge)
  {
    if more != ready {
      assert more == ready + [more[|more| - 1]];
      OneMoreTime(ready, more[|more| - 1]);
    }
  }

  lemma HeldCanBeSent(records: Hash -> Record, at: Hash -> Task, list: seq<Hash>, ready: seq<Held>, toJudge: seq<Hash>)
    requires AllHeld(records, at, list, ready, toJudge)
    ensures AllCanSend(records, at, ready) && forall h :: IsFound(at(h), h, ready, toJudge)
  {
    forall h
      ensures records(h) == at(h).record && CanSend(at(h), h, ready) && IsFound(at(h), h, ready, toJudge)
    {
      assert IsHeld(records(h), at(h), h, list, ready, toJudge);
    }
  }

  lemma SendEvents(h: Hash, sent: seq<Held>, i: nat, now: int, told: Told, t: Task)
    requires i < |sent| && AllPossible(t, SendsOf(h, sent[..i], now, told))
    requires var p := told.posting(i);
             sent[i].task == h ==> Possible(Follow(t, SendsOf(h, sent[..i], now, told)), Sends(now, p.io, p.lookup, p.answer))
    ensures AllPossible(t, SendsOf(h, sent[..i + 1], now, told))
    ensures var p := told.posting(i);
            Follow(t, SendsOf(h, sent[..i + 1], now, told)) ==
              if sent[i].task == h then Next(Follow(t, SendsOf(h, sent[..i], now, told)), Sends(now, p.io, p.lookup, p.answer))
              else Follow(t, SendsOf(h, sent[..i], now, told))
  {
    var p := told.posting(i);
    assert sent[..i + 1][..i] == sent[..i];
    var before := SendsOf(h, sent[..i], now, told);
    FollowOneMore(t, before, Sends(now, p.io, p.lookup, p.answer));
    assert before + [] == before;
  }

  lemma RestCanBeSent(t: Task, h: Hash, first: Held, rest: seq<Held>, now: int, p: Posting)
    requires CanSend(t, h, [first] + rest)
    ensures first.task != h ==> CanSend(t, h, rest)
    ensures var e := Sends(now, p.io, p.lookup, p.answer);
            first.task == h ==>
              && Possible(t, e) && Next(t, e).record == SendFound(t.record, first.pick, now, p.io, p.lookup, p.answer)
              && CanSend(Next(t, e), h, rest)
  {
    assert Tasks([first] + rest) == [first.task] + Tasks(rest);
    assert first in [first] + rest;
    assert forall e :: e in rest ==> e in [first] + rest;
  }

  lemma OneMoreSent(before: Hash -> Record, after: Hash -> Record, at: Hash -> Task, sent: seq<Held>, i: nat, now: int, told: Told)
    requires i < |sent| && AllCanSend(before, Sent(at, sent[..i], now, told), sent[i..])
    requires AllSend(at, sent[..i], now, told)
    requires forall k :: k != sent[i].task ==> after(k) == before(k)
    requires var p := told.posting(i);
             after(sent[i].task) == SendFound(before(sent[i].task), sent[i].pick, now, p.io, p.lookup, p.answer)
    ensures AllCanSend(after, Sent(at, sent[..i + 1], now, told), sent[i + 1..])
    ensures AllSend(at, sent[..i + 1], now, told)
  {
    var posted := Sent(at, sent[..i], now, told);
    assert sent[i..] == [sent[i]] + sent[i + 1..];
    forall k
      ensures after(k) == Sent(at, sent[..i + 1], now, told)(k).record && CanSend(Sent(at, sent[..i + 1], now, told)(k), k, sent[i + 1..])
      ensures AllPossible(at(k), SendsOf(k, sent[..i + 1], now, told))
    {
      assert before(k) == posted(k).record && CanSend(posted(k), k, sent[i..]);
      RestCanBeSent(posted(k), k, sent[i], sent[i + 1..], now, told.posting(i));
      SendEvents(k, sent, i, now, told, at(k));
    }
  }

  lemma SentCanBeJudged(records: Hash -> Record, at: Hash -> Task, sent: seq<Held>, toJudge: seq<Hash>, now: int, told: Told)
    requires AllCanSend(records, Sent(at, sent, now, told), []) && forall h :: Times(h, toJudge) == at(h).turn.toJudge
    ensures AllCanBeJudged(records, Sent(at, sent, now, told), toJudge)
  {
    forall h
      ensures records(h) == Sent(at, sent, now, told)(h).record && Times(h, toJudge) <= Sent(at, sent, now, told)(h).turn.toJudge
    {
      SendingJudgesNothing(at(h), h, sent, now, told);
    }
  }

  lemma JudgeEvents(h: Hash, tried: seq<Hash>, i: nat, now: int, told: Told, t: Task)
    requires i < |tried| && AllPossible(t, JudgesOf(h, tried[..i], now, told))
    requires var a := told.asking(i);
             tried[i] == h ==> Possible(Follow(t, JudgesOf(h, tried[..i], now, told)), Judges(now, a.io, a.busy, a.answer))
    ensures AllPossible(t, JudgesOf(h, tried[..i + 1], now, told))
    ensures var a := told.asking(i);
            Follow(t, JudgesOf(h, tried[..i + 1], now, told)) ==
              if tried[i] == h then Next(Follow(t, JudgesOf(h, tried[..i], now, told)), Judges(now, a.io, a.busy, a.answer))
              else Follow(t, JudgesOf(h, tried[..i], now, told))
  {
    var a := told.asking(i);
    assert tried[..i + 1][..i] == tried[..i];
    var before := JudgesOf(h, tried[..i], now, told);
    FollowOneMore(t, before, Judges(now, a.io, a.busy, a.answer));
    assert before + [] == before;
  }

  lemma JudgeStep(t: Task, n: nat, now: int, a: Asking)
    requires 0 < n <= t.turn.toJudge
    ensures var e := Judges(now, a.io, a.busy, a.answer);
            && Possible(t, e) && Next(t, e).record == JudgeTask(t.record, now, a.io, a.busy, a.answer)
            && (!EndsPass(t.record, a.busy, a.answer) ==> n - 1 <= Next(t, e).turn.toJudge)
  {
  }

  lemma TimesOfRest(h: Hash, s: seq<Hash>, i: nat)
    requires i < |s|
    ensures Times(h, s[i..]) == Times(h, s[i + 1..]) + if s[i] == h then 1 else 0
  {
    assert s[i..] == [s[i]] + s[i + 1..];
  }

  lemma JudgedFor(h: Hash, toJudge: seq<Hash>, i: nat, now: int, told: Told, t: Task)
    requires i < |toJudge| && AllPossible(t, JudgesOf(h, toJudge[..i], now, told))
    requires Times(h, toJudge[i..]) <= Follow(t, JudgesOf(h, toJudge[..i], now, told)).turn.toJudge
    ensures AllPossible(t, JudgesOf(h, toJudge[..i + 1], now, told))
    ensures var a := told.asking(i);
            var was := Follow(t, JudgesOf(h, toJudge[..i], now, told));
            var next := Follow(t, JudgesOf(h, toJudge[..i + 1], now, told));
            && next.record == (if toJudge[i] == h then JudgeTask(was.record, now, a.io, a.busy, a.answer) else was.record)
            && (toJudge[i] != h || !EndsPass(was.record, a.busy, a.answer) ==> Times(h, toJudge[i + 1..]) <= next.turn.toJudge)
  {
    TimesOfRest(h, toJudge, i);
    if toJudge[i] == h {
      JudgeStep(Follow(t, JudgesOf(h, toJudge[..i], now, told)), Times(h, toJudge[i..]), now, told.asking(i));
    }
    JudgeEvents(h, toJudge, i, now, told, t);
  }

  lemma OneMoreJudged(before: Hash -> Record, after: Hash -> Record, at: Hash -> Task, toJudge: seq<Hash>, i: nat, now: int, told: Told, ends: bool)
    requires i < |toJudge| && AllCanBeJudged(before, Judged(at, toJudge[..i], now, told), toJudge[i..])
    requires AllJudge(at, toJudge[..i], now, told)
    requires forall k :: k != toJudge[i] ==> after(k) == before(k)
    requires var a := told.asking(i);
             && after(toJudge[i]) == JudgeTask(before(toJudge[i]), now, a.io, a.busy, a.answer)
             && (ends <==> EndsPass(before(toJudge[i]), a.busy, a.answer))
    ensures AllAre(after, Judged(at, toJudge[..i + 1], now, told))
    ensures !ends ==> AllCanBeJudged(after, Judged(at, toJudge[..i + 1], now, told), toJudge[i + 1..])
    ensures AllJudge(at, toJudge[..i + 1], now, told)
    ensures ends <==> EndsThere(Judged(at, toJudge[..i], now, told), toJudge, i, told)
  {
    var judged := Judged(at, toJudge[..i], now, told);
    forall k
      ensures after(k) == Judged(at, toJudge[..i + 1], now, told)(k).record
      ensures !ends ==> Times(k, toJudge[i + 1..]) <= Judged(at, toJudge[..i + 1], now, told)(k).turn.toJudge
      ensures AllPossible(at(k), JudgesOf(k, toJudge[..i + 1], now, told))
    {
      assert before(k) == judged(k).record && Times(k, toJudge[i..]) <= judged(k).turn.toJudge;
      JudgedFor(k, toJudge, i, now, told, at(k));
    }
  }

  /** At most the last one tried ended the pass, and it did unless all were tried. */
  ghost predicate EndsLast(at: Hash -> Task, tried: seq<Hash>, toJudge: seq<Hash>, modelAnswers: bool, now: int, told: Told) {
    && (forall i :: 0 <= i < |tried| - 1 ==> !EndsThere(Judged(at, tried[..i], now, told), tried, i, told))
    && (!modelAnswers || tried == toJudge ||
        (tried != [] && EndsThere(Judged(at, tried[..|tried| - 1], now, told), tried, |tried| - 1, told)))
  }

  ghost predicate NoneEnds(at: Hash -> Task, toJudge: seq<Hash>, n: nat, now: int, told: Told)
    requires n <= |toJudge|
  {
    forall k :: 0 <= k < n ==> !EndsThere(Judged(at, toJudge[..k], now, told), toJudge, k, told)
  }

  lemma OneMoreNotEnding(at: Hash -> Task, toJudge: seq<Hash>, n: nat, now: int, told: Told)
    requires n < |toJudge| && NoneEnds(at, toJudge, n, now, told)
    ensures !EndsThere(Judged(at, toJudge[..n], now, told), toJudge, n, told) ==> NoneEnds(at, toJudge, n + 1, now, told)
  {
  }

  lemma FewerDoNotEnd(at: Hash -> Task, toJudge: seq<Hash>, n: nat, now: int, told: Told)
    requires n <= |toJudge| && NoneEnds(at, toJudge, n, now, told)
    ensures n > 0 ==> NoneEnds(at, toJudge, n - 1, now, told)
  {
  }

  lemma LastEnds(at: Hash -> Task, tried: seq<Hash>, toJudge: seq<Hash>, now: int, told: Told)
    requires tried <= toJudge
    requires tried != [] ==> NoneEnds(at, toJudge, |tried| - 1, now, told)
    requires tried == toJudge || (tried != [] && EndsThere(Judged(at, toJudge[..|tried| - 1], now, told), toJudge, |tried| - 1, told))
    ensures EndsLast(at, tried, toJudge, true, now, told)
  {
    forall i | 0 <= i < |tried|
      ensures EndsThere(Judged(at, tried[..i], now, told), tried, i, told) == EndsThere(Judged(at, toJudge[..i], now, told), toJudge, i, told)
    {
      assert tried[..i] == toJudge[..i] && tried[i] == toJudge[i];
    }
  }

  /** What is sent is of what is ready. */
  lemma SentAreReady(t: Task, h: Hash, ready: seq<Held>, sent: seq<Held>)
    requires sent == Upto(SortBy(ready, LastTried), MAX_PICKS_PER_PASS) && CanSend(t, h, ready)
    ensures CanSend(t, h, sent)
  {
    var sorted := SortBy(ready, LastTried);
    SameElements(ready, LastTried);
    SortingKeepsTasks(ready);
    var n := |sent|;
    assert sorted == sorted[..n] + sorted[n..] && sorted[..n] == sent;
    assert Tasks(sorted) == Tasks(sent) + Tasks(sorted[n..]);
    assert forall e :: e in sent ==> e in sorted;
  }

  lemma TasksOfFront(s: seq<Held>)
    requires s != []
    ensures Tasks(s) == Tasks(s[..|s| - 1]) + [s[|s| - 1].task]
  {
  }

  lemma {:induction false} InsertingKeepsTasks(e: Held, s: seq<Held>)
    ensures multiset(Tasks(Insert(e, s, LastTried))) == multiset(Tasks(s)) + multiset{e.task}
  {
    if s == [] || LastTried(s[|s| - 1]) <= LastTried(e) {
      assert Tasks(s + [e]) == Tasks(s) + [e.task];
    } else {
      var last := |s| - 1;
      InsertingKeepsTasks(e, s[..last]);
      var front := Insert(e, s[..last], LastTried);
      assert Tasks(front + [s[last]]) == Tasks(front) + [s[last].task];
      TasksOfFront(s);
    }
  }

  lemma {:induction false} SortingKeepsTasks(s: seq<Held>)
    ensures multiset(Tasks(SortBy(s, LastTried))) == multiset(Tasks(s))
  {
    if s == [] {
    } else {
      var last := |s| - 1;
      var front := SortBy(s[..last], LastTried);
      SortingKeepsTasks(s[..last]);
      InsertingKeepsTasks(s[last], front);
      TasksOfFront(s);
      assert SortBy(s, LastTried) == Insert(s[last], front, LastTried);
    }
  }

  /** The picks sent are as many as may be, and nobody left over was tried longer ago than one of them. */
  predicate AreLongestWaiting(sent: seq<Held>, ready: seq<Held>) {
    forall e :: e in ready && e !in sent ==> |sent| == MAX_PICKS_PER_PASS && forall f :: f in sent ==> LastTried(f) <= LastTried(e)
  }

  /** Eight of the picks that are ready, or all of them when there are fewer. */
  predicate AreFirstEight(sent: seq<Held>, ready: seq<Held>) {
    multiset(sent) <= multiset(ready) && |sent| == if |ready| <= 8 then |ready| else 8
  }

  lemma FirstAreEight(ready: seq<Held>, sent: seq<Held>)
    requires sent == Upto(SortBy(ready, LastTried), MAX_PICKS_PER_PASS)
    ensures AreFirstEight(sent, ready)
  {
    var sorted := SortBy(ready, LastTried);
    assert sorted == sent + sorted[|sent|..];
    assert multiset(sorted) == multiset(sent) + multiset(sorted[|sent|..]);
  }

  lemma FirstAreLongestWaiting(ready: seq<Held>, sent: seq<Held>)
    requires sent == Upto(SortBy(ready, LastTried), MAX_PICKS_PER_PASS)
    ensures InOrder(sent, LastTried) && AreLongestWaiting(sent, ready)
  {
    var sorted := SortBy(ready, LastTried);
    SameElements(ready, LastTried);
    SortByIsInOrder(ready, LastTried);
    FirstAreLeast(sorted, LastTried, |sent|);
    assert sorted[..|sent|] == sent;
  }

  lemma {:induction false} SendingJudgesNothing(t: Task, h: Hash, sent: seq<Held>, now: int, told: Told)
    ensures Follow(t, SendsOf(h, sent, now, told)).turn.toJudge == t.turn.toJudge
  {
    if sent == [] {
    } else {
      var last := |sent| - 1;
      var p := told.posting(last);
      var before := SendsOf(h, sent[..last], now, told);
      SendingJudgesNothing(t, h, sent[..last], now, told);
      FollowOneMore(t, before, Sends(now, p.io, p.lookup, p.answer));
      assert before + [] == before;
    }
  }

  /** The steps of a pass, put together. */
  lemma PassIsItsEvents(r: Record, h: Hash, list: seq<Hash>, complete: bool, now: int, told: Told, sent: seq<Held>, tried: seq<Hash>,
                        opening: Hash -> Task)
    requires opening(h) == Opened(r, h, list, complete, told)
    ensures var looked := Looked(opening, list, now, told);
            var posted := Sent(looked, sent, now, told);
            && looked(h) == Found(r, h, list, complete, now, told)
            && Judged(posted, tried, now, told)(h) == Follow(Task(r, IDLE), EventsOf(h, list, complete, now, told, sent, tried))
            && (AllPossible(opening(h), LooksOf(h, list, now, told)) && AllPossible(looked(h), SendsOf(h, sent, now, told)) &&
                AllPossible(posted(h), JudgesOf(h, tried, now, told)) ==>
                  AllPossible(Task(r, IDLE), EventsOf(h, list, complete, now, told, sent, tried)))
  {
    var t := Task(r, IDLE);
    var a, b, c, d := OpeningOf(h, list, complete, told), LooksOf(h, list, now, told), SendsOf(h, sent, now, told), JudgesOf(h, tried, now, told);
    FollowBoth(t, a, b);
    FollowBoth(t, a + b, c);
    FollowBoth(t, a + b + c, d);
    if AllPossible(Follow(t, a), b) && AllPossible(Follow(t, a + b), c) && AllPossible(Follow(t, a + b + c), d) {
      OpeningIsPossible(t, h, list, complete, told);
      PossibleInBoth(t, a, b);
      PossibleInBoth(t, a + b, c);
      PossibleInBoth(t, a + b + c, d);
    }
  }

  /** The steps of a pass, of every task. */
  lemma PassesAreTheirEvents(was: Hash -> Record, after: Hash -> Record, list: seq<Hash>, complete: bool, now: int, modelAnswers: bool,
                             told: Told, sent: seq<Held>, tried: seq<Hash>, ready: seq<Held>, toJudge: seq<Hash>)
    requires var opening := Opening(was, list, complete, told);
             var looked := Looked(opening, list, now, told);
             var posted := Sent(looked, sent, now, told);
             && AllLook(opening, list, now, told) && AllSend(looked, sent, now, told) && AllJudge(posted, tried, now, told)
             && AllAre(after, Judged(posted, tried, now, told)) && (forall h :: IsFound(looked(h), h, ready, toJudge))
             && EndsLast(posted, tried, toJudge, modelAnswers, now, told)
    ensures forall h :: after(h) == Follow(Task(was(h), IDLE), EventsOf(h, list, complete, now, told, sent, tried)).record
    ensures forall h :: AllPossible(Task(was(h), IDLE), EventsOf(h, list, complete, now, told, sent, tried))
    ensures forall h :: IsFound(Found(was(h), h, list, complete, now, told), h, ready, toJudge)
    ensures forall i :: 0 <= i < |tried| - 1 ==> !EndsAt(was(tried[i]), list, complete, now, told, sent, tried, i)
    ensures !modelAnswers || tried == toJudge ||
              (tried != [] && EndsAt(was(tried[|tried| - 1]), list, complete, now, told, sent, tried, |tried| - 1))
  {
    var opening := Opening(was, list, complete, told);
    forall h
      ensures after(h) == Follow(Task(was(h), IDLE), EventsOf(h, list, complete, now, told, sent, tried)).record
      ensures AllPossible(Task(was(h), IDLE), EventsOf(h, list, complete, now, told, sent, tried))
      ensures IsFound(Found(was(h), h, list, complete, now, told), h, ready, toJudge)
    {
      PassIsItsEvents(was(h), h, list, complete, now, told, sent, tried, opening);
    }
    var posted := Sent(Looked(opening, list, now, told), sent, now, told);
    forall i | 0 <= i < |tried|
      ensures EndsThere(Judged(posted, tried[..i], now, told), tried, i, told) == EndsAt(was(tried[i]), list, complete, now, told, sent, tried, i)
    {
      PassIsItsEvents(was(tried[i]), tried[i], list, complete, now, told, sent, tried[..i], opening);
    }
  }

  lemma OpeningIsPossible(t: Task, h: Hash, list: seq<Hash>, complete: bool, told: Told)
    ensures AllPossible(t, OpeningOf(h, list, complete, told))
  {
    var begins := Begins(told.kept(h));
    FollowOneMore(t, [], begins);
    assert [] + [begins] == [begins];
    FollowOneMore(t, [begins], Leaves(complete));
    assert [begins] + [] == [begins];
  }
}
