/**
 What the judge remembers of one task, and what each step of a pass makes of it: a look at the
 escrow, a held pick sent, the task judged. Everything the worker is told is an input of the step.
 */
module JudgeRecord {
  import opened Wrappers
  import opened EscrowTx
  import opened Ranking

  const MAX_JUDGE_ATTEMPTS: nat := 3
  const JUDGE_RETRY_MS: nat := 15 * 60 * 1000
  const MAX_SCORECARD_CONFIRMS: nat := 12
  const MAX_UNLISTED_LOOKUPS: nat := 24
  const MAX_STORAGE_WAITS: nat := 3
  const MAX_TASK_STORAGE_WAITS: nat := 6
  const MAX_JUDGE_YIELDS: nat := 3
  const PHASE_VERIFIER_PICK: nat := 2

  /** A judged pick not known to have landed: the winner and the hash of its scorecard. */
  datatype Pick = Pick(winner: string, card: string, txHash: Option<string>, lookups: nat, lastTriedAt: int)

  /** Passes waited on storage, and how often each stored result failed to download. */
  datatype Waits = Waits(passes: nat, roots: map<string, nat>)

  datatype Confirm = Confirm(card: string, tries: nat)

  datatype Record = Record(done: bool, attempts: nat, retryAt: int, picked: Option<Pick>, confirm: Option<Confirm>,
                           excluded: set<string>, waits: Waits, yielded: nat)

  const NOTHING := Record(false, 0, 0, None, None, {}, Waits(0, map[]), 0)

  // ---- A look at the escrow -------------------------------------------------------------------

  /** What a look is told: the list's on-chain id, the chain, then the escrow's view. */
  datatype LookAnswer = NotIndexed | ChainProblem | ReadFailed | OtherTaskOnChain | NotItsVerifier | InPhase(phase: nat)

  /** What the escrow is asked of the id the list gives. */
  datatype View = Unindexed | NoChain | Unread | OnChain(taskHash: string, verifier: string, phase: nat)

  /** The escrow's task is compared with the list's text for it in lower case; what is remembered is kept under that text as it is. */
  function Seen(h: string, self: string, v: View): LookAnswer {
    match v
    case Unindexed => NotIndexed
    case NoChain => ChainProblem
    case Unread => ReadFailed
    case OnChain(taskHash, verifier, phase) =>
      if LowerCase(taskHash) != LowerCase(h) then OtherTaskOnChain
      else if LowerCase(verifier) != self then NotItsVerifier
      else InPhase(phase)
  }

  datatype Decision = Skip | Ready | ToJudge

  predicate PassedOver(r: Record, now: int) {
    r.done || r.retryAt > now || (r.attempts >= MAX_JUDGE_ATTEMPTS && r.picked.None?)
  }

  function Look(r: Record, now: int, a: LookAnswer): (Record, Decision) {
    if PassedOver(r, now) then (r, Skip)
    else
      match a
      case NotIndexed => (r, Skip)
      case ChainProblem => (r.(done := true), Skip)
      case ReadFailed => (r.(retryAt := now + JUDGE_RETRY_MS), Skip)
      case OtherTaskOnChain => (r.(done := true), Skip)
      case NotItsVerifier => (r.(done := true), Skip)
      case InPhase(phase) => LookInPhase(r, phase)
  }

  function LookInPhase(r: Record, phase: nat): (Record, Decision) {
    if phase < PHASE_VERIFIER_PICK then (r, Skip)
    else if phase > PHASE_VERIFIER_PICK then
      if r.picked.Some? && r.picked.value.txHash.Some? then (r, Ready)
      else (r.(picked := None, done := true), Skip)
    else (r, if r.picked.Some? then Ready else ToJudge)
  }

  // ---- Sending a pick -------------------------------------------------------------------------

  datatype SelectAnswer =
    | NoGas
    | NoAnswer
    | Refused(status: nat, code: string)
    | Built(tx: Option<Tx>, sending: Sending)

  const FINAL_SELECT_REVERTS := {"WrongPhase", "NotVerifier", "NoSubmission", "SelfAssignment", "NotOpenTask", "InvalidStatus"}
  const WINNER_REFUSALS := {"OWN_AGENT_PICK", "SELF_PICK"}

  /** The wallet and the task a pick is for. */
  datatype Io = Io(expected: Expected, onChainTaskId: Option<nat>)

  function WantedCall(io: Io, pick: Pick): Option<Call> {
    if io.onChainTaskId.None? then None
    else Some(Call("selectWinnerByVerifier", io.onChainTaskId.value, [pick.winner, pick.card]))
  }

  predicate FinalRevert(s: Sending) { RevertedFor(s, FINAL_SELECT_REVERTS) }

  /** The pick is kept, with its new hash when there is one. */
  function Keep(r: Record, pick: Pick, hash: Option<string>): Record {
    r.(picked := Some(if hash.Some? then pick.(txHash := hash) else pick))
  }

  function Finish(r: Record): Record { r.(picked := None, done := true) }

  /** A pick sent earlier may be what closed the window: its scorecard still needs keeping. */
  function FinishSent(r: Record, pick: Pick): Record {
    if pick.txHash.Some? then Finish(r).(confirm := Some(Confirm(pick.card, 0))) else Finish(r)
  }

  function LandedPick(r: Record, pick: Pick): Record { Finish(r).(confirm := Some(Confirm(pick.card, 0))) }

  /** An earlier transaction of this pick is still pending, or could not be looked up. */
  predicate IsHeldBack(pick: Pick, lookup: Lookup) { pick.txHash.Some? && HoldsBack(lookup) }

  predicate HasLanded(pick: Pick, lookup: Lookup) { pick.txHash.Some? && lookup.Mined? }

  /** sendPick */
  function SendPick(r: Record, pick: Pick, io: Io, lookup: Lookup, a: SelectAnswer): Record {
    if HasLanded(pick, lookup) then LandedPick(r, pick)
    else if IsHeldBack(pick, lookup) then Keep(r, pick, None)
    else
      match a
      case NoGas => Keep(r, pick, None)
      case NoAnswer => Keep(r, pick, None)
      case Refused(status, code) =>
        if code in WINNER_REFUSALS then
          r.(excluded := r.excluded + {LowerCase(pick.winner)}, picked := None, attempts := r.attempts + 1)
        else if code == "NOT_A_SUBMITTER" then Keep(r, pick, None)
        else if OpenRefusalIsFinal(status, code) then FinishSent(r, pick)
        else Keep(r, pick, None)
      case Built(tx, sending) =>
        if CheckUnsigned(tx, io.expected, WantedCall(io, pick)).Some? then Finish(r)
        else if sending.Landed? then LandedPick(r, pick)
        else if FinalRevert(sending) then FinishSent(r, pick)
        else Keep(r, pick, sending.hash)
  }

  /** Sending it signs a transaction, which may have reached the network. */
  predicate Signs(pick: Pick, io: Io, lookup: Lookup, a: SelectAnswer) {
    && !HasLanded(pick, lookup) && !IsHeldBack(pick, lookup)
    && a.Built? && CheckUnsigned(a.tx, io.expected, WantedCall(io, pick)).None?
    && (a.sending.Landed? || a.sending.hash.Some?)
  }

  // ---- Judging it -----------------------------------------------------------------------------

  datatype JudgeAnswer =
    | CannotPay
    | Crashed(final: bool)
    | NobodySubmitted
    | ListUnusable
    | StorageFailed(failedRoots: seq<string>)
    | NothingReadable(storageUnreadable: bool)
    | BriefUnread
    | RankYielded
    | RankFailed
    | NobodyAcceptable
    | Winner(winner: string, card: string, answer: SelectAnswer)

  /** The stored results no longer waited for. */
  function GiveUpOn(w: Waits): set<string> {
    set root | root in w.roots && (w.roots[root] >= MAX_STORAGE_WAITS || w.passes >= MAX_TASK_STORAGE_WAITS)
  }

  /** One more failed download for each of the roots. */
  function CountRoots(roots: map<string, nat>, failed: seq<string>): (r: map<string, nat>)
    ensures r.Keys == roots.Keys + set root | root in failed
    decreases |failed|
  {
    if failed == [] then roots
    else
      var root := failed[0];
      CountRoots(roots[root := (if root in roots then roots[root] else 0) + 1], failed[1..])
  }

  function Later(r: Record, now: int): Record { r.(retryAt := now + JUDGE_RETRY_MS) }

  /** Nothing readable with storage failing is an outage, while the task's storage waits last. */
  predicate Outage(r: Record, storageUnreadable: bool) {
    storageUnreadable && r.waits.passes < MAX_TASK_STORAGE_WAITS
  }

  predicate Yields(r: Record, busy: bool) { busy && r.yielded < MAX_JUDGE_YIELDS }

  /** One task of toJudge, in the last step of a pass: `busy` is whether paid work waits. */
  function JudgeTask(r: Record, now: int, io: Io, busy: bool, a: JudgeAnswer): Record {
    if r.attempts >= MAX_JUDGE_ATTEMPTS then r
    else if Yields(r, busy) then r.(yielded := r.yielded + 1)
    else
      match a
      case CannotPay => Later(r, now)
      case Crashed(final) => if final then r.(done := true) else r
      case NobodySubmitted => r.(done := true)
      case ListUnusable => Later(r, now)
      case StorageFailed(failedRoots) =>
        Later(r.(waits := Waits(r.waits.passes + 1, CountRoots(r.waits.roots, failedRoots))), now)
      case NothingReadable(storageUnreadable) =>
        Later(if Outage(r, storageUnreadable) then r else r.(attempts := r.attempts + 1), now)
      case BriefUnread => Later(r, now)
      case RankYielded => r.(yielded := r.yielded + 1)
      case RankFailed => r.(yielded := 0, attempts := r.attempts + 1)
      case NobodyAcceptable => r.(yielded := 0, done := true)
      case Winner(winner, card, answer) =>
        var pick := Pick(winner, card, None, 0, now);
        SendPick(r.(yielded := 0, picked := Some(pick)), pick, io, Unknown, answer)
  }

  // ---- Leaving the list -----------------------------------------------------------------------

  /** A full list without the task: all but its pick and its scorecard are forgotten. */
  function Forget(r: Record): Record { NOTHING.(picked := r.picked, confirm := r.confirm) }

  /** A list without the task: its pick is looked up, a number of times, if a transaction was sent. */
  function Unlisted(r: Record): (Record, bool) {
    if r.picked.None? then (r, false)
    else
      var lookups := r.picked.value.lookups + 1;
      if r.picked.value.txHash.None? || lookups > MAX_UNLISTED_LOOKUPS then (r.(picked := None), false)
      else (r.(picked := Some(r.picked.value.(lookups := lookups))), true)
  }

  function ConfirmScorecard(r: Record, kept: bool): Record {
    if r.confirm.None? then r
    else if kept || r.confirm.value.tries + 1 >= MAX_SCORECARD_CONFIRMS then r.(confirm := None)
    else r.(confirm := Some(r.confirm.value.(tries := r.confirm.value.tries + 1)))
  }
}
