/**
 What the open pass remembers of one task, and what each thing it does makes of it: a board read, a
 candidate checked, a model run, a result sent. Everything the worker is told is an input.
 */
module OpenRecord {
  import opened Wrappers
  import opened EscrowTx

  const MAX_OPEN_ATTEMPTS: nat := 2
  const OPEN_RETRY_MS: nat := 15 * 60 * 1000
  const MAX_UNSENT_TRIES: nat := 12

  /** A result made but not on-chain yet: its evidence hash, when its task closes, passes tried, its submitOpen. */
  datatype Unsent = Unsent(evidence: string, deadline: int, tries: nat, txHash: Option<string>)

  datatype Record = Record(done: bool, retryAt: Option<int>, attempts: nat, unsent: Option<Unsent>, logged: bool, absent: nat)

  const NOTHING := Record(false, None, 0, None, false, 0)

  function MarkDone(r: Record): Record { r.(done := true, unsent := None, retryAt := None) }

  /** A failed run: tried again later, up to two of them, or given up at once. */
  function NoteFailure(r: Record, final: bool, nowMs: int): Record {
    var after := r.(attempts := r.attempts + 1);
    if final || after.attempts >= MAX_OPEN_ATTEMPTS then MarkDone(after) else after.(retryAt := Some(nowMs + OPEN_RETRY_MS))
  }

  /** A result that could not be sent yet, `u` counting this try. */
  function KeepUnsent(r: Record, u: Unsent): Record {
    if u.tries >= MAX_UNSENT_TRIES then MarkDone(r) else r.(unsent := Some(u))
  }

  // ---- A board read ---------------------------------------------------------------------------

  /** A board as read: whether the task is on it, whether it was read to its end, and when. */
  datatype Board = Board(listed: bool, complete: bool, nowSec: int)

  predicate Known(r: Record) { r.done || r.retryAt.Some? || r.attempts > 0 || r.logged || r.absent > 0 }

  /** A second complete read in a row without the task. */
  predicate Forgets(r: Record, b: Board) { b.complete && Known(r) && !b.listed && r.absent >= 1 }

  predicate Expires(r: Record, nowSec: int) { r.unsent.Some? && nowSec >= r.unsent.value.deadline }

  function Absence(r: Record, b: Board): Record {
    if !b.complete || !Known(r) then r
    else if b.listed then r.(absent := 0)
    else if Forgets(r, b) then NOTHING.(unsent := r.unsent)
    else r.(absent := r.absent + 1)
  }

  /** pruneOpenState; `logsCleared` when too many skip reasons were kept. */
  function Prune(r: Record, b: Board, logsCleared: bool): Record {
    var seen := Absence(r, b);
    var cleared := if logsCleared then seen.(logged := false) else seen;
    if Expires(r, b.nowSec) then cleared.(unsent := None) else cleared
  }

  // ---- Sending a result -----------------------------------------------------------------------

  datatype SubmitAnswer =
    | NoGas
    | NoAnswer
    | Refused(status: nat, code: string)
    | AlreadyOnChain
    | Built(tx: Option<Tx>, sending: Sending)

  /** What sending is told: the time, what the earlier submitOpen came to, and the server's answer. */
  datatype Send = Send(nowSec: int, expected: Expected, onChainTaskId: Option<nat>, lookup: Lookup, answer: SubmitAnswer)

  const FINAL_SUBMIT_OPEN_REVERTS := {"AlreadySubmitted", "DeadlineReached", "NotOpenTask", "InvalidStatus", "SelfAssignment"}

  /** The call this result is committed by. */
  function WantedCall(s: Send, evidence: string): Option<Call> {
    if s.onChainTaskId.None? then None else Some(Call("submitOpen", s.onChainTaskId.value, [evidence]))
  }

  predicate HasLanded(u: Unsent, s: Send) { u.txHash.Some? && s.lookup.Mined? }
  predicate IsHeldBack(u: Unsent, s: Send) { u.txHash.Some? && HoldsBack(s.lookup) }

  /** The submitOpen handed back is this result's. */
  predicate IsSignable(u: Unsent, s: Send) {
    s.answer.Built? && CheckUnsigned(s.answer.tx, s.expected, WantedCall(s, u.evidence)).None?
  }

  /** sendOpenResult: `u` is the result, with the tries before this one. */
  function SendResult(r: Record, u: Unsent, s: Send): Record {
    var tried := u.(tries := u.tries + 1);
    if s.nowSec >= u.deadline then MarkDone(r)
    else if HasLanded(u, s) then MarkDone(r)
    else if IsHeldBack(u, s) then KeepUnsent(r, tried)
    else
      match s.answer
      case NoGas => KeepUnsent(r, tried.(txHash := None))
      case NoAnswer => KeepUnsent(r, tried.(txHash := None))
      case Refused(status, code) =>
        if OpenRefusalIsFinal(status, code) then MarkDone(r) else KeepUnsent(r, tried.(txHash := None))
      case AlreadyOnChain => MarkDone(r)
      case Built(_, sending) =>
        if !IsSignable(u, s) || sending.Landed? || RevertedFor(sending, FINAL_SUBMIT_OPEN_REVERTS) then MarkDone(r)
        else KeepUnsent(r, tried.(txHash := sending.hash))
  }

  /** Sending it signs a submitOpen, which may have reached the network. */
  predicate Signs(u: Unsent, s: Send) {
    && s.nowSec < u.deadline && !HasLanded(u, s) && !IsHeldBack(u, s) && IsSignable(u, s)
    && (s.answer.sending.Landed? || s.answer.sending.hash.Some?)
  }

  // ---- A candidate ----------------------------------------------------------------------------

  /** How a model run went: `evidence` is the hash of the result it made. */
  datatype Run =
    | BriefFailed(final: bool)
    | ModelFailed
    | Threw(modelStarted: bool)
    | Produced(evidence: string, send: Send)

  /** How checking a candidate went, down to its run. */
  datatype Check =
    | GasProblem
    | CrashLoop
    | CrashedOnIt
    | EscrowUnread
    | EscrowRefuses(final: bool)
    | CheckUnread
    | ServerRefuses(final: bool)
    | Go(run: Run)

  function RunTask(r: Record, deadline: int, run: Run, endMs: int): Record {
    match run
    case BriefFailed(final) => NoteFailure(r, final, endMs)
    case ModelFailed => NoteFailure(r, false, endMs)
    case Threw(_) => NoteFailure(r, false, endMs)
    case Produced(evidence, send) => SendResult(r, Unsent(evidence, deadline, 0, None), send)
  }

  function TryLater(r: Record, nowMs: int): Record { r.(retryAt := Some(nowMs + OPEN_RETRY_MS), logged := true) }

  /** One candidate of the pass, checked and perhaps run by `endMs`. */
  function CheckTask(r: Record, deadline: int, endMs: int, c: Check): Record {
    match c
    case GasProblem => r.(logged := true)
    case CrashLoop => r.(logged := true)
    case CrashedOnIt => MarkDone(r)
    case EscrowUnread => TryLater(r, endMs)
    case EscrowRefuses(final) => if final then MarkDone(r) else TryLater(r, endMs)
    case CheckUnread => TryLater(r, endMs)
    case ServerRefuses(final) => if final then MarkDone(r) else TryLater(r, endMs)
    case Go(run) => RunTask(r, deadline, run, endMs)
  }

  /** Checking it ends the pass. */
  predicate Ends(c: Check) { c.CrashLoop? || c.Go? }

  /** The run calls its model, which counts against the hourly cap. */
  predicate StartsModel(run: Run) { run.ModelFailed? || run.Produced? || (run.Threw? && run.modelStarted) }

  /** What is remembered lets the task be tried. */
  predicate IsFree(r: Record, nowMs: int) {
    !r.done && r.unsent.None? && (r.retryAt.None? || r.retryAt.value <= nowMs)
  }
}
