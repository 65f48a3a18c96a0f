/**
 What both halves of open submission share about transactions: which refusals stand, what a lookup
 of an earlier transaction says, and which transaction built by the server may be signed.
 */
module EscrowTx {
  import opened Wrappers
  import opened Ranking

  /** A lookup of a transaction sent earlier; Unreadable when the lookup itself failed. */
  datatype Lookup = Mined | Failed | Pending | Unknown | Unreadable

  /** A failed lookup counts as pending. */
  predicate HoldsBack(l: Lookup) { l.Pending? || l.Unreadable? }

  /** How a signed transaction went: landed, or an error, with the escrow's revert and the hash when there is one. */
  datatype Sending = Landed | Broke(revert: Option<string>, hash: Option<string>)

  /** The escrow refused it for one of these reasons: nothing was left that may land. */
  predicate RevertedFor(s: Sending, reasons: set<string>) { s.Broke? && s.revert.Some? && s.revert.value in reasons }

  /** Whether a refusal from the server will stand on a retry. */
  function OpenRefusalIsFinal(status: nat, code: string): bool {
    if status == 429 || status == 404 || status >= 500 then false
    else code != "ESCROW_PAUSED" && code != "NOT_INDEXED"
  }

  /** A call to the escrow: its task and its other arguments, as text. */
  datatype Call = Call(name: string, task: nat, args: seq<string>)

  datatype Value = NoValue | Wei(n: int) | UnreadableValue

  /** A transaction as the server wrote it; None where its field is not of the right type or not escrow calldata. */
  datatype Tx = Tx(from: Option<string>, chainId: int, to: string, value: Value, call: Option<Call>)

  /** What this worker knows of itself and the escrow; None when it does not. */
  datatype Expected = Expected(abi: bool, from: Option<string>, chainId: Option<int>, escrow: Option<string>)

  datatype Problem =
    | NoTransaction | NoAbi | NothingExpected | OtherWallet | OtherChain | NotTheEscrow
    | ValueUnreadable | SendsValue | OtherFunction | OtherTask | OtherArguments

  predicate SameText(a: string, b: string) { LowerCase(a) == LowerCase(b) }

  predicate SameArgs(a: seq<string>, b: seq<string>) {
    |a| == |b| && forall i :: 0 <= i < |a| ==> SameText(a[i], b[i])
  }

  /**
   checkUnsignedSubmitOpen and checkUnsignedSelect: nothing wrong exactly when the transaction is
   this wallet's, on this chain, to the escrow, without value, and makes the call wanted.
   */
  function CheckUnsigned(tx: Option<Tx>, expected: Expected, call: Option<Call>): (problem: Option<Problem>)
    ensures problem.None? <==>
              && tx.Some? && expected.abi && expected.from.Some? && expected.escrow.Some? && expected.chainId.Some? && call.Some?
              && tx.value.from.Some? && SameText(tx.value.from.value, expected.from.value)
              && Some(tx.value.chainId) == expected.chainId && SameText(tx.value.to, expected.escrow.value)
              && tx.value.value in {NoValue, Wei(0)}
              && tx.value.call.Some? && tx.value.call.value.name == call.value.name && tx.value.call.value.task == call.value.task
              && SameArgs(tx.value.call.value.args, call.value.args)
  {
    if tx.None? then Some(NoTransaction)
    else if !expected.abi then Some(NoAbi)
    else if expected.from.None? || expected.escrow.None? || expected.chainId.None? || call.None? then Some(NothingExpected)
    else
      var t := tx.value;
      if t.from.None? || !SameText(t.from.value, expected.from.value) then Some(OtherWallet)
      else if t.chainId != expected.chainId.value then Some(OtherChain)
      else if !SameText(t.to, expected.escrow.value) then Some(NotTheEscrow)
      else if t.value.UnreadableValue? then Some(ValueUnreadable)
      else if t.value.Wei? && t.value.n != 0 then Some(SendsValue)
      else if t.call.None? || t.call.value.name != call.value.name then Some(OtherFunction)
      else if t.call.value.task != call.value.task then Some(OtherTask)
      else if !SameArgs(t.call.value.args, call.value.args) then Some(OtherArguments)
      else None
  }

  /** The same function, task and arguments. */
  predicate IsCall(made: Call, wanted: Call) {
    made.name == wanted.name && made.task == wanted.task && SameArgs(made.args, wanted.args)
  }
}
