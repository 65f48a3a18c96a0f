/**
 The 0G Compute account set-up of the agent runtime: the plan for the prepaid ledger,
 the plan for the provider sub-account, the wallet deposit, and the set-up that runs them.
 Amounts are in wei and unbounded, as JavaScript's bigint is.
 */
module OgFunding {
  import opened Wrappers

  const OG: nat := 1_000_000_000_000_000_000
  const LEDGER_OPEN: nat := 3 * OG
  const SETUP_GAS_RESERVE: nat := 100_000_000_000_000_000
  const PROVIDER_FLOOR: nat := OG
  const PROVIDER_TARGET: nat := 2 * OG
  const MIN_TRANSFER: nat := OG
  const DEPOSIT_STEP: nat := 1_000_000_000_000_000

  datatype LedgerPlan = Use | Open | Fund(need: int, shortfall: int)

  function OgLedgerPlan(hasLedger: bool, wallet: nat): LedgerPlan {
    var need := LEDGER_OPEN + SETUP_GAS_RESERVE;
    if hasLedger then Use
    else if wallet >= need then Open
    else Fund(need, need - wallet)
  }

  /** A sub-account with a provider; what is on its way back to the ledger still counts in `balance`. */
  datatype SubAccount = SubAccount(balance: int, pendingRefund: int)

  datatype ProviderPlan = Ready | Transfer(amount: int) | Short(need: int, shortfall: int)

  function Locked(account: Option<SubAccount>): int {
    match account
    case None => 0
    case Some(a) => a.balance - a.pendingRefund
  }

  function OgProviderFundingPlan(account: Option<SubAccount>, available: int): ProviderPlan {
    var locked := Locked(account);
    if locked >= PROVIDER_TARGET then Ready
    else
      var deficit := PROVIDER_TARGET - locked;
      var transfer := if deficit > MIN_TRANSFER then deficit else MIN_TRANSFER;
      if available >= transfer then Transfer(transfer)
      else if available >= MIN_TRANSFER && locked + available > PROVIDER_FLOOR then Transfer(available)
      else if locked > PROVIDER_FLOOR then Ready
      else Short(transfer, transfer - available)
  }

  /** What the ledger contract lets a transfer be: at least the minimum, at most what is free. */
  ghost predicate LegalTransfer(amount: int, available: int) {
    MIN_TRANSFER <= amount <= available
  }

  /** A call can be paid when the locked balance is above the provider's floor. */
  ghost predicate Pays(locked: int) {
    locked > PROVIDER_FLOOR
  }

  /** `Short` exactly when the sub-account cannot pay and no transfer the ledger may make would let it. */
  lemma ShortIsExact(account: Option<SubAccount>, available: int)
    ensures OgProviderFundingPlan(account, available).Short?
            <==> !Pays(Locked(account))
                 && !exists t :: LegalTransfer(t, available) && Pays(Locked(account) + t)
  {
    var locked := Locked(account);
    if !Pays(locked) {
      var deficit := PROVIDER_TARGET - locked;
      if available >= deficit {
        assert LegalTransfer(deficit, available) && Pays(locked + deficit);
      } else if available >= MIN_TRANSFER && locked + available > PROVIDER_FLOOR {
        assert LegalTransfer(available, available) && Pays(locked + available);
      }
    }
  }

  /**
   A planned transfer is one the ledger accepts and leaves the sub-account able to pay. It
   reaches the target unless it takes everything free, and overshoots it by less than the minimum.
   */
  lemma TransferIsLegalAndPays(account: Option<SubAccount>, available: int)
    requires OgProviderFundingPlan(account, available).Transfer?
    ensures var t := OgProviderFundingPlan(account, available).amount;
            && LegalTransfer(t, available)
            && Pays(Locked(account) + t)
            && (Locked(account) + t >= PROVIDER_TARGET || t == available)
            && Locked(account) + t < PROVIDER_TARGET + MIN_TRANSFER
  {
    assert Locked(account) < PROVIDER_TARGET;
  }

  /**
   A transfer is planned exactly when the target is not reached and some transfer the ledger may make
   lets the sub-account pay; and it is the least one that reaches the target, or all there is when none does.
   */
  lemma TransferIsTheLeastToTheTarget(account: Option<SubAccount>, available: int)
    ensures var plan, locked := OgProviderFundingPlan(account, available), Locked(account);
            && (plan.Transfer? <==> locked < PROVIDER_TARGET && exists t :: LegalTransfer(t, available) && Pays(locked + t))
            && (plan.Transfer? ==> forall t :: LegalTransfer(t, available) && locked + t >= PROVIDER_TARGET ==> plan.amount <= t)
            && (plan.Transfer? && locked + plan.amount < PROVIDER_TARGET ==> forall t :: LegalTransfer(t, available) ==> t <= plan.amount)
  {
    var plan, locked := OgProviderFundingPlan(account, available), Locked(account);
    if plan.Transfer? {
      assert LegalTransfer(plan.amount, available) && Pays(locked + plan.amount);
    }
  }

  /** Nothing is planned exactly when the target is reached, or the sub-account can pay and the ledger may transfer nothing. */
  lemma ReadyExactly(account: Option<SubAccount>, available: int)
    ensures OgProviderFundingPlan(account, available).Ready? <==>
              || Locked(account) >= PROVIDER_TARGET
              || (Pays(Locked(account)) && !exists t :: LegalTransfer(t, available))
  {
    if available >= MIN_TRANSFER {
      assert LegalTransfer(available, available);
    }
  }

  function OgDepositWei(shortfall: nat): nat {
    (shortfall + DEPOSIT_STEP - 1) / DEPOSIT_STEP * DEPOSIT_STEP + DEPOSIT_STEP
  }

  /** A deposit covers the shortfall with at least one step (and less than two) to spare. */
  lemma DepositCoversShortfall(shortfall: nat)
    ensures shortfall + DEPOSIT_STEP <= OgDepositWei(shortfall) < shortfall + 2 * DEPOSIT_STEP
    ensures OgDepositWei(shortfall) % DEPOSIT_STEP == 0
  {
    var up := shortfall + DEPOSIT_STEP - 1;
    assert up == up / DEPOSIT_STEP * DEPOSIT_STEP + up % DEPOSIT_STEP;
    assert OgDepositWei(shortfall) == (up / DEPOSIT_STEP + 1) * DEPOSIT_STEP;
  }

  /** One deposit of the shortfall always turns a short plan into a transfer up to the target. */
  lemma OneDepositEndsShort(account: Option<SubAccount>, available: int)
    requires OgProviderFundingPlan(account, available).Short?
    ensures var plan := OgProviderFundingPlan(account, available);
            && plan.shortfall > 0
            && OgProviderFundingPlan(account, available + OgDepositWei(plan.shortfall)) == Transfer(plan.need)
  {
    var plan := OgProviderFundingPlan(account, available);
    DepositCoversShortfall(plan.shortfall);
  }

  // ---- The set-up -------------------------------------------------------------------------

  /** Where the agent's 0G is: its wallet, the ledger's free balance, the provider sub-account. */
  datatype Funds = Funds(wallet: nat, ledger: Option<nat>, sub: Option<SubAccount>)

  /** A sub-account is funded from a ledger, and no more than it holds is on its way back. */
  ghost predicate Sound(f: Funds) {
    f.sub.Some? ==> f.ledger.Some? && 0 <= f.sub.value.pendingRefund <= f.sub.value.balance
  }

  /** What each transaction of a set-up costs in gas, paid by the wallet. */
  datatype Gas = Gas(open: nat, deposit: nat, transfer: nat, acknowledge: nat) {
    function Total(): nat { open + deposit + transfer + acknowledge }
  }

  /** What a set-up ends with. `Send` names what the owner is asked to send to the wallet. */
  datatype Outcome = SetUpDone | Send(amount: int) | OutOfGas

  datatype SetUpResult = SetUpResult(funds: Funds, spent: nat, outcome: Outcome)

  function Balance(f: Funds): int {
    f.wallet
    + (match f.ledger case None => 0 case Some(l) => l)
    + (match f.sub case None => 0 case Some(s) => s.balance)
  }

  function Credited(sub: Option<SubAccount>, amount: int): SubAccount {
    match sub
    case None => SubAccount(amount, 0)
    case Some(s) => s.(balance := s.balance + amount)
  }

  /** The account step: use the ledger, open one, or ask for what opening takes. */
  function SetUpResultOf(f: Funds, gas: Gas): SetUpResult {
    match OgLedgerPlan(f.ledger.Some?, f.wallet)
    case Use => FundProvider(f, f.ledger.value, gas, 0)
    case Fund(_, shortfall) => SetUpResult(f, 0, Send(shortfall))
    case Open =>
      if f.wallet < LEDGER_OPEN + gas.open then SetUpResult(f, 0, OutOfGas)
      else
        FundProvider(f.(wallet := f.wallet - LEDGER_OPEN - gas.open, ledger := Some(LEDGER_OPEN)), LEDGER_OPEN, gas, gas.open)
  }

  /** The sub-account step: move the wallet's 0G in when the ledger is short, then transfer. */
  function FundProvider(f: Funds, available: nat, gas: Gas, spent: nat): SetUpResult {
    match OgProviderFundingPlan(f.sub, available)
    case Ready => Acknowledge(f, gas, spent)
    case Transfer(amount) => TransferFund(f, available, amount, gas, spent)
    case Short(need, shortfall) =>
      var deposit := OgDepositWei(shortfall);
      if f.wallet < deposit + SETUP_GAS_RESERVE then SetUpResult(f, spent, Send(deposit + SETUP_GAS_RESERVE))
      else if f.wallet < deposit + gas.deposit then SetUpResult(f, spent, OutOfGas)
      else
        OneDepositEndsShort(f.sub, available);
        TransferFund(f.(wallet := f.wallet - deposit - gas.deposit), available + deposit,
                     OgProviderFundingPlan(f.sub, available + deposit).amount, gas, spent + gas.deposit)
  }

  function TransferFund(f: Funds, available: nat, amount: int, gas: Gas, spent: nat): SetUpResult
    requires LegalTransfer(amount, available)
  {
    if f.wallet < gas.transfer then SetUpResult(f.(ledger := Some(available)), spent, OutOfGas)
    else
      Acknowledge(Funds(f.wallet - gas.transfer, Some(available - amount), Some(Credited(f.sub, amount))), gas, spent + gas.transfer)
  }

  function Acknowledge(f: Funds, gas: Gas, spent: nat): SetUpResult {
    if f.wallet < gas.acknowledge then SetUpResult(f, spent, OutOfGas)
    else SetUpResult(f.(wallet := f.wallet - gas.acknowledge), spent + gas.acknowledge, SetUpDone)
  }

  // ---- Refunds from providers no longer used --------------------------------------------------

  const REFUND_RETRY_MS: nat := 60 * 60_000

  /**
   A sub-account with a provider no longer used; None when it cannot be read. `matured`: one of its
   refunds is past its lock. `triedAt`: when a refund was last tried.
   */
  datatype Unused = Unused(account: SubAccount, readable: bool, matured: bool, triedAt: Option<int>)

  datatype RefundAction = Nothing | Request | Collect

  function OgRefundAction(u: Unused, nowMs: int): RefundAction {
    if u.triedAt.Some? && nowMs - u.triedAt.value < REFUND_RETRY_MS then Nothing
    else if u.account.balance - u.account.pendingRefund > 0 then Request
    else if u.matured then Collect
    else Nothing
  }

  /**
   How a refund transaction goes: what its gas costs, what of the balance reached the ledger (at most
   all of it) and what is on its way there then. A failed one moves nothing.
   */
  datatype Refund = Refund(gas: nat, back: nat, pending: int)

  function Returned(u: Unused, refund: Refund): nat {
    if u.account.balance < 0 then 0 else if refund.back <= u.account.balance then refund.back else u.account.balance
  }

  /** One provider: nothing, or a transaction the wallet can pay the gas of, and what it brings back. */
  function RefundOne(f: Funds, u: Unused, nowMs: int, refund: Refund): (Funds, Unused, nat)
    requires f.ledger.Some?
  {
    if !u.readable || OgRefundAction(u, nowMs).Nothing? then (f, u, 0)
    else if f.wallet < refund.gas then (f, u.(triedAt := Some(nowMs)), 0)
    else
      var back := Returned(u, refund);
      (f.(wallet := f.wallet - refund.gas, ledger := Some(f.ledger.value + back)),
       u.(account := SubAccount(u.account.balance - back, refund.pending), triedAt := Some(nowMs)), refund.gas)
  }

  /** The providers no longer used, one after the other. */
  function RefundAll(f: Funds, unused: seq<Unused>, nowMs: int, refunds: nat -> Refund): (r: (Funds, seq<Unused>, nat))
    requires f.ledger.Some?
    ensures r.0.ledger.Some? && r.0.sub == f.sub && |r.1| == |unused|
  {
    if unused == [] then (f, [], 0)
    else
      var last := |unused| - 1;
      var (f1, before, spent) := RefundAll(f, unused[..last], nowMs, refunds);
      var (f2, u, gas) := RefundOne(f1, unused[last], nowMs, refunds(last));
      (f2, before + [u], spent + gas)
  }

  function UnusedBalance(unused: seq<Unused>): int {
    if unused == [] then 0 else UnusedBalance(unused[..|unused| - 1]) + unused[|unused| - 1].account.balance
  }

  lemma {:induction false} RefundsConserve(f: Funds, unused: seq<Unused>, nowMs: int, refunds: nat -> Refund)
    requires f.ledger.Some?
    ensures var (after, left, spent) := RefundAll(f, unused, nowMs, refunds);
            && Balance(after) + UnusedBalance(left) + spent == Balance(f) + UnusedBalance(unused)
            && Balance(after) + spent >= Balance(f) && after.wallet + spent == f.wallet
  {
    if unused == [] {
    } else {
      var last := |unused| - 1;
      RefundsConserve(f, unused[..last], nowMs, refunds);
      var (f1, before, spent) := RefundAll(f, unused[..last], nowMs, refunds);
      var (f2, u, gas) := RefundOne(f1, unused[last], nowMs, refunds(last));
      assert (before + [u])[..last] == before;
    }
  }

  /** The whole set-up: one that ends with the ledger short asks for refunds. */
  function SetUpAndRefund(f: Funds, unused: seq<Unused>, gas: Gas, nowMs: int, refunds: nat -> Refund): (SetUpResult, seq<Unused>) {
    var r := SetUpResultOf(f, gas);
    if OgLedgerPlan(f.ledger.Some?, f.wallet).Fund? || !r.outcome.Send? then (r, unused)
    else
      ShortHasALedger(f, gas);
      var (after, left, spent) := RefundAll(r.funds, unused, nowMs, refunds);
      (SetUpResult(after, r.spent + spent, r.outcome), left)
  }

  lemma ShortHasALedger(f: Funds, gas: Gas)
    requires !OgLedgerPlan(f.ledger.Some?, f.wallet).Fund? && SetUpResultOf(f, gas).outcome.Send?
    ensures SetUpResultOf(f, gas).funds.ledger.Some?
  {
  }

  /**
   Nothing is created or lost, refunds included: wallet, ledger, the sub-account and those no longer
   used together change only by the gas spent, which for a set-up that asks for no refund is at most
   its own.
   */
  lemma SetUpConserves(f: Funds, unused: seq<Unused>, gas: Gas, nowMs: int, refunds: nat -> Refund)
    ensures var (r, left) := SetUpAndRefund(f, unused, gas, nowMs, refunds);
            && Balance(r.funds) + UnusedBalance(left) + r.spent == Balance(f) + UnusedBalance(unused)
            && (!r.outcome.Send? ==> left == unused && r.spent <= gas.Total())
  {
    OwnFundsConserve(f, gas);
    var r := SetUpResultOf(f, gas);
    if !OgLedgerPlan(f.ledger.Some?, f.wallet).Fund? && r.outcome.Send? {
      ShortHasALedger(f, gas);
      RefundsConserve(r.funds, unused, nowMs, refunds);
    }
  }

  /**
   The owner is asked for money exactly when no ledger is open and the wallet has less than 3.1 0G, and then
   for the rest of that; or when the ledger is short of a transfer and the wallet has less than the deposit that
   makes up for it and 0.1 0G, and then for these. Nothing was moved or spent.
   */
  lemma AsksExactly(f: Funds, gas: Gas)
    requires Sound(f)
    ensures var r := SetUpResultOf(f, gas);
            && (f.ledger.None? ==>
                  && (r.outcome.Send? <==> f.wallet < 3_100_000_000_000_000_000)
                  && (r.outcome.Send? ==> r.outcome.amount == 3_100_000_000_000_000_000 - f.wallet))
            && (f.ledger.Some? ==>
                  var plan := OgProviderFundingPlan(f.sub, f.ledger.value);
                  && (r.outcome.Send? <==> plan.Short? && f.wallet < OgDepositWei(plan.shortfall) + 100_000_000_000_000_000)
                  && (r.outcome.Send? ==> r.outcome.amount == OgDepositWei(plan.shortfall) + 100_000_000_000_000_000))
            && (r.outcome.Send? ==> r.funds == f && r.spent == 0)
  {
    if f.ledger.None? {
      NewLedgerIsNeverShort();
    }
  }

  /** A set-up that ends done has paid for just what it did: a ledger opened, a deposit, a transfer, the acknowledgement. */
  lemma DoneSpendsExactly(f: Funds, gas: Gas)
    requires Sound(f) && SetUpResultOf(f, gas).outcome.SetUpDone?
    ensures var r := SetUpResultOf(f, gas);
            var available := if f.ledger.Some? then f.ledger.value else 3_000_000_000_000_000_000;
            var plan := OgProviderFundingPlan(f.sub, available);
            && r.spent == (if f.ledger.None? then gas.open else 0) + (if plan.Short? then gas.deposit else 0)
                          + (if plan.Ready? then 0 else gas.transfer) + gas.acknowledge
            && r.funds.wallet == f.wallet - r.spent - (if f.ledger.None? then available else 0)
                                 - (if plan.Short? then OgDepositWei(plan.shortfall) else 0)
            && (if plan.Ready? then r.funds.sub == f.sub
                else r.funds.sub.Some? && Locked(r.funds.sub) == Locked(f.sub) + if plan.Transfer? then plan.amount else plan.need)
  {
    if f.ledger.None? {
      NewLedgerIsNeverShort();
    } else if OgProviderFundingPlan(f.sub, f.ledger.value).Short? {
      OneDepositEndsShort(f.sub, f.ledger.value);
    }
  }

  /** A refund is tried: the provider can be read, none was tried within the hour, and something is locked or has matured. */
  predicate IsDue(u: Unused, nowMs: int) {
    && u.readable && (u.triedAt.None? || u.triedAt.value + 3_600_000 <= nowMs)
    && (u.account.balance > u.account.pendingRefund || u.matured)
  }

  /** What a refund is, when one is tried: asked for while anything is locked, and otherwise collected. */
  lemma RefundsAreAskedThenCollected(u: Unused, nowMs: int)
    requires u.readable
    ensures OgRefundAction(u, nowMs).Nothing? <==> !IsDue(u, nowMs)
    ensures OgRefundAction(u, nowMs).Request? <==> IsDue(u, nowMs) && u.account.balance > u.account.pendingRefund
  {
  }

  /** What a refund brings back is what its transaction moved, and no more than there is. */
  lemma RefundIsWhatCameBack(u: Unused, refund: Refund)
    requires u.account.balance >= 0
    ensures Returned(u, refund) <= refund.back && Returned(u, refund) <= u.account.balance
    ensures Returned(u, refund) in {refund.back, u.account.balance}
  {
  }

  /** Exactly the refunds due are tried, one transaction each while the wallet can pay for it. */
  lemma {:induction false} DueRefundsAreTried(f: Funds, unused: seq<Unused>, nowMs: int, refunds: nat -> Refund, i: nat)
    requires f.ledger.Some? && i < |unused|
    ensures var before, after := RefundAll(f, unused[..i], nowMs, refunds).0, RefundAll(f, unused[..i + 1], nowMs, refunds).0;
            var left := RefundAll(f, unused, nowMs, refunds).1[i];
            && (!IsDue(unused[i], nowMs) ==> left == unused[i] && after == before)
            && (IsDue(unused[i], nowMs) ==>
                  && left.triedAt == Some(nowMs)
                  && (before.wallet < refunds(i).gas ==> after == before && left.account == unused[i].account)
                  && (before.wallet >= refunds(i).gas ==>
                        && after.wallet == before.wallet - refunds(i).gas
                        && after.ledger == Some(before.ledger.value + Returned(unused[i], refunds(i)))
                        && left.account == SubAccount(unused[i].account.balance - Returned(unused[i], refunds(i)), refunds(i).pending)))
  {
    var last := |unused| - 1;
    if i < last {
      DueRefundsAreTried(f, unused[..last], nowMs, refunds, i);
      assert unused[..last][..i] == unused[..i] && unused[..last][..i + 1] == unused[..i + 1];
    } else {
      assert unused[..i + 1] == unused && unused[..i + 1][..i] == unused[..i];
    }
  }

  /** A set-up asks for refunds exactly when it ends with an open ledger short; and then all that are due are tried. */
  lemma ShortSetUpAsksForRefunds(f: Funds, unused: seq<Unused>, gas: Gas, nowMs: int, refunds: nat -> Refund, i: nat)
    requires Sound(f) && i < |unused|
    ensures var (r, left) := SetUpAndRefund(f, unused, gas, nowMs, refunds);
            && |left| == |unused|
            && (if r.outcome.Send? && f.ledger.Some? && IsDue(unused[i], nowMs) then left[i].triedAt == Some(nowMs) else left[i] == unused[i])
  {
    AsksExactly(f, gas);
    if f.ledger.Some? {
      DueRefundsAreTried(f, unused, nowMs, refunds, i);
    }
  }

  lemma OwnFundsConserve(f: Funds, gas: Gas)
    ensures var r := SetUpResultOf(f, gas);
            Balance(r.funds) + r.spent == Balance(f) && r.spent <= gas.Total()
  {
    match OgLedgerPlan(f.ledger.Some?, f.wallet)
    case Use => FundProviderConserves(f, f.ledger.value, gas, 0);
    case Fund(_, _) =>
    case Open =>
      if f.wallet >= LEDGER_OPEN + gas.open {
        FundProviderConserves(f.(wallet := f.wallet - LEDGER_OPEN - gas.open, ledger := Some(LEDGER_OPEN)), LEDGER_OPEN, gas, gas.open);
      }
  }

  lemma FundProviderConserves(f: Funds, available: nat, gas: Gas, spent: nat)
    requires f.ledger == Some(available)
    ensures var r := FundProvider(f, available, gas, spent);
            && Balance(r.funds) + r.spent == Balance(f) + spent
            && spent <= r.spent <= spent + gas.deposit + gas.transfer + gas.acknowledge
  {
    if OgProviderFundingPlan(f.sub, available).Short? {
      OneDepositEndsShort(f.sub, available);
    }
  }

  /** A set-up that ends done leaves a sub-account that can pay for a call. */
  lemma SetUpDonePays(f: Funds, gas: Gas)
    requires SetUpResultOf(f, gas).outcome.SetUpDone?
    ensures Pays(Locked(SetUpResultOf(f, gas).funds.sub))
  {
    match OgLedgerPlan(f.ledger.Some?, f.wallet)
    case Use => DonePays(f, f.ledger.value, gas, 0);
    case Open => DonePays(f.(wallet := f.wallet - LEDGER_OPEN - gas.open, ledger := Some(LEDGER_OPEN)), LEDGER_OPEN, gas, gas.open);
  }

  lemma DonePays(f: Funds, available: nat, gas: Gas, spent: nat)
    requires FundProvider(f, available, gas, spent).outcome.SetUpDone?
    ensures Pays(Locked(FundProvider(f, available, gas, spent).funds.sub))
  {
    match OgProviderFundingPlan(f.sub, available)
    case Ready =>
    case Transfer(_) => TransferIsLegalAndPays(f.sub, available);
    case Short(_, shortfall) =>
      OneDepositEndsShort(f.sub, available);
      TransferIsLegalAndPays(f.sub, available + OgDepositWei(shortfall));
  }

  /**
   The amount the owner is told to send is enough: when the gas fits the reserve, a set-up
   run after the wallet received it ends done. `funded` is what is held then: with a ledger
   already open, the wallet holds at least the stated amount, and any refund that reached
   the ledger meanwhile is `refund`.
   */
  lemma SendingTheStatedAmountEndsDone(f: Funds, gas: Gas, refund: nat, funded: Funds)
    requires Sound(f) && gas.Total() <= SETUP_GAS_RESERVE
    requires SetUpResultOf(f, gas).outcome.Send?
    requires f.ledger.None? ==> funded == f.(wallet := f.wallet + SetUpResultOf(f, gas).outcome.amount)
    requires f.ledger.Some? ==> funded.ledger == Some(f.ledger.value + refund) && funded.sub == f.sub
                                && funded.wallet >= SetUpResultOf(f, gas).outcome.amount
    ensures SetUpResultOf(funded, gas).outcome.SetUpDone?
  {
    if f.ledger.None? {
      if OgLedgerPlan(false, f.wallet).Open? {
        NewLedgerIsNeverShort();
      }
      NewLedgerIsNeverShort();
    } else {
      WalletCoversShort(funded, f.ledger.value + refund, gas, f.ledger.value);
    }
  }

  /** A ledger just opened always has enough for a new sub-account's target. */
  lemma NewLedgerIsNeverShort()
    ensures OgProviderFundingPlan(None, LEDGER_OPEN) == Transfer(PROVIDER_TARGET)
  {
  }

  lemma WalletCoversShort(f: Funds, available: nat, gas: Gas, before: nat)
    requires before <= available && gas.Total() <= SETUP_GAS_RESERVE
    requires OgProviderFundingPlan(f.sub, before).Short?
    requires f.wallet >= OgDepositWei(OgProviderFundingPlan(f.sub, before).shortfall) + SETUP_GAS_RESERVE
    ensures FundProvider(f, available, gas, 0).outcome.SetUpDone?
  {
    match OgProviderFundingPlan(f.sub, available)
    case Ready =>
    case Transfer(_) =>
    case Short(_, shortfall) =>
      OneDepositEndsShort(f.sub, available);
      DepositIsMonotone(shortfall, OgProviderFundingPlan(f.sub, before).shortfall);
  }

  lemma DepositIsMonotone(less: nat, more: nat)
    requires less <= more
    ensures OgDepositWei(less) <= OgDepositWei(more)
  {
    assert (less + DEPOSIT_STEP - 1) / DEPOSIT_STEP <= (more + DEPOSIT_STEP - 1) / DEPOSIT_STEP;
  }

  /** The agent's 0G accounts, which the set-up updates in place. */
  class ComputeAccount {
    var wallet: nat
    var ledger: Option<nat>
    var sub: Option<SubAccount>
    var unused: seq<Unused>

    ghost function Held(): Funds
      reads this
    {
      Funds(wallet, ledger, sub)
    }

    constructor (f: Funds, unused: seq<Unused>)
      ensures Held() == f && this.unused == unused
    {
      wallet, ledger, sub, this.unused := f.wallet, f.ledger, f.sub, unused;
    }

    /** The account step and the sub-account step, and refunds when the ledger stays short. */
    method SetUp(gas: Gas, nowMs: int, refunds: nat -> Refund) returns (outcome: Outcome, spent: nat)
      modifies this
      ensures (SetUpResult(Held(), spent, outcome), unused) == SetUpAndRefund(old(Held()), old(unused), gas, nowMs, refunds)
    {
      var plan := OgLedgerPlan(ledger.Some?, wallet);
      outcome, spent := SetUpOwn(plan, gas);
      if !plan.Fund? && outcome.Send? {
        ShortHasALedger(old(Held()), gas);
        var more := RefundUnusedProviders(nowMs, refunds);
        spent := spent + more;
      }
    }

    method SetUpOwn(plan: LedgerPlan, gas: Gas) returns (outcome: Outcome, spent: nat)
      requires plan == OgLedgerPlan(ledger.Some?, wallet)
      modifies this
      ensures unused == old(unused) && SetUpResult(Held(), spent, outcome) == SetUpResultOf(old(Held()), gas)
    {
      if plan.Fund? {
        return Send(plan.shortfall), 0;
      }
      spent := 0;
      if plan.Open? {
        if wallet < LEDGER_OPEN + gas.open {
          return OutOfGas, 0;
        }
        wallet, ledger, spent := wallet - LEDGER_OPEN - gas.open, Some(LEDGER_OPEN), gas.open;
      }
      outcome, spent := FundSubAccount(gas, spent);
    }

    /** refundUnusedProviders */
    method RefundUnusedProviders(nowMs: int, refunds: nat -> Refund) returns (spent: nat)
      requires ledger.Some?
      modifies this
      ensures (Held(), unused, spent) == RefundAll(old(Held()), old(unused), nowMs, refunds)
    {
      spent := 0;
      var left: seq<Unused> := [];
      for i := 0 to |unused|
        invariant unused == old(unused) && ledger.Some?
        invariant (Held(), left, spent) == RefundAll(old(Held()), unused[..i], nowMs, refunds)
      {
        assert unused[..i + 1][..i] == unused[..i];
        var u, gas := RefundProvider(unused[i], nowMs, refunds(i));
        left, spent := left + [u], spent + gas;
      }
      assert unused[..|unused|] == unused;
      unused := left;
    }

    method RefundProvider(u: Unused, nowMs: int, refund: Refund) returns (after: Unused, gas: nat)
      requires ledger.Some?
      modifies `wallet, `ledger
      ensures (Held(), after, gas) == RefundOne(old(Held()), u, nowMs, refund)
    {
      if !u.readable || OgRefundAction(u, nowMs).Nothing? {
        return u, 0;
      }
      after, gas := u.(triedAt := Some(nowMs)), 0;
      if wallet >= refund.gas {
        var back := Returned(u, refund);
        wallet, ledger, gas := wallet - refund.gas, Some(ledger.value + back), refund.gas;
        after := after.(account := SubAccount(u.account.balance - back, refund.pending));
      }
    }

    /** The sub-account step: a short ledger is deposited into once, and its plan made again. */
    method FundSubAccount(gas: Gas, spentSoFar: nat) returns (outcome: Outcome, spent: nat)
      requires ledger.Some?
      modifies this
      ensures ledger.Some? && unused == old(unused)
      ensures SetUpResult(Held(), spent, outcome) == FundProvider(old(Held()), old(ledger.value), gas, spentSoFar)
    {
      spent := spentSoFar;
      var plan := OgProviderFundingPlan(sub, ledger.value);
      if plan.Short? {
        var deposit := OgDepositWei(plan.shortfall);
        if wallet < deposit + SETUP_GAS_RESERVE {
          return Send(deposit + SETUP_GAS_RESERVE), spent;
        }
        if wallet < deposit + gas.deposit {
          return OutOfGas, spent;
        }
        OneDepositEndsShort(sub, ledger.value);
        wallet, ledger, spent := wallet - deposit - gas.deposit, Some(ledger.value + deposit), spent + gas.deposit;
        plan := OgProviderFundingPlan(sub, ledger.value);
      }
      if plan.Transfer? {
        if wallet < gas.transfer {
          return OutOfGas, spent;
        }
        sub := Some(Credited(sub, plan.amount));
        wallet, ledger, spent := wallet - gas.transfer, Some(ledger.value - plan.amount), spent + gas.transfer;
      }
      if wallet < gas.acknowledge {
        return OutOfGas, spent;
      }
      wallet, spent := wallet - gas.acknowledge, spent + gas.acknowledge;
      outcome := SetUpDone;
    }
  }
}
