/** Adding up what the escrows paid each executor, one payout at a time, as the scan finds them. */
module EarningsTotals {
  import opened EarningsBackfill
  import opened Sorting

  /** What the chains paid an executor: the amounts by currency, and how many payouts. */
  ghost function TotalsOf(cfg: Config, ids: set<nat>, executor: nat): Row {
    Row(|OfExecutor(cfg, ids, executor)|, Paid(cfg, |cfg.ledger|, ids, executor, Native), Paid(cfg, |cfg.ledger|, ids, executor, Usdc))
  }

  lemma {:induction false} OneMorePaid(cfg: Config, n: nat, ids: set<nat>, p: nat, executor: nat, c: Currency)
    requires n <= |cfg.ledger| && p !in ids
    ensures Paid(cfg, n, ids + {p}, executor, c) ==
            Paid(cfg, n, ids, executor, c) + if p < n && Mine(cfg, p, executor, c) then cfg.ledger[p].paid else 0
  {
    if n == 0 {
    } else {
      OneMorePaid(cfg, n - 1, ids, p, executor, c);
    }
  }

  /** One payout more. */
  lemma OneMoreCounted(cfg: Config, ids: set<nat>, p: nat, executor: nat)
    requires p < |cfg.ledger| && p !in ids
    ensures var before, after, payout := TotalsOf(cfg, ids, executor), TotalsOf(cfg, ids + {p}, executor), cfg.ledger[p];
            after == if payout.executor == executor then WithPayout(before, payout) else before
  {
    OneMorePaid(cfg, |cfg.ledger|, ids, p, executor, Native);
    OneMorePaid(cfg, |cfg.ledger|, ids, p, executor, Usdc);
    if cfg.ledger[p].executor == executor {
      assert OfExecutor(cfg, ids + {p}, executor) == OfExecutor(cfg, ids, executor) + {p};
    } else {
      assert OfExecutor(cfg, ids + {p}, executor) == OfExecutor(cfg, ids, executor);
    }
  }

  function WithPayout(row: Row, payout: Payout): Row {
    match payout.currency
    case Native => Row(row.tasks + 1, row.native + payout.paid, row.usdc)
    case Usdc => Row(row.tasks + 1, row.native, row.usdc + payout.paid)
  }

  lemma {:induction false} NothingPaid(cfg: Config, n: nat, executor: nat, c: Currency)
    requires n <= |cfg.ledger|
    ensures Paid(cfg, n, {}, executor, c) == 0
  {
    if n == 0 {
    } else {
      NothingPaid(cfg, n - 1, executor, c);
    }
  }

  /**
   The totals of a scan: `found` are the payouts of every chain scanned, each once. An executor's
   entry is exactly what they paid it; one without an entry was paid nothing.
   */
  method AddUp(cfg: Config, found: seq<nat>) returns (totals: map<nat, Row>, counted: set<nat>)
    requires NoRepeats(found) && forall p :: p in found ==> p < |cfg.ledger|
    ensures counted == set p | p in found
    ensures forall e :: TotalsOf(cfg, counted, e) == if e in totals then totals[e] else Row(0, 0, 0)
  {
    totals, counted := map[], {};
    forall e
      ensures TotalsOf(cfg, {}, e) == Row(0, 0, 0)
    {
      NothingPaid(cfg, |cfg.ledger|, e, Native);
      NothingPaid(cfg, |cfg.ledger|, e, Usdc);
      assert OfExecutor(cfg, {}, e) == {};
    }
    for i := 0 to |found|
      invariant counted == set p | p in found[..i]
      invariant forall e :: TotalsOf(cfg, counted, e) == if e in totals then totals[e] else Row(0, 0, 0)
    {
      var p := found[i];
      assert p in found;
      assert found[..i + 1] == found[..i] + [p];
      assert p !in found[..i];
      forall e
        ensures TotalsOf(cfg, counted + {p}, e) ==
                if cfg.ledger[p].executor == e then WithPayout(TotalsOf(cfg, counted, e), cfg.ledger[p]) else TotalsOf(cfg, counted, e)
      {
        OneMoreCounted(cfg, counted, p, e);
      }
      var executor := cfg.ledger[p].executor;
      var current := if executor in totals then totals[executor] else Row(0, 0, 0);
      totals := totals[executor := WithPayout(current, cfg.ledger[p])];
      counted := counted + {p};
    }
    assert found[..|found|] == found;
  }
}
