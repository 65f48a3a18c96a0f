/**
 The earnings backfill run beside a live backend. The backend adds each payout it observes to
 its executor's row; the backfill replaces a row by the chain's totals. The steps below are
 the database, Redis and chain operations of both, each atomic, in any order the two programs
 allow; a backfill may die between any two of its steps and be run again.
 */
module EarningsBackfill {
  datatype Currency = Native | Usdc

  /**
   One TaskCompleted payout: what the chain paid, and what the backend credits for it (less,
   when it subtracts compute cost). Its index in the ledger stands for its task hash.
   */
  datatype Payout = Payout(executor: nat, currency: Currency, chain: nat, paid: nat, credit: nat)

  /** An executor's stored totals. */
  datatype Row = Row(tasks: nat, native: nat, usdc: nat)

  /**
   Every payout that ever settles, the chains a backfill scans, and whether credits also take
   the database row of their task (`durable`), or the Redis marker is their only gate.
   */
  datatype Config = Config(ledger: seq<Payout>, chains: set<nat>, durable: bool)

  datatype Run =
    | Idle
    | Active(stored: map<nat, Row>, settledAtRead: set<nat>, creditedAtRead: set<nat>, heads: map<nat, set<nat>>, marked: set<nat>, rowed: set<nat>, tried: set<nat>)

  datatype State = State(
    settled: set<nat>,            // payouts on their chain
    marker: set<nat>,             // tasks whose credit marker is set
    inFlight: set<nat>,           // credits under way in the backend
    creditRow: set<nat>,          // tasks with a durable credit row
    credited: set<nat>,           // payouts some credit was added for
    rows: map<nat, Row>,
    run: Run,
    written: map<nat, Written>)   // the rows the backfill wrote

  /** A row written: the payouts in its totals, those credited on top since, and the task count written. */
  datatype Written = Written(counted: set<nat>, added: set<nat>, tasks: nat)

  datatype Event =
    | Settles(p: nat)
    | WinsMarker(p: nat)
    | SkipsMarker(p: nat)
    | CreditLands(p: nat)
    | CreditFails(p: nat)
    | ReadRows
    | ReadHead(chain: nat)
    | ClaimMarker(p: nat)
    | ClaimRow(p: nat)
    | Update(executor: nat)
    | Dies

  // ---- Totals -------------------------------------------------------------------------------

  predicate Mine(cfg: Config, p: nat, executor: nat, c: Currency) {
    p < |cfg.ledger| && cfg.ledger[p].executor == executor && cfg.ledger[p].currency == c
  }

  /** What the payouts of `ids` below `n` paid `executor` in one currency. */
  function Paid(cfg: Config, n: nat, ids: set<nat>, executor: nat, c: Currency): nat
    requires n <= |cfg.ledger|
  {
    if n == 0 then 0
    else Paid(cfg, n - 1, ids, executor, c) + (if n - 1 in ids && Mine(cfg, n - 1, executor, c) then cfg.ledger[n - 1].paid else 0)
  }

  /** What the backend credits for the payouts of `ids` below `n`. */
  function Credits(cfg: Config, n: nat, ids: set<nat>, executor: nat, c: Currency): nat
    requires n <= |cfg.ledger|
  {
    if n == 0 then 0
    else Credits(cfg, n - 1, ids, executor, c) + (if n - 1 in ids && Mine(cfg, n - 1, executor, c) then cfg.ledger[n - 1].credit else 0)
  }

  function OfExecutor(cfg: Config, ids: set<nat>, executor: nat): set<nat> {
    set p | p in ids && p < |cfg.ledger| && cfg.ledger[p].executor == executor
  }

  /** The payouts found up to the heads read. */
  function Scanned(heads: map<nat, set<nat>>): set<nat> {
    set c, p | c in heads && p in heads[c] :: p
  }

  function Max(a: nat, b: nat): nat { if a > b then a else b }

  /** What the backfill makes of a stored row: the chain's totals, and a task count that never falls. */
  function Fixed(cfg: Config, stored: Row, ids: set<nat>, executor: nat): Row {
    Row(Max(stored.tasks, |OfExecutor(cfg, ids, executor)|),
        Paid(cfg, |cfg.ledger|, ids, executor, Native),
        Paid(cfg, |cfg.ledger|, ids, executor, Usdc))
  }

  function WithCredit(row: Row, payout: Payout): Row {
    match payout.currency
    case Native => Row(row.tasks + 1, row.native + payout.credit, row.usdc)
    case Usdc => Row(row.tasks + 1, row.native, row.usdc + payout.credit)
  }

  // ---- Steps --------------------------------------------------------------------------------

  /** No credit for `p` can be added any more. */
  ghost predicate Closed(cfg: Config, s: State, p: nat) {
    if cfg.durable then p in s.creditRow else p in s.marker && p !in s.inFlight
  }

  /** What each step needs, apart from the wait before the updates. */
  ghost predicate CanStep(cfg: Config, s: State, ev: Event)
    requires Valid(cfg, s)
  {
    match ev
    case Settles(p) => p < |cfg.ledger| && p !in s.settled
    // A settlement path sets the marker first (NX); only with the durable row does it go on when Redis fails.
    case WinsMarker(p) => p in s.settled && p !in s.marker
    case SkipsMarker(p) => cfg.durable && p in s.settled
    case CreditLands(p) => p in s.inFlight && cfg.ledger[p].executor in s.rows
    case CreditFails(p) => cfg.durable && p in s.inFlight
    case ReadRows => s.run.Idle?
    // Heads are read after the rows, one chain at a time.
    case ReadHead(c) => s.run.Active? && c in cfg.chains && c !in s.run.heads
    case ClaimMarker(p) => s.run.Active? && s.run.heads.Keys == cfg.chains && p in Scanned(s.run.heads)
    case ClaimRow(p) => cfg.durable && s.run.Active? && p in Scanned(s.run.heads) && Scanned(s.run.heads) <= s.run.marked
    case Update(e) =>
      && s.run.Active? && s.run.heads.Keys == cfg.chains && e in s.run.stored && e !in s.run.tried
      && Scanned(s.run.heads) <= s.run.marked
      && (cfg.durable ==> Scanned(s.run.heads) <= s.run.rowed)
    case Dies => s.run.Active?
  }

  /**
   What the wait after claiming is for, when the marker is the only gate: every credit already
   under way for a counted payout has reached the database before the updates.
   */
  ghost predicate WaitedOut(cfg: Config, s: State, ev: Event) {
    ev.Update? && s.run.Active? && !cfg.durable ==> s.inFlight !! Scanned(s.run.heads)
  }

  ghost predicate Enabled(cfg: Config, s: State, ev: Event)
    requires Valid(cfg, s)
  {
    CanStep(cfg, s, ev) && WaitedOut(cfg, s, ev)
  }

  /** Whether the guarded UPDATE writes: the row differs from its totals and is still as it was read. */
  ghost predicate Writes(cfg: Config, s: State, e: nat)
    requires s.run.Active? && e in s.run.stored
  {
    && e in s.rows
    && Fixed(cfg, s.run.stored[e], Scanned(s.run.heads), e) != s.run.stored[e]
    && s.rows[e] == s.run.stored[e]
  }

  ghost function Step(cfg: Config, s: State, ev: Event): State
    requires Valid(cfg, s) && CanStep(cfg, s, ev)
  {
    match ev
    case Settles(p) => s.(settled := s.settled + {p})
    case WinsMarker(p) => s.(marker := s.marker + {p}, inFlight := s.inFlight + {p})
    case SkipsMarker(p) => s.(inFlight := s.inFlight + {p})
    case CreditLands(p) =>
      var e := cfg.ledger[p].executor;
      if cfg.durable && p in s.creditRow then s.(inFlight := s.inFlight - {p})
      else
        s.(inFlight := s.inFlight - {p},
           creditRow := if cfg.durable then s.creditRow + {p} else s.creditRow,
           credited := s.credited + {p},
           rows := s.rows[e := WithCredit(s.rows[e], cfg.ledger[p])],
           written := if e in s.written then s.written[e := s.written[e].(added := s.written[e].added + {p})] else s.written)
    case CreditFails(p) => s.(inFlight := s.inFlight - {p}, marker := s.marker - {p})
    case ReadRows => s.(run := Active(s.rows, s.settled, s.credited, map[], {}, {}, {}))
    case ReadHead(c) => s.(run := s.run.(heads := s.run.heads[c := set p | p in s.settled && cfg.ledger[p].chain == c]))
    case ClaimMarker(p) => s.(marker := s.marker + {p}, run := s.run.(marked := s.run.marked + {p}))
    case ClaimRow(p) => s.(creditRow := s.creditRow + {p}, run := s.run.(rowed := s.run.rowed + {p}))
    case Update(e) =>
      var ids := Scanned(s.run.heads);
      var tried := s.(run := s.run.(tried := s.run.tried + {e}));
      if Writes(cfg, s, e) then
        tried.(rows := s.rows[e := Fixed(cfg, s.run.stored[e], ids, e)],
               written := s.written[e := Written(OfExecutor(cfg, ids, e), {}, Fixed(cfg, s.run.stored[e], ids, e).tasks)])
      else tried
    case Dies => s.(run := Idle)
  }

  ghost predicate Valid(cfg: Config, s: State) {
    && (forall p :: p in s.settled ==> p < |cfg.ledger|)
    && s.inFlight <= s.settled && s.credited <= s.settled
    && s.written.Keys <= s.rows.Keys
    && (!cfg.durable ==> s.inFlight <= s.marker)
  }

  // ---- Every run ------------------------------------------------------------------------------

  /** What the backfill's current run knows is still true of the rows, the heads and the claims. */
  ghost predicate RunSound(cfg: Config, s: State) {
    s.run.Active? ==>
      && s.run.creditedAtRead <= s.run.settledAtRead <= s.settled
      && s.run.heads.Keys <= cfg.chains && s.run.marked <= Scanned(s.run.heads)
      && s.run.stored.Keys <= s.rows.Keys
      && (forall e :: e in s.run.stored && e !in s.run.tried ==> Untouched(cfg, s, e))
      && (forall c :: c in s.run.heads ==> HeadSound(cfg, s, c))
      && s.run.rowed <= s.creditRow
      && (!cfg.durable ==> s.run.marked <= s.marker)
  }

  /** A row only moves by credits, which raise its task count; while that stands, none has landed. */
  ghost predicate Untouched(cfg: Config, s: State, e: nat)
    requires s.run.Active? && e in s.run.stored
  {
    && e in s.rows
    && s.run.stored[e].tasks <= s.rows[e].tasks
    && (s.run.stored[e].tasks == s.rows[e].tasks ==> OfExecutor(cfg, s.credited, e) <= s.run.creditedAtRead)
  }

  /** A head read takes in every payout of its chain that had settled when the rows were read. */
  ghost predicate HeadSound(cfg: Config, s: State, c: nat)
    requires s.run.Active? && c in s.run.heads
  {
    && s.run.heads[c] <= s.settled
    && (forall p :: p in s.run.heads[c] && p < |cfg.ledger| ==> cfg.ledger[p].chain == c)
    && (forall p :: p in s.run.settledAtRead && p < |cfg.ledger| && cfg.ledger[p].chain == c ==> p in s.run.heads[c])
  }

  /**
   A row the backfill wrote: its earnings are the chain's payments for the payouts counted plus
   the credits added since, its task count the one written, no less than the payouts counted, plus
   one for each of these credits; no payout is in both, none of them can be credited again, and no
   credited payout of a scanned chain is missing.
   */
  ghost predicate ExactlyOnce(cfg: Config, s: State, e: nat)
    requires Valid(cfg, s) && e in s.written
  {
    && AddsUp(cfg, s.rows[e], s.written[e], e)
    && s.written[e].added <= s.credited
    && AllClosed(cfg, s, s.written[e].counted + s.written[e].added, e)
    && NoneMissing(cfg, s.credited, s.written[e].counted + s.written[e].added, e)
  }

  ghost predicate AllClosed(cfg: Config, s: State, ids: set<nat>, e: nat) {
    forall p :: p in ids ==> p < |cfg.ledger| && cfg.ledger[p].executor == e && Closed(cfg, s, p)
  }

  ghost predicate NoneMissing(cfg: Config, credited: set<nat>, ids: set<nat>, e: nat) {
    forall p :: p in OfExecutor(cfg, credited, e) && cfg.ledger[p].chain in cfg.chains ==> p in ids
  }

  /** The row holds the payouts counted and, apart from them, those added. */
  ghost predicate AddsUp(cfg: Config, row: Row, w: Written, e: nat) {
    var n := |cfg.ledger|;
    && row.native == Paid(cfg, n, w.counted, e, Native) + Credits(cfg, n, w.added, e, Native)
    && row.usdc == Paid(cfg, n, w.counted, e, Usdc) + Credits(cfg, n, w.added, e, Usdc)
    && row.tasks == w.tasks + |w.added| && w.tasks >= |w.counted|
    && w.counted !! w.added
  }

  lemma OneMoreAddsUp(cfg: Config, row: Row, w: Written, e: nat, p: nat)
    requires AddsUp(cfg, row, w, e)
    requires p < |cfg.ledger| && cfg.ledger[p].executor == e && p !in w.counted + w.added
    ensures AddsUp(cfg, WithCredit(row, cfg.ledger[p]), w.(added := w.added + {p}), e)
  {
    OneMoreCredit(cfg, |cfg.ledger|, w.added, p, e, Native);
    OneMoreCredit(cfg, |cfg.ledger|, w.added, p, e, Usdc);
  }

  lemma FixedAddsUp(cfg: Config, stored: Row, ids: set<nat>, e: nat)
    ensures AddsUp(cfg, Fixed(cfg, stored, ids, e), Written(OfExecutor(cfg, ids, e), {}, Fixed(cfg, stored, ids, e).tasks), e)
  {
    FixedIsFix(cfg, stored, ids, e);
    NoCredits(cfg, |cfg.ledger|, e, Native);
    NoCredits(cfg, |cfg.ledger|, e, Usdc);
  }

  ghost predicate Inv(cfg: Config, s: State) {
    && Valid(cfg, s)
    && (forall p :: p in s.credited ==> Closed(cfg, s, p))
    && RunSound(cfg, s)
    && (forall e :: e in s.written ==> ExactlyOnce(cfg, s, e))
  }

  /**
   What a row should hold once its executor's payouts of `ids` are counted: what the chains paid, and
   as many tasks as was stored or as there are payouts, whichever is more.
   */
  ghost predicate IsFixOf(cfg: Config, row: Row, stored: Row, ids: set<nat>, e: nat) {
    var payouts := OfExecutor(cfg, ids, e);
    && row.native == Paid(cfg, |cfg.ledger|, payouts, e, Native)
    && row.usdc == Paid(cfg, |cfg.ledger|, payouts, e, Usdc)
    && row.tasks >= stored.tasks && row.tasks >= |payouts| && row.tasks in {stored.tasks, |payouts|}
  }

  lemma FixedIsFix(cfg: Config, stored: Row, ids: set<nat>, e: nat)
    ensures IsFixOf(cfg, Fixed(cfg, stored, ids, e), stored, ids, e)
  {
    PaidIgnores(cfg, |cfg.ledger|, ids, e, Native);
    PaidIgnores(cfg, |cfg.ledger|, ids, e, Usdc);
  }

  lemma {:induction false} PaidIgnores(cfg: Config, n: nat, ids: set<nat>, executor: nat, c: Currency)
    requires n <= |cfg.ledger|
    ensures Paid(cfg, n, ids, executor, c) == Paid(cfg, n, OfExecutor(cfg, ids, executor), executor, c)
  {
    if n == 0 {
    } else {
      PaidIgnores(cfg, n - 1, ids, executor, c);
    }
  }

  lemma {:induction false} NoCredits(cfg: Config, n: nat, executor: nat, c: Currency)
    requires n <= |cfg.ledger|
    ensures Credits(cfg, n, {}, executor, c) == 0
  {
    if n == 0 {
    } else {
      NoCredits(cfg, n - 1, executor, c);
    }
  }

  lemma {:induction false} OneMoreCredit(cfg: Config, n: nat, ids: set<nat>, p: nat, executor: nat, c: Currency)
    requires n <= |cfg.ledger| && p < |cfg.ledger| && p !in ids && cfg.ledger[p].executor == executor
    ensures Credits(cfg, n, ids + {p}, executor, c)
            == Credits(cfg, n, ids, executor, c) + (if p < n && cfg.ledger[p].currency == c then cfg.ledger[p].credit else 0)
  {
    if n == 0 {
    } else {
      OneMoreCredit(cfg, n - 1, ids, p, executor, c);
    }
  }

  /** A credit that failed may be made again, unless one was made before. */
  lemma FailedCreditIsOpenAgain(cfg: Config, s: State, p: nat)
    requires Valid(cfg, s) && CanStep(cfg, s, CreditFails(p)) && p !in s.creditRow
    ensures var t := Step(cfg, s, CreditFails(p));
            Valid(cfg, t) && !Closed(cfg, t, p) && CanStep(cfg, t, WinsMarker(p)) && t.rows == s.rows && t.written == s.written
  {
  }

  /** Nothing opens a closed payout again. */
  lemma ClosedStaysClosed(cfg: Config, s: State, ev: Event, p: nat)
    requires Valid(cfg, s) && CanStep(cfg, s, ev) && Closed(cfg, s, p)
    ensures Closed(cfg, Step(cfg, s, ev), p)
  {
  }

  lemma StepKeepsInv(cfg: Config, s: State, ev: Event)
    requires Inv(cfg, s) && Enabled(cfg, s, ev)
    ensures Inv(cfg, Step(cfg, s, ev))
  {
    match ev
    case CreditLands(p) => CreditKeepsInv(cfg, s, p);
    case Update(e) => UpdateKeepsInv(cfg, s, e);
    case _ => OtherStepsKeepInv(cfg, s, ev);
  }

  lemma OtherStepsKeepInv(cfg: Config, s: State, ev: Event)
    requires Inv(cfg, s) && Enabled(cfg, s, ev) && !ev.CreditLands? && !ev.Update?
    ensures Inv(cfg, Step(cfg, s, ev))
  {
    var t := Step(cfg, s, ev);
    forall p | Closed(cfg, s, p)
      ensures Closed(cfg, t, p)
    {
      ClosedStaysClosed(cfg, s, ev, p);
    }
    forall e | e in s.written
      ensures ExactlyOnce(cfg, t, e)
    {
      assert ExactlyOnce(cfg, s, e);
    }
    OtherStepsKeepRunSound(cfg, s, ev);
  }

  lemma OtherStepsKeepRunSound(cfg: Config, s: State, ev: Event)
    requires Inv(cfg, s) && Enabled(cfg, s, ev) && !ev.CreditLands? && !ev.Update?
    ensures Valid(cfg, Step(cfg, s, ev)) && RunSound(cfg, Step(cfg, s, ev))
  {
    var t := Step(cfg, s, ev);
    if t.run.Active? && s.run.Active? {
      assert Scanned(s.run.heads) <= Scanned(t.run.heads) by {
        assert forall c :: c in s.run.heads ==> c in t.run.heads && t.run.heads[c] == s.run.heads[c];
      }
      forall e | e in t.run.stored && e !in t.run.tried
        ensures Untouched(cfg, t, e)
      {
        assert Untouched(cfg, s, e);
      }
      forall c | c in t.run.heads
        ensures HeadSound(cfg, t, c)
      {
        if c in s.run.heads {
          assert HeadSound(cfg, s, c);
        }
      }
    }
  }

  lemma CreditKeepsInv(cfg: Config, s: State, p: nat)
    requires Inv(cfg, s) && Enabled(cfg, s, CreditLands(p))
    ensures Inv(cfg, Step(cfg, s, CreditLands(p)))
  {
    CreditKeepsClosed(cfg, s, p);
    CreditKeepsValid(cfg, s, p);
    CreditKeepsRunSound(cfg, s, p);
    CreditKeepsExact(cfg, s, p);
  }

  lemma CreditKeepsValid(cfg: Config, s: State, p: nat)
    requires Inv(cfg, s) && Enabled(cfg, s, CreditLands(p))
    ensures Valid(cfg, Step(cfg, s, CreditLands(p)))
    ensures forall q :: q in Step(cfg, s, CreditLands(p)).credited ==> Closed(cfg, Step(cfg, s, CreditLands(p)), q)
  {
    CreditKeepsClosed(cfg, s, p);
  }

  lemma CreditKeepsExact(cfg: Config, s: State, p: nat)
    requires Inv(cfg, s) && Enabled(cfg, s, CreditLands(p)) && Valid(cfg, Step(cfg, s, CreditLands(p)))
    ensures forall e :: e in Step(cfg, s, CreditLands(p)).written ==> ExactlyOnce(cfg, Step(cfg, s, CreditLands(p)), e)
  {
    assert Step(cfg, s, CreditLands(p)).written.Keys == s.written.Keys;
    forall e | e in s.written
      ensures ExactlyOnce(cfg, Step(cfg, s, CreditLands(p)), e)
    {
      if cfg.ledger[p].executor == e && !Closed(cfg, s, p) {
        CreditCountsOnce(cfg, s, p, e);
      } else {
        CreditLeavesOthers(cfg, s, p, e);
      }
    }
  }

  lemma CreditLeavesOthers(cfg: Config, s: State, p: nat, e: nat)
    requires Inv(cfg, s) && Enabled(cfg, s, CreditLands(p)) && Valid(cfg, Step(cfg, s, CreditLands(p)))
    requires e in s.written && (cfg.ledger[p].executor != e || Closed(cfg, s, p))
    ensures ExactlyOnce(cfg, Step(cfg, s, CreditLands(p)), e)
  {
    var t := Step(cfg, s, CreditLands(p));
    assert ExactlyOnce(cfg, s, e);
    OtherRowsStand(cfg, s, p, e);
    CreditKeepsClosed(cfg, s, p);
    assert NoneMissing(cfg, t.credited, t.written[e].counted + t.written[e].added, e);
  }

  lemma OtherRowsStand(cfg: Config, s: State, p: nat, e: nat)
    requires Valid(cfg, s) && CanStep(cfg, s, CreditLands(p))
    requires e in s.written && (cfg.ledger[p].executor != e || Closed(cfg, s, p))
    ensures var t := Step(cfg, s, CreditLands(p));
            && e in t.written && e in t.rows && t.rows[e] == s.rows[e] && t.written[e] == s.written[e]
            && OfExecutor(cfg, t.credited, e) == OfExecutor(cfg, s.credited, e)
  {
    var t := Step(cfg, s, CreditLands(p));
    assert cfg.ledger[p].executor != e ==> OfExecutor(cfg, t.credited, e) == OfExecutor(cfg, s.credited, e);
  }

  lemma CreditKeepsClosed(cfg: Config, s: State, p: nat)
    requires Valid(cfg, s) && CanStep(cfg, s, CreditLands(p))
    ensures forall q :: Closed(cfg, s, q) ==> Closed(cfg, Step(cfg, s, CreditLands(p)), q)
    ensures s.credited <= Step(cfg, s, CreditLands(p)).credited
  {
  }

  lemma CreditKeepsRunSound(cfg: Config, s: State, p: nat)
    requires Inv(cfg, s) && Enabled(cfg, s, CreditLands(p))
    ensures RunSound(cfg, Step(cfg, s, CreditLands(p)))
  {
    var t := Step(cfg, s, CreditLands(p));
    if t.run.Active? {
      forall e | e in t.run.stored && e !in t.run.tried
        ensures Untouched(cfg, t, e)
      {
        assert Untouched(cfg, s, e);
        if e != cfg.ledger[p].executor {
          assert OfExecutor(cfg, t.credited, e) == OfExecutor(cfg, s.credited, e);
        }
      }
      forall c | c in t.run.heads
        ensures HeadSound(cfg, t, c)
      {
        assert HeadSound(cfg, s, c);
      }
    }
  }

  lemma CreditCountsOnce(cfg: Config, s: State, p: nat, e: nat)
    requires Inv(cfg, s) && Enabled(cfg, s, CreditLands(p)) && !Closed(cfg, s, p) && Valid(cfg, Step(cfg, s, CreditLands(p)))
    requires e in s.written && cfg.ledger[p].executor == e
    ensures ExactlyOnce(cfg, Step(cfg, s, CreditLands(p)), e)
  {
    var t := Step(cfg, s, CreditLands(p));
    assert ExactlyOnce(cfg, s, e);
    RowIsCredited(cfg, s, p);
    OneMoreAddsUp(cfg, s.rows[e], s.written[e], e, p);
    CreditKeepsClosed(cfg, s, p);
    var was, now := s.written[e].counted + s.written[e].added, t.written[e].counted + t.written[e].added;
    assert now == was + {p};
    assert AllClosed(cfg, t, now, e);
    assert NoneMissing(cfg, t.credited, now, e);
  }

  lemma RowIsCredited(cfg: Config, s: State, p: nat)
    requires Valid(cfg, s) && CanStep(cfg, s, CreditLands(p)) && !Closed(cfg, s, p)
    requires cfg.ledger[p].executor in s.written
    ensures var t, e := Step(cfg, s, CreditLands(p)), cfg.ledger[p].executor;
            && e in t.rows && e in t.written
            && t.rows[e] == WithCredit(s.rows[e], cfg.ledger[p])
            && t.written[e] == s.written[e].(added := s.written[e].added + {p})
            && t.credited == s.credited + {p}
            && OfExecutor(cfg, t.credited, e) == OfExecutor(cfg, s.credited, e) + {p}
            && Closed(cfg, t, p)
  {
  }

  lemma UpdateKeepsInv(cfg: Config, s: State, e: nat)
    requires Inv(cfg, s) && Enabled(cfg, s, Update(e))
    ensures Inv(cfg, Step(cfg, s, Update(e)))
  {
    var t := Step(cfg, s, Update(e));
    forall d | d in t.written
      ensures ExactlyOnce(cfg, t, d)
    {
      if d == e && Writes(cfg, s, e) {
        WrittenRowIsExact(cfg, s, e);
      } else {
        assert ExactlyOnce(cfg, s, d);
      }
    }
    UpdateKeepsRunSound(cfg, s, e);
  }

  lemma UpdateKeepsRunSound(cfg: Config, s: State, e: nat)
    requires Inv(cfg, s) && Enabled(cfg, s, Update(e))
    ensures Valid(cfg, Step(cfg, s, Update(e))) && RunSound(cfg, Step(cfg, s, Update(e)))
  {
    var t := Step(cfg, s, Update(e));
    forall d | d in t.run.stored && d !in t.run.tried
      ensures Untouched(cfg, t, d)
    {
      assert Untouched(cfg, s, d);
    }
    forall c | c in t.run.heads
      ensures HeadSound(cfg, t, c)
    {
      assert HeadSound(cfg, s, c);
    }
  }

  /** The update writes only a row no credit reached since it was read, so what it writes is exact. */
  lemma WrittenRowIsExact(cfg: Config, s: State, e: nat)
    requires Inv(cfg, s) && CanStep(cfg, s, Update(e)) && Writes(cfg, s, e)
    requires cfg.durable || s.inFlight !! OfExecutor(cfg, Scanned(s.run.heads), e)
    ensures var t := Step(cfg, s, Update(e));
            ExactlyOnce(cfg, t, e) && t.written[e].added == {} && IsFixOf(cfg, t.rows[e], s.run.stored[e], Scanned(s.run.heads), e)
  {
    var t := Step(cfg, s, Update(e));
    var n := |cfg.ledger|;
    var ids := Scanned(s.run.heads);
    FixedIsFix(cfg, s.run.stored[e], ids, e);
    FixedAddsUp(cfg, s.run.stored[e], ids, e);
    forall p | p in OfExecutor(cfg, s.credited, e) && cfg.ledger[p].chain in cfg.chains
      ensures p in t.written[e].counted
    {
      assert Untouched(cfg, s, e);
      assert HeadSound(cfg, s, cfg.ledger[p].chain);
    }
    forall p | p in t.written[e].counted
      ensures Closed(cfg, t, p)
    {
      assert p in ids;
    }
  }

  ghost predicate IsRun(cfg: Config, states: seq<State>, events: seq<Event>) {
    && |states| == |events| + 1
    && Initial(cfg, states[0])
    && forall i :: 0 <= i < |events| ==>
         Valid(cfg, states[i]) && Enabled(cfg, states[i], events[i]) && states[i + 1] == Step(cfg, states[i], events[i])
  }

  /** Any rows, markers and credits an earlier backend or a dead backfill left; nothing credited is open. */
  ghost predicate Initial(cfg: Config, s: State) {
    && Valid(cfg, s) && s.run.Idle? && s.written == map[]
    && forall p :: p in s.credited ==> Closed(cfg, s, p)
  }

  /**
   In every interleaving of the backfill with the live backend, every row a guarded UPDATE
   wrote counts each payout exactly once from then on.
   */
  lemma {:induction false} WrittenRowsAreExactInEveryRun(cfg: Config, states: seq<State>, events: seq<Event>)
    requires IsRun(cfg, states, events)
    ensures forall i :: 0 <= i < |states| ==> Inv(cfg, states[i])
    decreases |events|
  {
    if events == [] {
    } else {
      var n := |events| - 1;
      assert forall i :: 0 <= i <= n ==> states[..n + 1][i] == states[i];
      assert forall i :: 0 <= i < n ==> events[..n][i] == events[i];
      WrittenRowsAreExactInEveryRun(cfg, states[..n + 1], events[..n]);
      assert states[n + 1] == Step(cfg, states[n], events[n]);
      StepKeepsInv(cfg, states[n], events[n]);
    }
  }

  /** Payouts never leave the chain. */
  lemma {:induction false} SettledStays(cfg: Config, states: seq<State>, events: seq<Event>, i: nat, j: nat)
    requires IsRun(cfg, states, events) && i <= j < |states|
    ensures states[i].settled <= states[j].settled
    decreases j - i
  {
    if i < j {
      assert states[i + 1] == Step(cfg, states[i], events[i]);
      SettledStays(cfg, states, events, i + 1, j);
    }
  }

  /** What settled before a run read the rows stays on record while that run goes on. */
  lemma {:induction false} RunRemembersItsRead(cfg: Config, states: seq<State>, events: seq<Event>, k: nat, j: nat)
    requires IsRun(cfg, states, events) && k < j < |states| && events[k].ReadRows?
    requires forall m :: k < m < j ==> !events[m].Dies?
    ensures states[j].run.Active? && states[j].run.settledAtRead == states[k].settled
    decreases j
  {
    assert states[j] == Step(cfg, states[j - 1], events[j - 1]);
    if k + 1 < j {
      RunRemembersItsRead(cfg, states, events, k, j - 1);
    }
  }

  /**
   An update of a row no credit reached leaves it at its totals, written or already there, and these
   count what had settled on the chains scanned when its run read the rows.
   */
  lemma UpdateCounts(cfg: Config, s: State, e: nat, p: nat)
    requires Inv(cfg, s) && Enabled(cfg, s, Update(e)) && e in s.rows && s.rows[e] == s.run.stored[e]
    requires p < |cfg.ledger| && cfg.ledger[p].executor == e && cfg.ledger[p].chain in cfg.chains && p in s.run.settledAtRead
    ensures var t := Step(cfg, s, Update(e));
            && p in OfExecutor(cfg, Scanned(s.run.heads), e)
            && e in t.rows && IsFixOf(cfg, t.rows[e], s.run.stored[e], Scanned(s.run.heads), e)
            && (Writes(cfg, s, e) ==> e in t.written && p in t.written[e].counted)
  {
    assert HeadSound(cfg, s, cfg.ledger[p].chain);
    FixedIsFix(cfg, s.run.stored[e], Scanned(s.run.heads), e);
  }

  lemma MarkedIsOnItsChain(cfg: Config, s: State, p: nat)
    requires Inv(cfg, s) && s.run.Active? && p in s.run.marked && p < |cfg.ledger|
    ensures cfg.ledger[p].chain in cfg.chains && p in s.settled
  {
    var d :| d in s.run.heads && p in s.run.heads[d];
    assert HeadSound(cfg, s, d);
  }

  /**
   A run that died after claiming leaves its payouts uncredited; a later run heals that: each row no
   credit moved meanwhile ends at totals, written or found already there, that hold every payout of
   it the dead run had claimed.
   */
  lemma DeadRunIsHealed(cfg: Config, states: seq<State>, events: seq<Event>, i: nat, k: nat, j: nat, e: nat, p: nat)
    requires IsRun(cfg, states, events) && i <= k < j < |events|
    requires states[i].run.Active? && p in states[i].run.marked && p < |cfg.ledger| && cfg.ledger[p].executor == e
    requires events[k].ReadRows? && (forall m :: k < m < j ==> !events[m].Dies?)
    requires events[j] == Update(e) && states[j].run.Active? && e in states[j].run.stored
    requires e in states[j].rows && states[j].rows[e] == states[j].run.stored[e]
    ensures var ids := Scanned(states[j].run.heads);
            && p in OfExecutor(cfg, ids, e)
            && e in states[j + 1].rows && IsFixOf(cfg, states[j + 1].rows[e], states[j].run.stored[e], ids, e)
            && (Writes(cfg, states[j], e) ==> e in states[j + 1].written && p in states[j + 1].written[e].counted && ExactlyOnce(cfg, states[j + 1], e))
  {
    WrittenRowsAreExactInEveryRun(cfg, states, events);
    assert Inv(cfg, states[i]) && Inv(cfg, states[j]) && Inv(cfg, states[j + 1]);
    MarkedIsOnItsChain(cfg, states[i], p);
    SettledStays(cfg, states, events, i, k);
    RunRemembersItsRead(cfg, states, events, k, j);
    UpdateCounts(cfg, states[j], e, p);
    assert states[j + 1] == Step(cfg, states[j], events[j]);
  }

  /**
   The wait is needed exactly when the marker is the only gate: the row an update writes is
   exact if and only if no counted payout of that row has a credit under way.
   */
  lemma MarkerAloneNeedsTheWait(cfg: Config, s: State, e: nat)
    requires Inv(cfg, s) && !cfg.durable && CanStep(cfg, s, Update(e)) && Writes(cfg, s, e)
    ensures Valid(cfg, Step(cfg, s, Update(e)))
    ensures ExactlyOnce(cfg, Step(cfg, s, Update(e)), e)
            <==> s.inFlight !! OfExecutor(cfg, Scanned(s.run.heads), e)
  {
    var t := Step(cfg, s, Update(e));
    if s.inFlight !! OfExecutor(cfg, Scanned(s.run.heads), e) {
      WrittenRowIsExact(cfg, s, e);
    }
    if ExactlyOnce(cfg, t, e) {
      forall p | p in OfExecutor(cfg, Scanned(s.run.heads), e)
        ensures p !in s.inFlight
      {
        assert p in t.written[e].counted;
      }
    }
  }

  /** Without it, a credit under way for a counted payout lands on top of the totals that hold it. */
  lemma UnwaitedCreditCountsTwice(cfg: Config, s: State, e: nat, p: nat)
    requires Inv(cfg, s) && !cfg.durable && CanStep(cfg, s, Update(e)) && Writes(cfg, s, e)
    requires p in s.inFlight && p in OfExecutor(cfg, Scanned(s.run.heads), e)
    ensures var t := Step(cfg, s, Update(e));
            && Valid(cfg, t) && CanStep(cfg, t, CreditLands(p))
            && var u := Step(cfg, t, CreditLands(p));
               p in u.written[e].counted && p in u.written[e].added && u.rows[e] == WithCredit(t.rows[e], cfg.ledger[p])
  {
  }

  /**
   A chain left out of the scan is lost from the rows written: right after an update, the
   totals hold every payout credited to that row if and only if all of them are on scanned chains.
   */
  lemma UnscannedChainsAreLost(cfg: Config, s: State, e: nat)
    requires Inv(cfg, s) && Enabled(cfg, s, Update(e)) && Writes(cfg, s, e)
    ensures var t := Step(cfg, s, Update(e));
            OfExecutor(cfg, s.credited, e) <= t.written[e].counted
            <==> forall p :: p in OfExecutor(cfg, s.credited, e) ==> cfg.ledger[p].chain in cfg.chains
  {
    var t := Step(cfg, s, Update(e));
    WrittenRowIsExact(cfg, s, e);
    forall p | p in t.written[e].counted
      ensures cfg.ledger[p].chain in cfg.chains
    {
      var c :| c in s.run.heads && p in s.run.heads[c];
      assert HeadSound(cfg, s, c);
    }
  }
}
