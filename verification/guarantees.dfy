/** The run-level guarantees of the concurrent engine, read off its invariant, and the
    races that bound them. */
module Guarantees {
  import opened Domain
  import opened Ledger
  import opened Books
  import opened Accounts
  import opened SideStores
  import opened Matcher
  import opened Worker
  import opened Machine
  import opened Safety
  import opened Traces
  import opened Int64
  import opened Views
  import SuspenseService
  import WithdrawalService

  /** Under every interleaving: each transaction has exactly its two balanced rows and no
      row is orphaned; each has at most one suspense item, and only if its credit row is
      on suspense; each fulfils at most one collection, and only if its credit row is on a
      wallet, its account is the collection's, and the amount is the expected one. */
  lemma NoDoublePosting(env: Env, events: seq<Event>)
    ensures var sh := Exec(Boot(env), events).sh;
            && (forall id <- sh.book.txns :: Balanced(sh.book.txns[id], RowsOf(sh.book.rows, id)))
            && (forall r <- sh.book.rows :: r.entry.tx in sh.book.txns)
            && (forall i, j :: 0 <= i < j < |sh.items| ==> sh.items[i].tx != sh.items[j].tx)
            && (forall it <- sh.items :: Suspensed(sh.book, it.tx))
            && (forall c <- sh.collections :: c.status.Fulfilled? ==>
                  && Credited(sh.book, c.status.tx)
                  && sh.book.txns[c.status.tx].va == Some(c.va)
                  && (c.expected == None || c.expected == Some(sh.book.txns[c.status.tx].amount)))
            && (forall i, j :: 0 <= i < j < |sh.collections| && sh.collections[i].status.Fulfilled? ==>
                  sh.collections[j].status != sh.collections[i].status)
  {
    ReachableInv(env, events);
  }

  /** Under every interleaving and crash: suspense holds exactly the suspensed credits not
      released, less reversals; the rows of a released item's resolution moved its original
      amount from suspense to one wallet; and every item marked as reassigned is released. */
  lemma SuspenseIsConserved(env: Env, events: seq<Event>)
    ensures var sh := Exec(Boot(env), events).sh;
            && BalanceOf(sh.book, Suspense)
               == Sum(sh.book.rows, HeldExcept(Released(sh.items, sh.book.txns)))
                  - Sum(sh.book.rows, ReversedFrom(Suspense))
            && (forall k :: 0 <= k < |sh.items| && ResolutionTx(k) in sh.book.txns ==>
                  var rows := RowsOf(sh.book.rows, ResolutionTx(k));
                  && sh.items[k].tx in sh.book.txns
                  && |rows| == 2
                  && rows[0].entry.account == Suspense && rows[1].entry.account.Wallet?
                  && rows[0].entry.amount == rows[1].entry.amount == sh.book.txns[sh.items[k].tx].amount)
            && (forall k :: 0 <= k < |sh.items| && sh.items[k].status == Reassigned ==> ResolutionTx(k) in sh.book.txns)
  {
    ReachableInv(env, events);
    var sh := Exec(Boot(env), events).sh;
    forall k | 0 <= k < |sh.items| && ResolutionTx(k) in sh.book.txns
      ensures Balanced(sh.book.txns[ResolutionTx(k)], RowsOf(sh.book.rows, ResolutionTx(k)))
      ensures sh.book.txns[ResolutionTx(k)].id == ResolutionTx(k)
    {
    }
  }

  /** The one pair of rows that a withdrawal may have. */
  predicate IsPayout(rows: seq<Row>, w: nat, record: Withdrawal) {
    && |rows| == 2
    && rows[0].entry == Entry(WithdrawalTx(w), Wallet(record.customer), Debit, record.amount)
    && rows[1].entry == Entry(WithdrawalTx(w), Settlement, Credit, record.amount)
  }

  /** Under every interleaving and crash: a completed withdrawal has exactly one pair of
      rows, for its amount from its customer's wallet, and a failed one has none. */
  lemma WithdrawalsMatchTheirRows(env: Env, events: seq<Event>, w: nat)
    requires w < |Exec(Boot(env), events).sh.withdrawals|
    ensures var sh := Exec(Boot(env), events).sh;
            var rows := RowsOf(sh.book.rows, WithdrawalTx(w));
            && (sh.withdrawals[w].status == Completed ==> IsPayout(rows, w, sh.withdrawals[w]))
            && (sh.withdrawals[w].status == Failed ==> rows == [])
            && (rows == [] || IsPayout(rows, w, sh.withdrawals[w]))
  {
    ReachableInv(env, events);
    var sh := Exec(Boot(env), events).sh;
    var id := WithdrawalTx(w);
    if id in sh.book.txns {
      assert Balanced(sh.book.txns[id], RowsOf(sh.book.rows, id));
    } else {
      NoRowsOfUnknown(sh.book.rows, id);
    }
  }

  /** Under every interleaving settlement, suspense and all wallets sum to zero. */
  lemma MoneyConservedInEveryRun(env: Env, events: seq<Event>, customers: seq<string>)
    requires Distinct(customers)
    requires forall r <- Exec(Boot(env), events).sh.book.rows ::
               r.entry.account.Wallet? ==> r.entry.account.customer in customers
    ensures var b := Exec(Boot(env), events).sh.book;
            BalanceOf(b, Settlement) + BalanceOf(b, Suspense) + SumBalances(b.rows, customers) == 0
  {
    ReachableInv(env, events);
    MoneyIsConserved(Exec(Boot(env), events).sh.book, customers);
  }

  /** Under every interleaving, as long as the amounts ever posted total less than 2^63, no
      partial sum of a balance or daily-credit loop, nor any debit or credit total, leaves
      the range of a 64-bit integer. */
  lemma NothingOverflowsInAnyRun(env: Env, events: seq<Event>, m: Measure, k: nat)
    requires Bounded(Exec(Boot(env), events).sh.book) && k <= |Exec(Boot(env), events).sh.book.rows|
    requires m.Balance? || m.BalanceBefore? || m.CreditsOn?
    ensures var rows := Exec(Boot(env), events).sh.book.rows[..k];
            Fits(Sum(rows, m)) && Fits(Sum(rows, Debits)) && Fits(Sum(rows, Credits))
  {
    ReachableInv(env, events);
    NoPartialSumOverflows(Exec(Boot(env), events).sh.book, m, k);
  }

  /** Under every interleaving, below the same total, no running balance of a statement wraps. */
  lemma StatementsFitInAnyRun(
    env: Env, events: seq<Event>, s: Statement, ms: seq<Movement>, a: Account, from: int, to: int, n: nat)
    requires Bounded(Exec(Boot(env), events).sh.book)
    requires IsStatement(s, ms, Exec(Boot(env), events).sh.book.rows, a, from, to) && n <= |ms|
    ensures s.opening == Sum(Exec(Boot(env), events).sh.book.rows, BalanceBefore(a, from))
    ensures Fits(s.opening + Total(ms, n))
  {
    ReachableInv(env, events);
    RunningBalancesFit(s, ms, Exec(Boot(env), events).sh.book, a, from, to, n);
  }

  // ── History is append-only ────────────────────────────────────────────────

  predicate CollectionEvolves(was: Collection, now: Collection) {
    && now == was.(status := now.status)
    && (was.status != CollOpen ==> now.status == was.status)
  }

  /** The ledger only grows; items and collections are never removed; a decided
      collection or item is decided for good, and an item never changes transaction. */
  ghost predicate Extends(was: Shared, now: Shared) {
    && was.book.rows <= now.book.rows
    && (forall id <- was.book.txns :: id in now.book.txns && now.book.txns[id] == was.book.txns[id])
    && |was.items| <= |now.items|
    && (forall k :: 0 <= k < |was.items| ==>
          && now.items[k].tx == was.items[k].tx && now.items[k].reason == was.items[k].reason
          && (was.items[k].status != Open ==> now.items[k].status == was.items[k].status))
    && |was.collections| <= |now.collections|
    && (forall c :: 0 <= c < |was.collections| ==> CollectionEvolves(was.collections[c], now.collections[c]))
  }

  lemma EventExtends(s: System, e: Event)
    ensures Extends(s.sh, Occur(s, e).sh)
  {}

  lemma {:induction false} RunsExtend(s: System, more: seq<Event>)
    ensures Extends(s.sh, Exec(s, more).sh)
  {
    if more != [] {
      RunsExtend(s, more[..|more| - 1]);
      EventExtends(Exec(s, more[..|more| - 1]), more[|more| - 1]);
    }
  }

  lemma RowsOfPrefix(rows: seq<Row>, more: seq<Row>, id: TxID)
    requires rows <= more
    ensures RowsOf(rows, id) <= RowsOf(more, id)
  {
    assert more == rows + more[|rows|..];
    RowsOfAppend(rows, more[|rows|..], id);
  }

  /** Money for one item leaves suspense at most once: the rows of its resolution never
      change again, however often it is retried or raced with other targets. */
  lemma FirstResolutionIsFinal(env: Env, events: seq<Event>, more: seq<Event>, k: nat)
    requires ResolutionTx(k) in Exec(Boot(env), events).sh.book.txns
    ensures var was, now := Exec(Boot(env), events).sh.book, Exec(Boot(env), events + more).sh.book;
            ResolutionTx(k) in now.txns && RowsOf(now.rows, ResolutionTx(k)) == RowsOf(was.rows, ResolutionTx(k))
  {
    FoldAppend(Occur, Boot(env), events, more);
    RunsExtend(Exec(Boot(env), events), more);
    ReachableInv(env, events);
    ReachableInv(env, events + more);
    var was, now := Exec(Boot(env), events).sh.book, Exec(Boot(env), events + more).sh.book;
    RowsOfPrefix(was.rows, now.rows, ResolutionTx(k));
    assert Balanced(was.txns[ResolutionTx(k)], RowsOf(was.rows, ResolutionTx(k)));
    assert Balanced(now.txns[ResolutionTx(k)], RowsOf(now.rows, ResolutionTx(k)));
  }

  // ── A run alone does what the atomic operation does ───────────────────────

  datatype Point = Point(sh: Shared, run: Run)

  /** Let one run take its steps with no failure and nobody in between. */
  function Alone(p: Point, steps: nat): Point
    decreases steps
  {
    if steps == 0 then p
    else
      var next := Advance(p.sh, p.run, true);
      Alone(Point(next.0, next.1), steps - 1)
  }

  ghost predicate Reaches(p: Point, q: Point) { exists n: nat :: Alone(p, n) == q }

  lemma {:induction false} AloneSteps(p: Point, a: nat, b: nat)
    ensures Alone(p, a + b) == Alone(Alone(p, a), b)
    decreases a
  {
    hide Advance;
    if a > 0 {
      var next := Advance(p.sh, p.run, true);
      AloneSteps(Point(next.0, next.1), a - 1, b);
    }
  }

  lemma Onward(p: Point, q: Point, r: Point)
    requires Reaches(p, q) && Reaches(q, r)
    ensures Reaches(p, r)
  {
    var a: nat :| Alone(p, a) == q;
    var b: nat :| Alone(q, b) == r;
    AloneSteps(p, a, b);
  }

  lemma OneStep(p: Point)
    ensures var next := Advance(p.sh, p.run, true); Reaches(p, Point(next.0, next.1))
  {
    var next := Advance(p.sh, p.run, true);
    var one := 1;
    assert Alone(Point(next.0, next.1), 0) == Point(next.0, next.1);
    assert Alone(p, one) == Point(next.0, next.1);
  }

  lemma AtOnce(p: Point)
    ensures Reaches(p, p)
  {
    assert Alone(p, 0) == p;
  }

  lemma ReadOnward(sh: Shared, r: Run, q: Point)
    requires !Writes(r) && Reaches(Point(sh, ReadStep(sh, r)), q)
    ensures Reaches(Point(sh, r), q)
  {
    OneStep(Point(sh, r));
    Onward(Point(sh, r), Point(sh, ReadStep(sh, r)), q);
  }

  function Posted(sh: Shared, tx: Transaction, entries: seq<Entry>, next: After): Point {
    Point(sh.(book := Post(sh.book, tx, entries)), AfterPost(tx, next, tx.id !in sh.book.txns))
  }

  lemma PostOnward(sh: Shared, tx: Transaction, entries: seq<Entry>, next: After, q: Point)
    requires Reaches(Posted(sh, tx, entries, next), q)
    ensures Reaches(Point(sh, Posting(tx, entries, next)), q)
  {
    OneStep(Point(sh, Posting(tx, entries, next)));
    Onward(Point(sh, Posting(tx, entries, next)), Posted(sh, tx, entries, next), q);
  }

  /** A credit bound for suspense: post, then on creation record the item. */
  function SuspenseEnd(sh: Shared, tx: Transaction, entries: seq<Entry>, reason: Reason): Point {
    if tx.id in sh.book.txns then Point(sh, Done)
    else Point(sh.(book := Post(sh.book, tx, entries), items := sh.items + [Item(tx.id, reason, Open)]), Done)
  }

  lemma SuspenseTail(sh: Shared, tx: Transaction, entries: seq<Entry>, reason: Reason)
    ensures Reaches(Point(sh, Posting(tx, entries, ThenItem(reason))), SuspenseEnd(sh, tx, entries, reason))
  {
    var p := Posted(sh, tx, entries, ThenItem(reason));
    if tx.id in sh.book.txns {
      assert p == Point(sh, Done);
      AtOnce(p);
    } else {
      OneStep(p);
    }
    PostOnward(sh, tx, entries, ThenItem(reason), SuspenseEnd(sh, tx, entries, reason));
  }

  function FindEnd(sh: Shared, id: TxID, va: nat, amount: int): Point {
    Point(sh.(collections := TryFulfil(sh.collections, va, id, amount, sh.env.now)), Done)
  }

  lemma FindTail(sh: Shared, id: TxID, va: nat, amount: int)
    ensures Reaches(Point(sh, Finding(id, va, amount)), FindEnd(sh, id, va, amount))
  {
    var c := FindOpen(sh.collections, va, amount, sh.env.now);
    var q := FindEnd(sh, id, va, amount);
    if c.None? {
      assert q == Point(sh, Done);
      AtOnce(q);
    } else {
      OneStep(Point(sh, Fulfilling(id, c.value, amount)));
    }
    ReadOnward(sh, Finding(id, va, amount), q);
  }

  /** A credit bound for a wallet: post, then on creation find and fulfil. */
  function WalletEnd(sh: Shared, tx: Transaction, entries: seq<Entry>, va: nat): Point {
    if tx.id in sh.book.txns then Point(sh, Done)
    else FindEnd(sh.(book := Post(sh.book, tx, entries)), tx.id, va, tx.amount)
  }

  lemma WalletTail(sh: Shared, tx: Transaction, entries: seq<Entry>, va: nat)
    ensures Reaches(Point(sh, Posting(tx, entries, ThenFind(va))), WalletEnd(sh, tx, entries, va))
  {
    var p := Posted(sh, tx, entries, ThenFind(va));
    if tx.id in sh.book.txns {
      assert p == Point(sh, Done);
      AtOnce(p);
    } else {
      FindTail(p.sh, tx.id, va, tx.amount);
    }
    PostOnward(sh, tx, entries, ThenFind(va), WalletEnd(sh, tx, entries, va));
  }

  /** The posting that the atomic decision leads to. */
  function Decided(sh: Shared, item: WorkItem): Point
    requires item.payment.amount > 0
  {
    Point(sh, PostingOf(item, Decision(RouteOf(sh.env, sh.book, item.payment), item.payment).value))
  }

  /** The decision phase, from the tier reads backwards to the match. */
  lemma DecisionPhase(sh: Shared, item: WorkItem, q: Point)
    requires item.event == PaymentSuccess && item.payment.amount > 0
    requires Reaches(Decided(sh, item), q)
    ensures Reaches(Point(sh, Matching(item)), q)
  {
    var r := MatchStep(sh, item);
    if r.Identifying? {
      TierPhase(sh, item, r.match0, q);
    } else {
      assert Decided(sh, item) == Point(sh, r);
    }
    ReadOnward(sh, Matching(item), q);
  }

  lemma TierPhase(sh: Shared, item: WorkItem, m: MatchResult, q: Point)
    requires item.event == PaymentSuccess && item.payment.amount > 0
    requires MatchStep(sh, item) == Identifying(item, m)
    requires Reaches(Decided(sh, item), q)
    ensures Reaches(Point(sh, Identifying(item, m)), q)
  {
    hide Sum, RowsOf, Effect, ScanRef, ScanNUBAN, Alone;
    var r := ReadStep(sh, Identifying(item, m));
    if r.TierReading? {
      var r' := ReadStep(sh, r);
      if r'.DailyReading? {
        assert Decided(sh, item) == Point(sh, ReadStep(sh, r'));
        ReadOnward(sh, r', q);
      } else {
        assert Decided(sh, item) == Point(sh, r');
      }
      ReadOnward(sh, r, q);
    } else {
      assert Decided(sh, item) == Point(sh, r);
    }
    ReadOnward(sh, Identifying(item, m), q);
  }

  function StoresOf(sh: Shared): Stores { Stores(sh.book, sh.items, sh.collections) }

  /** Where the atomic operation ends. */
  function AtomicEnd(sh: Shared, item: WorkItem): Point {
    var st := Absorb(StoresOf(sh), sh.env, item);
    Point(sh.(book := st.book, items := st.items, collections := st.collections), Done)
  }

  lemma CreditAlone(sh: Shared, item: WorkItem)
    requires item.event == PaymentSuccess && item.payment.amount > 0
    ensures Reaches(Point(sh, Matching(item)), AtomicEnd(sh, item))
  {
    var route := RouteOf(sh.env, sh.book, item.payment);
    var m := Decision(route, item.payment).value;
    match route {
      case WalletRoute(va, customer) =>
        WalletTail(sh, TxOf(item, m.va), m.entries, va);
        assert WalletEnd(sh, TxOf(item, m.va), m.entries, va) == AtomicEnd(sh, item);
      case SuspenseRoute(via, reason) =>
        SuspenseTail(sh, TxOf(item, m.va), m.entries, reason);
        assert SuspenseEnd(sh, TxOf(item, m.va), m.entries, reason) == AtomicEnd(sh, item);
    }
    DecisionPhase(sh, item, AtomicEnd(sh, item));
  }

  /** A credit whose customer cannot be looked up is not checked against the caps: it ends as
      the atomic operation does where nobody is found. */
  lemma UnidentifiedCreditAbsorbs(sh: Shared, item: WorkItem, m: MatchResult)
    requires item.event == PaymentSuccess && item.payment.amount > 0
    requires MatchStep(sh, item) == Identifying(item, m)
    ensures var (sh', posting) := Advance(sh, Identifying(item, m), false);
            var nobody := sh.(env := sh.env.(customers := map[]));
            Reaches(Point(sh', posting), Point(AtomicEnd(nobody, item).sh.(env := sh.env), Done))
  {
    hide Sum, ScanRef, ScanNUBAN, Alone;
    WalletTail(sh, TxOf(item, m.va), m.entries, m.va.value);
  }

  lemma ReversalAlone(sh: Shared, item: WorkItem)
    requires item.event == PaymentReversal && item.payment.amount > 0
    ensures Reaches(Point(sh, Matching(item)), AtomicEnd(sh, item))
  {
    var r := MatchStep(sh, item);
    assert Posted(sh, r.tx, r.entries, r.next) == AtomicEnd(sh, item);
    AtOnce(AtomicEnd(sh, item));
    PostOnward(sh, r.tx, r.entries, r.next, AtomicEnd(sh, item));
    ReadOnward(sh, Matching(item), AtomicEnd(sh, item));
  }

  /** Either entry point: the queue hands over a postable event, the sweep checks first. */
  function EntryOf(item: WorkItem, direct: bool): Run { if direct then Checking(item) else StartOf(item) }

  /** A queue-path or direct-path run that meets no failure and no interleaving leaves the
      stores as the atomic operation does, whatever the item. */
  lemma RunAloneAbsorbs(sh: Shared, item: WorkItem, direct: bool)
    ensures Reaches(Point(sh, EntryOf(item, direct)), AtomicEnd(sh, item))
  {
    if Postable(item) {
      if item.event == PaymentSuccess { CreditAlone(sh, item); } else { ReversalAlone(sh, item); }
    } else {
      assert AtomicEnd(sh, item) == Point(sh, Done);
      AtOnce(Point(sh, Done));
      if StartOf(item).Matching? { ReadOnward(sh, Matching(item), Point(sh, Done)); }
    }
    if direct {
      if ProviderTx(item.payment.id) in sh.book.txns {
        assert AtomicEnd(sh, item) == Point(sh, Done);
        AtOnce(Point(sh, Done));
      }
      ReadOnward(sh, Checking(item), AtomicEnd(sh, item));
    }
  }

  // ── Resolutions and withdrawals alone ─────────────────────────────────────

  function ResolutionEnd(sh: Shared, sid: nat, r: SuspenseService.Resolution): Point {
    var st := SuspenseService.ResolveEffect(StoresOf(sh), sh.env, sid, r);
    Point(sh.(book := st.book, items := st.items), Done)
  }

  /** A reassignment past its first read, when nothing has happened since. */
  lemma ReassignmentTail(sh: Shared, sid: nat, target: string, tenant: string)
    requires sid < |sh.items| && sh.items[sid].status == Open
    requires target != "" && GetCustomer(sh.env, tenant, target).Some?
    ensures Reaches(Point(sh, ReadingOriginal(sid, target)),
                    ResolutionEnd(sh, sid, SuspenseService.Reassign(target, tenant)))
  {
    hide Alone, Sum, RowsOf, Effect, ScanStatus;
    var q := ResolutionEnd(sh, sid, SuspenseService.Reassign(target, tenant));
    var r := ReadStep(sh, ReadingOriginal(sid, target));
    if r.Posting? {
      var p := Posted(sh, r.tx, r.entries, r.next);
      OneStep(p);
      PostOnward(sh, r.tx, r.entries, r.next, q);
    } else {
      AtOnce(q);
    }
    ReadOnward(sh, ReadingOriginal(sid, target), q);
  }

  /** A resolution that meets no failure and no interleaving does what the atomic one does. */
  lemma ResolutionAloneResolves(sh: Shared, sid: nat, r: SuspenseService.Resolution)
    ensures Reaches(Point(sh, ReadingItem(sid, r)), ResolutionEnd(sh, sid, r))
  {
    hide Alone, Sum, RowsOf, Effect, ScanStatus;
    var next := ReadStep(sh, ReadingItem(sid, r));
    match next {
      case ReadingOriginal(_, target) => ReassignmentTail(sh, sid, target, r.tenant);
      case MarkingItem(_, _) => OneStep(Point(sh, next));
      case _ => AtOnce(Point(sh, next));
    }
    ReadOnward(sh, ReadingItem(sid, r), ResolutionEnd(sh, sid, r));
  }

  function WithdrawalEnd(sh: Shared, req: WithdrawalService.Request): Point {
    var o := WithdrawalService.InitiateEffect(WithdrawalService.Outbound(sh.book, sh.withdrawals), sh.env, req, true);
    Point(sh.(book := o.book, withdrawals := o.withdrawals), Done)
  }

  lemma PayoutTail(sh: Shared, w: nat, req: WithdrawalService.Request)
    requires w < |sh.withdrawals| && req.amount > 0
    ensures var tx := WithdrawalService.WithdrawalOf(
              w, ScanStatus(sh.env.accounts, req.customer, Active), req.amount, sh.env.now);
            Reaches(Point(sh, Transferring(w, req)),
                    Point(sh.(book := PostMove(sh.book, tx, Wallet(req.customer), Settlement),
                              withdrawals := sh.withdrawals[w := sh.withdrawals[w].(status := Completed)]), Done))
  {
    hide Alone, Sum, RowsOf, Effect, ScanStatus;
    var start := Point(sh, Transferring(w, req));
    var p := Advance(sh, Transferring(w, req), true).1;
    var marking := Posted(sh, p.tx, p.entries, p.next);
    OneStep(marking);
    var end := Advance(marking.sh, marking.run, true);
    PostOnward(sh, p.tx, p.entries, p.next, Point(end.0, end.1));
    OneStep(start);
    Onward(start, Point(sh, p), Point(end.0, end.1));
  }

  /** A withdrawal whose transfer succeeds, with no failure and no interleaving, does what
      the atomic one does. */
  lemma WithdrawalAlonePays(sh: Shared, req: WithdrawalService.Request)
    ensures Reaches(Point(sh, CheckingFunds(req)), WithdrawalEnd(sh, req))
  {
    hide Alone, Sum, RowsOf, Effect, ScanStatus;
    var q := WithdrawalEnd(sh, req);
    if WithdrawalService.Accepts(sh.book, sh.env, req) {
      var next := Advance(sh, Recording(req), true);
      PayoutTail(next.0, |sh.withdrawals|, req);
      OneStep(Point(sh, Recording(req)));
      Onward(Point(sh, Recording(req)), Point(next.0, next.1), q);
    } else {
      AtOnce(q);
    }
    ReadOnward(sh, CheckingFunds(req), q);
  }

  function FailedWithdrawalEnd(sh: Shared, req: WithdrawalService.Request): Point {
    var o := WithdrawalService.InitiateEffect(WithdrawalService.Outbound(sh.book, sh.withdrawals), sh.env, req, false);
    Point(sh.(book := o.book, withdrawals := o.withdrawals), Done)
  }

  /** An accepted withdrawal reaches its transfer, and if the provider fails it, with no other
      failure and no interleaving, does what the atomic one does. */
  lemma WithdrawalAloneFails(sh: Shared, req: WithdrawalService.Request)
    requires WithdrawalService.Accepts(sh.book, sh.env, req)
    ensures var recorded := Advance(sh, Recording(req), true);
            var failed := Advance(recorded.0, recorded.1, false);
            && recorded.1.Transferring?
            && Reaches(Point(sh, CheckingFunds(req)), Point(recorded.0, recorded.1))
            && Reaches(Point(failed.0, failed.1), FailedWithdrawalEnd(sh, req))
  {
    hide Alone, Sum, RowsOf, Effect, ScanStatus;
    var recorded := Advance(sh, Recording(req), true);
    OneStep(Point(sh, Recording(req)));
    ReadOnward(sh, CheckingFunds(req), Point(recorded.0, recorded.1));
    var failed := Advance(recorded.0, recorded.1, false);
    OneStep(Point(failed.0, failed.1));
  }

  /** A cancellation left alone cancels an open collection and leaves any other as it is. */
  lemma CancellationAloneCancels(sh: Shared, c: nat)
    ensures Reaches(Point(sh, ReadingCollection(c)), Point(sh.(collections := Cancel(sh.collections, c)), Done))
  {
    hide Alone;
    var q := Point(sh.(collections := Cancel(sh.collections, c)), Done);
    if c < |sh.collections| && sh.collections[c].status == CollOpen {
      OneStep(Point(sh, Cancelling(c)));
    } else {
      assert q == Point(sh, Done);
      AtOnce(q);
    }
    ReadOnward(sh, ReadingCollection(c), q);
  }
}
