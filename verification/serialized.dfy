/** Guarantees of serialized runs: operations one after another, in any order and
    number, each in an environment of its own. */
module Serialized {
  import opened Domain
  import opened Ledger
  import opened Books
  import opened Accounts
  import opened Matcher
  import opened Worker
  import SuspenseService
  import WithdrawalService

  // ── Replay ────────────────────────────────────────────────────────────────

  /** A delivery: a work item, the environment at the time it is processed, and what the
      stores refuse then. */
  datatype Delivery = Delivery(item: WorkItem, env: Env, faults: Faults)

  /** The delivery can post a transaction if its identifier is new. */
  predicate Effective(d: Delivery) { Postable(d.item) && !d.faults.error }

  function Deliver(st: Stores, ds: seq<Delivery>): Stores
    decreases |ds|
  {
    if ds == [] then st else Deliver(Absorb(st, ds[0].env, ds[0].item, ds[0].faults), ds[1..])
  }

  /** The first effective delivery of each identifier that is not yet known. */
  function Firsts(ds: seq<Delivery>, known: set<TxID>): seq<Delivery> {
    if ds == [] then []
    else
      var id := ProviderTx(ds[0].item.payment.id);
      if Effective(ds[0]) && id !in known then [ds[0]] + Firsts(ds[1..], known + {id})
      else Firsts(ds[1..], known)
  }

  lemma AbsorbRecords(st: Stores, env: Env, item: WorkItem, f: Faults)
    ensures Absorb(st, env, item, f).book.txns.Keys
         == st.book.txns.Keys + if Postable(item) && !f.error then {ProviderTx(item.payment.id)} else {}
  {}

  /** Repeats, unpostable events, malformed amounts and failures change nothing: any sequence
      of deliveries ends as its first effective delivery per identifier would. */
  lemma {:induction false} ReplayInsensitive(st: Stores, ds: seq<Delivery>)
    ensures Deliver(st, ds) == Deliver(st, Firsts(ds, st.book.txns.Keys))
    decreases |ds|
  {
    if ds != [] {
      var st' := Absorb(st, ds[0].env, ds[0].item, ds[0].faults);
      AbsorbRecords(st, ds[0].env, ds[0].item, ds[0].faults);
      ReplayInsensitive(st', ds[1..]);
      var id := ProviderTx(ds[0].item.payment.id);
      if Effective(ds[0]) && id !in st.book.txns {
        var rest := Firsts(ds[1..], st'.book.txns.Keys);
        assert ([ds[0]] + rest)[1..] == rest;
      } else {
        assert st'.book.txns.Keys == st.book.txns.Keys;
      }
    }
  }

  // ── What one move does to the sums ────────────────────────────────────────

  lemma MoveAdds(b: Book, tx: Transaction, from: Account, to: Account, m: Measure)
    requires Legs(tx, from, to) && tx.amount > 0 && tx.id !in b.txns
    ensures Sum(PostMove(b, tx, from, to).rows, m)
         == Sum(b.rows, m) + Weight(m, Row(Entry(tx.id, from, Debit, tx.amount), tx.occurredAt))
            + Weight(m, Row(Entry(tx.id, to, Credit, tx.amount), tx.occurredAt))
  {
    TransferIsPosting(tx, from, to);
    PostAdds(b, tx, Transfer(tx.id, from, to, tx.amount).value, m);
  }

  lemma MoveKeepsSound(b: Book, tx: Transaction, from: Account, to: Account)
    requires Sound(b) && Legs(tx, from, to)
    ensures Sound(PostMove(b, tx, from, to))
  {
    if tx.amount > 0 {
      TransferIsPosting(tx, from, to);
      PostKeepsSound(b, tx, Transfer(tx.id, from, to, tx.amount).value);
    }
  }

  /** A new positive credit that meets no error lands whole in one place: on the wallet that
      the route names, or on suspense, with one new item unless its insert is lost; and every
      other balance is unchanged. */
  lemma CreditLandsWhole(st: Stores, env: Env, item: WorkItem, f: Faults, a: Account)
    requires item.event == PaymentSuccess && item.payment.amount > 0 && !f.error
    requires ProviderTx(item.payment.id) !in st.book.txns && a != Settlement
    ensures var st' := Absorb(st, env, item, f);
            var route := RouteOf(env, st.book, item.payment);
            var credited := if route.WalletRoute? then Wallet(route.customer) else Suspense;
            && BalanceOf(st'.book, a) == BalanceOf(st.book, a) + (if a == credited then item.payment.amount else 0)
            && (route.WalletRoute? ==> st'.items == st.items)
            && (route.SuspenseRoute? ==>
                  st'.items == st.items + (if f.sideLost then [] else
                                 [Item(ProviderTx(item.payment.id), route.reason, Open)])
                  && st'.collections == st.collections)
  {
    match RouteOf(env, st.book, item.payment)
    case WalletRoute(va, customer) =>
      MoveAdds(st.book, TxOf(item, Some(va)), Settlement, Wallet(customer), Balance(a));
    case SuspenseRoute(via, _) =>
      MoveAdds(st.book, TxOf(item, via), Settlement, Suspense, Balance(a));
  }

  /** A new positive reversal takes its amount from the wallet of the account it names,
      wherever the credit it reverses went, and from suspense only when it names none; no
      item or collection changes. */
  lemma ReversalTakesFromTheNamedWallet(st: Stores, env: Env, item: WorkItem, f: Faults, a: Account)
    requires item.event == PaymentReversal && item.payment.amount > 0 && !f.error
    requires ProviderTx(item.payment.id) !in st.book.txns && a != Settlement
    ensures var st' := Absorb(st, env, item, f);
            var va := Lookup(env.accounts, item.payment);
            var debited := if va.Some? then Wallet(env.accounts[va.value].customer) else Suspense;
            && BalanceOf(st'.book, a) == BalanceOf(st.book, a) - (if a == debited then item.payment.amount else 0)
            && st'.items == st.items && st'.collections == st.collections
  {
    var va := Lookup(env.accounts, item.payment);
    MoveAdds(st.book, TxOf(item, va), if va.None? then Suspense else Wallet(env.accounts[va.value].customer),
             Settlement, Balance(a));
  }

  /** A withdrawal changes a balance exactly when it is accepted, the provider transfers,
      and no transaction has its identifier: its customer's wallet falls by its amount. Its
      record says whether the provider transferred. */
  lemma WithdrawalTakesItsAmount(
    o: WithdrawalService.Outbound, env: Env, req: WithdrawalService.Request, transferred: bool, a: Account)
    requires a != Settlement && WithdrawalTx(|o.withdrawals|) !in o.book.txns
    ensures var o' := WithdrawalService.InitiateEffect(o, env, req, transferred);
            var accepted := WithdrawalService.Accepts(o.book, env, req);
            && BalanceOf(o'.book, a) == BalanceOf(o.book, a) -
                 (if accepted && transferred && a == Wallet(req.customer) then req.amount else 0)
            && (WithdrawalTx(|o.withdrawals|) in o'.book.txns <==> accepted && transferred)
            && o'.withdrawals == o.withdrawals + (if !accepted then [] else
                 [Withdrawal(req.customer, req.amount, if transferred then Completed else Failed)])
  {
    if WithdrawalService.Accepts(o.book, env, req) && transferred {
      var tx := WithdrawalService.WithdrawalOf(
        |o.withdrawals|, ScanStatus(env.accounts, req.customer, Active), req.amount, env.now);
      MoveAdds(o.book, tx, Wallet(req.customer), Settlement, Balance(a));
    }
  }

  /** Once an account is closed, whatever lifecycle operations follow, a credit that is
      matched to it raises no wallet: a new one goes whole to suspense. */
  lemma ClosedAccountsAreNeverCredited(
    t: Table, ops: seq<Lifecycle>, i: nat, st: Stores, env: Env, item: WorkItem, f: Faults, c: string)
    requires Constrained(t) && i < |t| && t[i].status == VAStatus.Closed
    requires env.accounts == Run(t, ops) && Lookup(env.accounts, item.payment) == Some(i)
    requires item.event == PaymentSuccess
    ensures var st' := Absorb(st, env, item, f);
            && BalanceOf(st'.book, Wallet(c)) == BalanceOf(st.book, Wallet(c))
            && (!f.error && item.payment.amount > 0 && ProviderTx(item.payment.id) !in st.book.txns ==>
                  BalanceOf(st'.book, Suspense) == BalanceOf(st.book, Suspense) + item.payment.amount)
  {
    LifecycleRuns(t, ops);
    if !f.error && item.payment.amount > 0 && ProviderTx(item.payment.id) !in st.book.txns {
      CreditLandsWhole(st, env, item, f, Wallet(c));
      CreditLandsWhole(st, env, item, f, Suspense);
    }
  }

  // ── All operations ────────────────────────────────────────────────────────

  datatype Bank = Bank(st: Stores, withdrawals: seq<Withdrawal>)

  datatype Op =
    | Process(item: WorkItem, faults: Faults)
    | Settle(sid: nat, resolution: SuspenseService.Resolution)
    | Withdraw(req: WithdrawalService.Request, transferred: bool)

  datatype Call = Call(op: Op, env: Env)

  function Perform(k: Bank, c: Call): Bank {
    match c.op
    case Process(item, f) => k.(st := Absorb(k.st, c.env, item, f))
    case Settle(sid, r) => k.(st := SuspenseService.ResolveEffect(k.st, c.env, sid, r))
    case Withdraw(req, transferred) =>
      var o := WithdrawalService.InitiateEffect(WithdrawalService.Outbound(k.st.book, k.withdrawals), c.env, req, transferred);
      Bank(k.st.(book := o.book), o.withdrawals)
  }

  function PerformAll(k: Bank, calls: seq<Call>): Bank {
    if calls == [] then k else Perform(PerformAll(k, calls[..|calls| - 1]), calls[|calls| - 1])
  }

  /** The one posting that a call may make: a transaction between two accounts. */
  datatype Transit = Transit(tx: Transaction, from: Account, to: Account)

  function TransitOf(k: Bank, c: Call): Option<Transit> {
    var b, t := k.st.book, c.env.accounts;
    match c.op
    case Process(item, f) =>
      var va := Lookup(t, item.payment);
      if f.error || !Postable(item) then None
      else if item.event == PaymentReversal then
        Some(Transit(TxOf(item, va), if va.None? then Suspense else Wallet(t[va.value].customer), Settlement))
      else (match RouteOf(c.env, b, item.payment)
            case WalletRoute(id, customer) => Some(Transit(TxOf(item, Some(id)), Settlement, Wallet(customer)))
            case SuspenseRoute(via, _) => Some(Transit(TxOf(item, via), Settlement, Suspense)))
    case Settle(sid, r) =>
      if !SuspenseService.Accepts(k.st, c.env, sid, r) || !r.Reassign? then None
      else Some(Transit(
        SuspenseService.ResolutionOf(sid, ScanStatus(t, r.target, Active), b.txns[k.st.items[sid].tx].amount, c.env.now),
        Suspense, Wallet(r.target)))
    case Withdraw(req, transferred) =>
      if !WithdrawalService.Accepts(b, c.env, req) || !transferred then None
      else Some(Transit(
        WithdrawalService.WithdrawalOf(|k.withdrawals|, ScanStatus(t, req.customer, Active), req.amount, c.env.now),
        Wallet(req.customer), Settlement))
  }

  predicate ValidTransit(m: Transit) { Legs(m.tx, m.from, m.to) && m.tx.amount > 0 && m.from != m.to }

  function Carry(b: Book, m: Option<Transit>): Book
    requires m.Some? ==> m.value.from != m.value.to
  {
    if m.None? || m.value.tx.id in b.txns then b else PostMove(b, m.value.tx, m.value.from, m.value.to)
  }

  lemma TransitIsValid(k: Bank, c: Call)
    ensures TransitOf(k, c).Some? ==> ValidTransit(TransitOf(k, c).value)
  {}

  /** The ledger effect of every call is its transit, if it is new. */
  lemma PerformCarries(k: Bank, c: Call)
    ensures TransitOf(k, c).Some? ==> ValidTransit(TransitOf(k, c).value)
    ensures Perform(k, c).st.book == Carry(k.st.book, TransitOf(k, c))
  {
    TransitIsValid(k, c);
  }

  lemma PerformKeepsSound(k: Bank, c: Call)
    requires Sound(k.st.book)
    ensures Sound(Perform(k, c).st.book)
  {
    PerformCarries(k, c);
    var m := TransitOf(k, c);
    if m.Some? { MoveKeepsSound(k.st.book, m.value.tx, m.value.from, m.value.to); }
  }

  function Gain(t: Transit, m: Measure): int {
    Weight(m, Row(Entry(t.tx.id, t.from, Debit, t.tx.amount), t.tx.occurredAt))
    + Weight(m, Row(Entry(t.tx.id, t.to, Credit, t.tx.amount), t.tx.occurredAt))
  }

  /** The change of any sum across a call: the gain of its transit, if that is new. */
  lemma PerformAdds(k: Bank, c: Call, m: Measure)
    ensures TransitOf(k, c).Some? ==> ValidTransit(TransitOf(k, c).value)
    ensures Sum(Perform(k, c).st.book.rows, m) == Sum(k.st.book.rows, m) +
              (if TransitOf(k, c).None? || TransitOf(k, c).value.tx.id in k.st.book.txns then 0
               else Gain(TransitOf(k, c).value, m))
  {
    PerformCarries(k, c);
    var t := TransitOf(k, c);
    if t.Some? && t.value.tx.id !in k.st.book.txns { MoveAdds(k.st.book, t.value.tx, t.value.from, t.value.to, m); }
  }

  // ── Wallets never go below their reversals ────────────────────────────────

  /** The wallet's balance covers at least minus the reversals posted against it. */
  predicate WalletCovered(b: Book, customer: string) {
    && BalanceOf(b, Wallet(customer)) >= -Sum(b.rows, ReversedFrom(Wallet(customer)))
    && Sum(b.rows, ReversedFrom(Wallet(customer))) >= 0
  }

  lemma PerformKeepsCovered(k: Bank, c: Call, customer: string)
    requires Sound(k.st.book) && Bounded(k.st.book) && WalletCovered(k.st.book, customer)
    ensures WalletCovered(Perform(k, c).st.book, customer)
  {
    hide Sum, Sound, Perform, RowsOf;
    PerformAdds(k, c, Balance(Wallet(customer)));
    PerformAdds(k, c, ReversedFrom(Wallet(customer)));
    BalanceFits(k.st.book, Balance(Wallet(customer)));
  }

  lemma PerformGrows(k: Bank, c: Call)
    ensures Sum(Perform(k, c).st.book.rows, Credits) >= Sum(k.st.book.rows, Credits)
  {
    PerformAdds(k, c, Credits);
  }

  const OPENED: Bank := Bank(Stores(EMPTY, [], []), [])

  /** In every serialized run of credits, reversals, resolutions and withdrawals whose
      posted total stays below 2^63, no wallet falls below minus its reversals. */
  lemma {:induction false} WalletsCoverTheirReversals(calls: seq<Call>, customer: string)
    requires Bounded(PerformAll(OPENED, calls).st.book)
    ensures Sound(PerformAll(OPENED, calls).st.book)
    ensures WalletCovered(PerformAll(OPENED, calls).st.book, customer)
  {
    if calls != [] {
      var k := PerformAll(OPENED, calls[..|calls| - 1]);
      PerformGrows(k, calls[|calls| - 1]);
      WalletsCoverTheirReversals(calls[..|calls| - 1], customer);
      PerformKeepsSound(k, calls[|calls| - 1]);
      PerformKeepsCovered(k, calls[|calls| - 1], customer);
    }
  }

  // ── Tier caps ─────────────────────────────────────────────────────────────

  /** A worker credit, reversal or withdrawal made while the customer's limit is known
      to be `limit`. */
  predicate Capped(c: Call, customer: string, limit: TierLimit) {
    !c.op.Settle? && LimitFor(c.env, customer) == Some(limit)
  }

  /** The credit is processed on the UTC day on which it occurred. */
  predicate OnItsDay(c: Call) {
    c.op.Process? && c.op.item.event == PaymentSuccess ==> DayOf(c.op.item.payment.occurredAt) == DayOf(c.env.now)
  }

  predicate WithinMax(b: Book, customer: string, limit: TierLimit) {
    limit.maxBalance > 0 ==> BalanceOf(b, Wallet(customer)) <= limit.maxBalance
  }

  predicate WithinDaily(b: Book, customer: string, limit: TierLimit, day: int) {
    limit.dailyCredit > 0 ==> Sum(b.rows, CreditsOn(Wallet(customer), day)) <= limit.dailyCredit
  }

  lemma CallKeepsMax(k: Bank, c: Call, customer: string, limit: TierLimit)
    requires Sound(k.st.book) && Bounded(Perform(k, c).st.book)
    requires Capped(c, customer, limit) && WithinMax(k.st.book, customer, limit)
    ensures WithinMax(Perform(k, c).st.book, customer, limit)
  {
    hide Sum, Sound, Perform, RowsOf;
    var m := Balance(Wallet(customer));
    PerformGrows(k, c);
    PerformKeepsSound(k, c);
    PerformAdds(k, c, m);
    BalanceFits(k.st.book, m);
    BalanceFits(Perform(k, c).st.book, m);
  }

  lemma CallKeepsDaily(k: Bank, c: Call, customer: string, limit: TierLimit, day: int)
    requires Sound(k.st.book) && Bounded(Perform(k, c).st.book)
    requires Capped(c, customer, limit) && OnItsDay(c) && WithinDaily(k.st.book, customer, limit, day)
    ensures WithinDaily(Perform(k, c).st.book, customer, limit, day)
  {
    hide Sum, Sound, Perform, RowsOf;
    var m := CreditsOn(Wallet(customer), day);
    PerformGrows(k, c);
    PerformKeepsSound(k, c);
    PerformAdds(k, c, m);
    BalanceFits(k.st.book, m);
    BalanceFits(Perform(k, c).st.book, m);
  }

  /** In every serialized run of worker credits, reversals and withdrawals under a fixed
      limit, a wallet that starts within its maximum balance stays within it, and if each
      credit is processed on its own day, every day's credits stay within the daily cap. */
  lemma {:induction false} TierCapsHold(k: Bank, calls: seq<Call>, customer: string, limit: TierLimit, day: int)
    requires Sound(k.st.book) && Bounded(PerformAll(k, calls).st.book)
    requires forall c <- calls :: Capped(c, customer, limit)
    ensures Sound(PerformAll(k, calls).st.book)
    ensures WithinMax(k.st.book, customer, limit) ==> WithinMax(PerformAll(k, calls).st.book, customer, limit)
    ensures WithinDaily(k.st.book, customer, limit, day) && (forall c <- calls :: OnItsDay(c)) ==>
              WithinDaily(PerformAll(k, calls).st.book, customer, limit, day)
  {
    if calls != [] {
      var init, last := calls[..|calls| - 1], calls[|calls| - 1];
      var k' := PerformAll(k, init);
      PerformGrows(k', last);
      TierCapsHold(k, init, customer, limit, day);
      PerformKeepsSound(k', last);
      if WithinMax(k'.st.book, customer, limit) { CallKeepsMax(k', last, customer, limit); }
      if WithinDaily(k'.st.book, customer, limit, day) && OnItsDay(last) {
        CallKeepsDaily(k', last, customer, limit, day);
      }
    }
  }

  /** With this customer store, a credit that occurred at one time and is processed at another
      keeps the cap configured for the day on which it occurred, whatever the ledger, the
      customer and the amount. */
  ghost predicate KeepsDailyCap(lookup: CustomerLookup, occurred: int, now: int) {
    forall k: Bank, item: WorkItem, env: Env, customer: string, limit: TierLimit ::
      DailyCapApplies(k, item, env, customer, limit, lookup, occurred, now)
      ==> WithinDaily(Perform(k, Call(Process(item, NO_FAULTS), env)).st.book, customer, limit, DayOf(occurred))
  }

  ghost predicate DailyCapApplies(
    k: Bank, item: WorkItem, env: Env, customer: string, limit: TierLimit,
    lookup: CustomerLookup, occurred: int, now: int)
  {
    && Sound(k.st.book) && Bounded(Perform(k, Call(Process(item, NO_FAULTS), env)).st.book)
    && item.event == PaymentSuccess && item.payment.occurredAt == occurred
    && env.now == now && env.lookup == lookup
    && customer != "" && TierLimitOf(env, customer) == Some(limit)
    && WithinDaily(k.st.book, customer, limit, DayOf(occurred))
  }

  /** The daily cap is guaranteed if and only if the customer store looks across tenants and
      the credit is processed on its own day: the SQL store never finds the customer, and the
      check adds up the credits of today, not of the day the credit occurred. */
  lemma DailyCapGuaranteedIff(lookup: CustomerLookup, occurred: int, now: int)
    ensures KeepsDailyCap(lookup, occurred, now) <==> lookup == AcrossTenants && DayOf(occurred) == DayOf(now)
  {
    if lookup == WithinTenant {
      UncheckedCreditBreaksCaps(occurred, now);
    } else if DayOf(occurred) == DayOf(now) {
      forall k: Bank, item: WorkItem, env: Env, customer: string, limit: TierLimit
        | DailyCapApplies(k, item, env, customer, limit, lookup, occurred, now)
        ensures WithinDaily(Perform(k, Call(Process(item, NO_FAULTS), env)).st.book, customer, limit, DayOf(occurred))
      {
        CallKeepsDaily(k, Call(Process(item, NO_FAULTS), env), customer, limit, DayOf(occurred));
      }
    } else {
      LateCreditBreaksTheCap(occurred, now);
    }
  }

  /** With this customer store, a credit keeps the maximum balance configured for the tier. */
  ghost predicate KeepsMaxBalance(lookup: CustomerLookup) {
    forall k: Bank, item: WorkItem, env: Env, customer: string, limit: TierLimit ::
      MaxBalanceApplies(k, item, env, customer, limit, lookup)
      ==> WithinMax(Perform(k, Call(Process(item, NO_FAULTS), env)).st.book, customer, limit)
  }

  ghost predicate MaxBalanceApplies(
    k: Bank, item: WorkItem, env: Env, customer: string, limit: TierLimit, lookup: CustomerLookup)
  {
    && Sound(k.st.book) && Bounded(Perform(k, Call(Process(item, NO_FAULTS), env)).st.book)
    && env.lookup == lookup && customer != "" && TierLimitOf(env, customer) == Some(limit)
    && WithinMax(k.st.book, customer, limit)
  }

  /** The maximum balance is guaranteed if and only if the customer store looks across
      tenants; the SQL store does not. */
  lemma MaxBalanceGuaranteedIff(lookup: CustomerLookup)
    ensures KeepsMaxBalance(lookup) <==> lookup == AcrossTenants
  {
    if lookup == WithinTenant {
      UncheckedCreditBreaksCaps(0, 0);
    } else {
      forall k: Bank, item: WorkItem, env: Env, customer: string, limit: TierLimit
        | MaxBalanceApplies(k, item, env, customer, limit, lookup)
        ensures WithinMax(Perform(k, Call(Process(item, NO_FAULTS), env)).st.book, customer, limit)
      {
        CallKeepsMax(k, Call(Process(item, NO_FAULTS), env), customer, limit);
      }
    }
  }

  function Payment(id: string, amount: int, occurred: int): WorkItem {
    WorkItem(PaymentSuccess, ProviderTransaction(id, "", Marshalled, "", "ref", amount, occurred), Webhook)
  }

  /** One customer with a daily cap of one kobo and a maximum balance, zero for none. */
  function OneKobo(lookup: CustomerLookup, maxBalance: int, now: int): Env {
    Env([VirtualAccount("c", "ref", "nuban", Active)], map["c" := Customer("t", Some(1))],
        map[1 := TierLimit(1, maxBalance)], lookup, now)
  }

  lemma CreditIsRouted(b: Book, item: WorkItem, env: Env, maxBalance: int)
    requires item == Payment(item.payment.id, item.payment.amount, item.payment.occurredAt)
    requires env == OneKobo(env.lookup, maxBalance, env.now)
    requires env.lookup == WithinTenant
          || !OverCaps(TierLimit(1, maxBalance), b, Wallet("c"), item.payment.amount, env.now)
    ensures RouteOf(env, b, item.payment) == WalletRoute(0, "c")
    ensures TierLimitOf(env, "c") == Some(TierLimit(1, maxBalance))
  {
    assert Lookup(env.accounts, item.payment) == Some(0);
  }

  /** With the SQL store two kobo pass caps of one kobo. */
  lemma UncheckedCreditBreaksCaps(occurred: int, now: int)
    ensures !KeepsDailyCap(WithinTenant, occurred, now)
    ensures !KeepsMaxBalance(WithinTenant)
  {
    var item, env, limit := Payment("a", 2, occurred), OneKobo(WithinTenant, 1, now), TierLimit(1, 1);
    var c := Call(Process(item, NO_FAULTS), env);
    CreditIsRouted(EMPTY, item, env, 1);
    PerformAdds(OPENED, c, Credits);
    PerformAdds(OPENED, c, Balance(Wallet("c")));
    PerformAdds(OPENED, c, CreditsOn(Wallet("c"), DayOf(occurred)));
    assert DailyCapApplies(OPENED, item, env, "c", limit, WithinTenant, occurred, now);
    assert !WithinDaily(Perform(OPENED, c).st.book, "c", limit, DayOf(occurred));
    assert MaxBalanceApplies(OPENED, item, env, "c", limit, WithinTenant);
    assert !WithinMax(Perform(OPENED, c).st.book, "c", limit);
  }

  function LateCall(id: string, occurred: int, now: int): Call {
    Call(Process(Payment(id, 1, occurred), NO_FAULTS), OneKobo(AcrossTenants, 0, now))
  }

  lemma LateCreditCounts(k: Bank, id: string, occurred: int, now: int)
    requires Sound(k.st.book) && ProviderTx(id) !in k.st.book.txns && DayOf(occurred) != DayOf(now)
    requires Sum(k.st.book.rows, CreditsOn(Wallet("c"), DayOf(now))) == 0
    ensures var b, b' := k.st.book, Perform(k, LateCall(id, occurred, now)).st.book;
            && Sound(b') && b'.txns.Keys == b.txns.Keys + {ProviderTx(id)}
            && Sum(b'.rows, CreditsOn(Wallet("c"), DayOf(now))) == 0
            && Sum(b'.rows, CreditsOn(Wallet("c"), DayOf(occurred))) ==
               Sum(b.rows, CreditsOn(Wallet("c"), DayOf(occurred))) + 1
            && Sum(b'.rows, Credits) == Sum(b.rows, Credits) + 1
  {
    hide Sum, Sound, RowsOf;
    var c := LateCall(id, occurred, now);
    CreditIsRouted(k.st.book, c.op.item, c.env, 0);
    PerformKeepsSound(k, c);
    PerformAdds(k, c, CreditsOn(Wallet("c"), DayOf(now)));
    PerformAdds(k, c, CreditsOn(Wallet("c"), DayOf(occurred)));
    PerformAdds(k, c, Credits);
    AbsorbRecords(k.st, c.env, c.op.item, NO_FAULTS);
  }

  /** Once a kobo has been credited on its day, one more that is processed on another day goes
      over a cap of one kobo. */
  lemma SecondLateCredit(k: Bank, id: string, occurred: int, now: int)
    requires Sound(k.st.book) && ProviderTx(id) !in k.st.book.txns && DayOf(occurred) != DayOf(now)
    requires Sum(k.st.book.rows, CreditsOn(Wallet("c"), DayOf(now))) == 0 && Sum(k.st.book.rows, Credits) == 1
    requires Sum(k.st.book.rows, CreditsOn(Wallet("c"), DayOf(occurred))) == 1
    ensures !KeepsDailyCap(AcrossTenants, occurred, now)
  {
    hide Sum, Sound, RowsOf, Perform, DayOf, RouteOf;
    var c := LateCall(id, occurred, now);
    LateCreditCounts(k, id, occurred, now);
    CreditIsRouted(k.st.book, c.op.item, c.env, 0);
    assert DailyCapApplies(k, c.op.item, c.env, "c", TierLimit(1, 0), AcrossTenants, occurred, now);
    assert !WithinDaily(Perform(k, c).st.book, "c", TierLimit(1, 0), DayOf(occurred));
  }

  /** Two one-kobo credits of another day both pass a daily cap of one kobo. */
  lemma LateCreditBreaksTheCap(occurred: int, now: int)
    requires DayOf(occurred) != DayOf(now)
    ensures !KeepsDailyCap(AcrossTenants, occurred, now)
  {
    hide Perform, KeepsDailyCap, DayOf;
    LateCreditCounts(OPENED, "a", occurred, now);
    SecondLateCredit(Perform(OPENED, LateCall("a", occurred, now)), "b", occurred, now);
  }

  // ── Resolutions ───────────────────────────────────────────────────────────

  /** An accepted reassignment marks the item; it moves the original amount from suspense
      to the target, with no regard to the target's caps, unless the item's money has
      moved before: then, whatever target is named now, no account changes. */
  lemma ReassignmentMovesMoneyOnce(st: Stores, env: Env, sid: nat, target: string, tenant: string, a: Account)
    requires SuspenseService.Accepts(st, env, sid, SuspenseService.Reassign(target, tenant))
    ensures var st' := SuspenseService.ResolveEffect(st, env, sid, SuspenseService.Reassign(target, tenant));
            var amount := st.book.txns[st.items[sid].tx].amount;
            && st'.items == st.items[sid := st.items[sid].(status := Reassigned)]
            && ResolutionTx(sid) in st'.book.txns
            && BalanceOf(st'.book, a) == BalanceOf(st.book, a) +
                 (if ResolutionTx(sid) in st.book.txns then 0
                  else if a == Suspense then -amount else if a == Wallet(target) then amount else 0)
  {
    var tx := SuspenseService.ResolutionOf(
      sid, ScanStatus(env.accounts, target, Active), st.book.txns[st.items[sid].tx].amount, env.now);
    if ResolutionTx(sid) !in st.book.txns { MoveAdds(st.book, tx, Suspense, Wallet(target), Balance(a)); }
  }
}
