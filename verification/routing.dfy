/** Where money goes, told from the account table and the caps themselves: which account a
    transfer names, where a credit to it lands and why, and what its transaction records. */
module Routing {
  import opened Domain
  import opened Books
  import opened Int64
  import opened Accounts
  import opened SideStores
  import opened Matcher
  import opened Worker
  import opened Serialized
  import SuspenseService
  import WithdrawalService

  // ── Which account a transfer names ────────────────────────────────────────

  /** No account has this reference, or there is none to look for. */
  predicate RefIsUnknown(t: Table, ref: string) { ref == "" || forall va <- t :: va.ref != ref }

  predicate NubanIsUnknown(t: Table, nuban: string) { nuban == "" || forall va <- t :: va.nuban != nuban }

  /** The transfer's reference is account i's; or no account has its reference, and its account
      number is account i's NUBAN. */
  predicate Names(t: Table, pt: ProviderTransaction, i: nat) {
    && i < |t|
    && (|| (pt.accountRef != "" && t[i].ref == pt.accountRef)
        || (RefIsUnknown(t, pt.accountRef) && pt.accountNumber != "" && t[i].nuban == pt.accountNumber))
  }

  predicate NamesNone(t: Table, pt: ProviderTransaction) {
    RefIsUnknown(t, pt.accountRef) && NubanIsUnknown(t, pt.accountNumber)
  }

  lemma ScansFind(t: Table, i: nat)
    requires Constrained(t) && i < |t|
    ensures ScanRef(t, t[i].ref) == Some(i) && ScanNUBAN(t, t[i].nuban) == Some(i)
  {}

  /** The lookup finds exactly the account that the transfer names, and there is at most one. */
  lemma LookupFindsTheNamed(t: Table, pt: ProviderTransaction)
    requires Constrained(t)
    ensures forall i: nat :: Lookup(t, pt) == Some(i) <==> Names(t, pt, i)
    ensures Lookup(t, pt) == None <==> NamesNone(t, pt)
  {
    forall i: nat | i < |t| ensures ScanRef(t, t[i].ref) == Some(i) && ScanNUBAN(t, t[i].nuban) == Some(i) {
      ScansFind(t, i);
    }
    hide ScanRef, ScanNUBAN, Constrained;
    if pt.accountRef != "" && ScanRef(t, pt.accountRef).Some? {
      assert t[ScanRef(t, pt.accountRef).value] in t;
    }
    if pt.accountNumber != "" && ScanNUBAN(t, pt.accountNumber).Some? {
      assert t[ScanNUBAN(t, pt.accountNumber).value] in t;
    }
  }

  // ── Where a credit lands, and why ─────────────────────────────────────────

  /** The worker finds the customer and a limit for the tier, and the amount would take the
      wallet's balance, or today's credits, over the cap; a cap that is not positive is none. */
  predicate OverACap(env: Env, b: Book, customer: string, amount: int) {
    && env.lookup == AcrossTenants && customer != "" && customer in env.customers
    && env.customers[customer].tier.Some? && env.customers[customer].tier.value in env.limits
    && var limit := env.limits[env.customers[customer].tier.value];
       || (0 < limit.maxBalance < Wrap(Wrap(BalanceOf(b, Wallet(customer))) + amount))
       || (0 < limit.dailyCredit < Wrap(Wrap(Sum(b.rows, CreditsOn(Wallet(customer), DayOf(env.now)))) + amount))
  }

  datatype Landing = InWallet(customer: string) | OnSuspense(reason: Reason)

  /** Where a credit must land: by the account named, its status, and the caps. */
  ghost predicate MustLand(env: Env, b: Book, pt: ProviderTransaction, va: Option<nat>, where: Landing) {
    if va == None then NamesNone(env.accounts, pt) && where == OnSuspense(Unmatched)
    else
      && Names(env.accounts, pt, va.value)
      && var account := env.accounts[va.value];
         match account.status
         case Closed => where == OnSuspense(ClosedAccount)
         case Suspended => where == OnSuspense(SuspendedAccount)
         case _ => where == if OverACap(env, b, account.customer, pt.amount) then OnSuspense(TierLimitReached)
                            else InWallet(account.customer)
  }

  function LandingOf(r: Route): Landing {
    match r
    case WalletRoute(_, customer) => InWallet(customer)
    case SuspenseRoute(_, reason) => OnSuspense(reason)
  }

  function AccountOf(r: Route): Option<nat> { if r.WalletRoute? then Some(r.va) else r.via }

  lemma RouteLands(env: Env, b: Book, pt: ProviderTransaction)
    requires Constrained(env.accounts)
    ensures MustLand(env, b, pt, AccountOf(RouteOf(env, b, pt)), LandingOf(RouteOf(env, b, pt)))
  {
    hide Constrained, ScanRef, ScanNUBAN, Sum, Wrap;
    LookupFindsTheNamed(env.accounts, pt);
    var va := Lookup(env.accounts, pt);
    if va.Some? {
      assert Names(env.accounts, pt, va.value);
      assert Breaches(env, b, env.accounts[va.value].customer, pt.amount)
        <==> OverACap(env, b, env.accounts[va.value].customer, pt.amount);
    }
  }

  /** A new positive credit that meets no fault lands where the table and the caps say: its whole
      amount on that wallet, offered to the account's collections, or on suspense with an open
      item of that reason; and it is recorded with the account that it names, if any. */
  lemma CreditsFollowTheTable(st: Stores, env: Env, item: WorkItem, va: Option<nat>, where: Landing, a: Account)
    requires Constrained(env.accounts) && a != Settlement
    requires item.event == PaymentSuccess && item.payment.amount > 0 && ProviderTx(item.payment.id) !in st.book.txns
    requires MustLand(env, st.book, item.payment, va, where)
    ensures var st' := Absorb(st, env, item);
            var id := ProviderTx(item.payment.id);
            var credited := if where.InWallet? then Wallet(where.customer) else Suspense;
            && BalanceOf(st'.book, a) == BalanceOf(st.book, a) + (if a == credited then item.payment.amount else 0)
            && st'.items == st.items + (if where.OnSuspense? then [Item(id, where.reason, Open)] else [])
            && st'.collections == (if where.InWallet? && va.Some?
                                   then TryFulfil(st.collections, va.value, id, item.payment.amount, env.now)
                                   else st.collections)
            && id in st'.book.txns
            && st'.book.txns[id] == Transaction(id, va, item.payment.session, item.payment.raw, item.payment.amount,
                                                Credit, item.source, TxStatus.Posted, item.payment.occurredAt)
  {
    RouteLands(env, st.book, item.payment);
    LandsOnce(env, st.book, item.payment, va, where);
    hide Constrained, MustLand, RouteOf, Sum, TryFulfil;
    CreditLandsWhole(st, env, item, NO_FAULTS, a);
    CreditIsRecorded(st, env, item);
  }

  /** The table and the caps leave no choice. */
  lemma LandsOnce(env: Env, b: Book, pt: ProviderTransaction, va: Option<nat>, where: Landing)
    requires Constrained(env.accounts) && MustLand(env, b, pt, va, where)
    ensures va == AccountOf(RouteOf(env, b, pt)) && where == LandingOf(RouteOf(env, b, pt))
  {
    RouteLands(env, b, pt);
    LookupFindsTheNamed(env.accounts, pt);
    hide Constrained, ScanRef, ScanNUBAN, Sum, Wrap, OverACap, Lookup, RouteOf, Names, NamesNone;
  }

  lemma CreditIsRecorded(st: Stores, env: Env, item: WorkItem)
    requires item.event == PaymentSuccess && item.payment.amount > 0 && ProviderTx(item.payment.id) !in st.book.txns
    ensures var st' := Absorb(st, env, item);
            var id := ProviderTx(item.payment.id);
            && id in st'.book.txns
            && st'.collections == (match RouteOf(env, st.book, item.payment)
                                   case WalletRoute(va, _) => TryFulfil(st.collections, va, id, item.payment.amount, env.now)
                                   case SuspenseRoute(_, _) => st.collections)
            && st'.book.txns[id] == Transaction(id, AccountOf(RouteOf(env, st.book, item.payment)), item.payment.session,
                                                item.payment.raw, item.payment.amount, Credit, item.source,
                                                TxStatus.Posted, item.payment.occurredAt)
  {
    hide RouteOf, Sum, TryFulfil;
  }

  /** A new positive reversal is recorded as a debit with the account that it names, and
      touches neither items nor collections. */
  lemma ReversalIsRecorded(st: Stores, env: Env, item: WorkItem)
    requires Constrained(env.accounts)
    requires item.event == PaymentReversal && item.payment.amount > 0 && ProviderTx(item.payment.id) !in st.book.txns
    ensures var id := ProviderTx(item.payment.id);
            var st' := Absorb(st, env, item);
            var txns := st'.book.txns;
            && st'.items == st.items && st'.collections == st.collections
            && id in txns
            && txns[id] == Transaction(id, txns[id].va, item.payment.session, item.payment.raw, item.payment.amount,
                                       Debit, item.source, TxStatus.Reversed, item.payment.occurredAt)
            && (if txns[id].va.Some? then Names(env.accounts, item.payment, txns[id].va.value)
                else NamesNone(env.accounts, item.payment))
  {
    LookupFindsTheNamed(env.accounts, item.payment);
    hide Constrained, Lookup, Sum, Names, NamesNone;
  }

  // ── Fitting credits ───────────────────────────────────────────────────────

  /** In exact amounts: the credit fits under every positive cap of this limit. */
  predicate Fits(limit: TierLimit, b: Book, customer: string, amount: int, now: int) {
    && (limit.maxBalance > 0 ==> BalanceOf(b, Wallet(customer)) + amount <= limit.maxBalance)
    && (limit.dailyCredit > 0 ==>
          Sum(b.rows, CreditsOn(Wallet(customer), DayOf(now))) + amount <= limit.dailyCredit)
  }

  /** A credit to an open account that fits both caps of its owner's tier reaches the wallet; and
      with a store that looks across tenants, one that does not fit goes to suspense. */
  lemma FittingCreditsReachTheWallet(env: Env, b: Book, pt: ProviderTransaction, i: nat, limit: TierLimit)
    requires Constrained(env.accounts) && Sound(b)
    requires Sum(b.rows, Credits) + pt.amount < LIMIT && pt.amount > 0
    requires Names(env.accounts, pt, i) && env.accounts[i].status == Active && env.accounts[i].customer != ""
    requires TierLimitOf(env, env.accounts[i].customer) == Some(limit)
    ensures var c := env.accounts[i].customer;
            RouteOf(env, b, pt) == if env.lookup == WithinTenant || Fits(limit, b, c, pt.amount, env.now)
                                   then WalletRoute(i, c) else SuspenseRoute(Some(i), TierLimitReached)
  {
    var c := env.accounts[i].customer;
    LookupFindsTheNamed(env.accounts, pt);
    hide Constrained, Sum, Wrap, Sound;
    BalanceFits(b, Balance(Wallet(c)));
    BalanceFits(b, CreditsOn(Wallet(c), DayOf(env.now)));
    assert OverCaps(limit, b, Wallet(c), pt.amount, env.now) <==> !Fits(limit, b, c, pt.amount, env.now);
  }

  // ── Callers stay within their tenant ──────────────────────────────────────

  /** A reassignment is accepted exactly for an open item whose transaction is posted with a
      positive amount, and a named target that is a customer of the caller's tenant; a refund
      flag for any open item; and nothing else is. */
  lemma ResolutionIsAcceptedIff(st: Stores, env: Env, sid: nat, target: string, tenant: string)
    requires tenant != ""
    ensures SuspenseService.Accepts(st, env, sid, SuspenseService.Reassign(target, tenant)) <==>
              && sid < |st.items| && st.items[sid].status == Open
              && st.items[sid].tx in st.book.txns && st.book.txns[st.items[sid].tx].amount > 0
              && target != "" && target in env.customers && env.customers[target].tenant == tenant
    ensures SuspenseService.Accepts(st, env, sid, SuspenseService.FlagRefund) <==>
              sid < |st.items| && st.items[sid].status == Open
    ensures !SuspenseService.Accepts(st, env, sid, SuspenseService.OtherResolution)
  {}

  /** A withdrawal is accepted exactly for a customer of the caller's tenant whose balance covers
      a positive amount, and with the bank, account and name of the destination given. */
  lemma WithdrawalIsAcceptedIff(b: Book, env: Env, req: WithdrawalService.Request)
    requires req.tenant != "" && Sound(b) && Bounded(b)
    ensures WithdrawalService.Accepts(b, env, req) <==>
              && 0 < req.amount <= BalanceOf(b, Wallet(req.customer))
              && req.customer in env.customers && env.customers[req.customer].tenant == req.tenant
              && req.bankCode != "" && req.accountNumber != "" && req.accountName != ""
  {
    BalanceFits(b, Balance(Wallet(req.customer)));
  }

  /** What the two internal operations record: a debit of the withdrawal's amount and a credit of
      the item's original amount, now, with the customer's ACTIVE account if there is one. */
  lemma InternalTransactions(
    o: WithdrawalService.Outbound, st: Stores, env: Env, req: WithdrawalService.Request, sid: nat, target: string,
    tenant: string)
    ensures var id := WithdrawalTx(|o.withdrawals|);
            WithdrawalService.Accepts(o.book, env, req) && id !in o.book.txns ==>
              var txns := WithdrawalService.InitiateEffect(o, env, req, true).book.txns;
              && id in txns
              && txns[id] == Transaction(id, txns[id].va, "", Marshalled, req.amount, Debit, Internal,
                                         TxStatus.Posted, env.now)
              && IsActiveOf(env.accounts, txns[id].va, req.customer)
    ensures var id := ResolutionTx(sid);
            SuspenseService.Accepts(st, env, sid, SuspenseService.Reassign(target, tenant)) && id !in st.book.txns ==>
              var txns := SuspenseService.ResolveEffect(st, env, sid, SuspenseService.Reassign(target, tenant)).book.txns;
              && id in txns
              && txns[id] == Transaction(id, txns[id].va, "", Marshalled, st.book.txns[st.items[sid].tx].amount, Credit,
                                         Internal, TxStatus.Posted, env.now)
              && IsActiveOf(env.accounts, txns[id].va, target)
  {
    hide Sum;
  }

  predicate IsActiveOf(t: Table, va: Option<nat>, customer: string) {
    if va.Some? then va.value < |t| && t[va.value].customer == customer && t[va.value].status == Active
    else forall i :: 0 <= i < |t| ==> t[i].customer != customer || t[i].status != Active
  }
}
