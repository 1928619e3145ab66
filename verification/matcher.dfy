/** Routing decisions: which account a provider transaction belongs to, and whether
    its credit goes to the wallet or to suspense. Lookups only, no writes. */
module Matcher {
  import opened Domain
  import opened Ledger
  import opened Books
  import opened Int64
  import opened Accounts

  /** What the decisions read besides the ledger. */
  datatype Env = Env(
    accounts: Table, customers: map<string, Customer>, limits: map<int, TierLimit>, lookup: CustomerLookup, now: int)

  /** Two customer stores: for the in-memory one an empty tenant means a lookup across
      tenants; the SQL one compares the tenant, and none is empty. */
  datatype CustomerLookup = AcrossTenants | WithinTenant

  function GetCustomer(env: Env, tenant: string, id: string): Option<Customer> {
    if id !in env.customers then None
    else if tenant == "" then if env.lookup == AcrossTenants then Some(env.customers[id]) else None
    else if env.customers[id].tenant == tenant then Some(env.customers[id]) else None
  }

  /** The account reference wins; the NUBAN is the fallback. */
  function Lookup(t: Table, pt: ProviderTransaction): (r: Option<nat>)
    ensures r.Some? ==> r.value < |t|
  {
    var byRef := if pt.accountRef == "" then None else ScanRef(t, pt.accountRef);
    if byRef.Some? then byRef
    else if pt.accountNumber == "" then None
    else ScanNUBAN(t, pt.accountNumber)
  }

  datatype MatchResult = MatchResult(va: Option<nat>, customer: string, entries: seq<Entry>, suspense: Option<Reason>)

  function ToSuspense(va: Option<nat>, pt: ProviderTransaction, reason: Reason): Result<MatchResult> {
    var es := CreditSuspense(ProviderTx(pt.id), pt.amount);
    if es.Err? then Err else Ok(MatchResult(va, "", es.value, Some(reason)))
  }

  /** The decision for a credit, once the account has been looked up. */
  function Match(t: Table, va: Option<nat>, pt: ProviderTransaction): Result<MatchResult>
    requires va.Some? ==> va.value < |t|
  {
    if va.None? then ToSuspense(None, pt, Unmatched)
    else if t[va.value].status == VAStatus.Closed then ToSuspense(va, pt, ClosedAccount)
    else if t[va.value].status == VAStatus.Suspended then ToSuspense(va, pt, SuspendedAccount)
    else
      var customer := t[va.value].customer;
      var es := CreditCustomer(ProviderTx(pt.id), customer, pt.amount);
      if es.Err? then Err else Ok(MatchResult(va, customer, es.value, None))
  }

  function MatchReversal(t: Table, va: Option<nat>, pt: ProviderTransaction): Result<MatchResult>
    requires va.Some? ==> va.value < |t|
  {
    var customer := if va.None? then "" else t[va.value].customer;
    var es := if va.None? then ReversalToSuspense(ProviderTx(pt.id), pt.amount)
              else ReversalEntries(ProviderTx(pt.id), customer, pt.amount);
    if es.Err? then Err else Ok(MatchResult(va, customer, es.value, None))
  }

  /** The two caps over the balance and the daily credits that were read. */
  predicate OverBalanceCap(limit: TierLimit, balance: int, amount: int) {
    limit.maxBalance > 0 && Wrap(balance + amount) > limit.maxBalance
  }

  predicate OverDailyCap(limit: TierLimit, daily: int, amount: int) {
    limit.dailyCredit > 0 && Wrap(daily + amount) > limit.dailyCredit
  }

  /** The limit configured for a customer's tier. */
  function TierLimitOf(env: Env, customer: string): Option<TierLimit> {
    if customer !in env.customers then None
    else
      var tier := env.customers[customer].tier;
      if tier.None? || tier.value !in env.limits then None else Some(env.limits[tier.value])
  }

  /** The limit that the worker applies: it asks for the customer with no tenant. */
  function LimitFor(env: Env, customer: string): Option<TierLimit> {
    if customer == "" || GetCustomer(env, "", customer).None? then None else TierLimitOf(env, customer)
  }

  /** Would the amount take the wallet over either cap, as the ledger stands now? */
  predicate OverCaps(limit: TierLimit, b: Book, wallet: Account, amount: int, now: int) {
    || OverBalanceCap(limit, Wrap(BalanceOf(b, wallet)), amount)
    || OverDailyCap(limit, Wrap(Sum(b.rows, CreditsOn(wallet, DayOf(now)))), amount)
  }

  predicate Breaches(env: Env, b: Book, customer: string, amount: int) {
    var limit := LimitFor(env, customer);
    limit.Some? && OverCaps(limit.value, b, Wallet(customer), amount, env.now)
  }

  // ── Routes ────────────────────────────────────────────────────────────────

  datatype Route = WalletRoute(va: nat, customer: string) | SuspenseRoute(via: Option<nat>, reason: Reason)

  /** Where an incoming credit goes: the whole decision in one place. */
  function RouteOf(env: Env, b: Book, pt: ProviderTransaction): Route {
    var va := Lookup(env.accounts, pt);
    if va.None? then SuspenseRoute(None, Unmatched)
    else
      var account := env.accounts[va.value];
      if account.status == VAStatus.Closed then SuspenseRoute(va, ClosedAccount)
      else if account.status == VAStatus.Suspended then SuspenseRoute(va, SuspendedAccount)
      else if Breaches(env, b, account.customer, pt.amount) then SuspenseRoute(va, TierLimitReached)
      else WalletRoute(va.value, account.customer)
  }

  /** A credit to an open account that would take its owner over a cap goes to suspense if
      and only if the customer store looks across tenants. With the SQL store the worker
      never finds the customer, skips the check, and the wallet is credited. */
  lemma BreachIsRefusedIff(env: Env, b: Book, pt: ProviderTransaction, va: nat, limit: TierLimit)
    requires Lookup(env.accounts, pt) == Some(va)
    requires env.accounts[va].status != VAStatus.Closed && env.accounts[va].status != VAStatus.Suspended
    requires env.accounts[va].customer != "" && TierLimitOf(env, env.accounts[va].customer) == Some(limit)
    requires OverCaps(limit, b, Wallet(env.accounts[va].customer), pt.amount, env.now)
    ensures RouteOf(env, b, pt) == SuspenseRoute(Some(va), TierLimitReached) <==> env.lookup == AcrossTenants
    ensures RouteOf(env, b, pt) == WalletRoute(va, env.accounts[va].customer) <==> env.lookup == WithinTenant
  {
    assert Breaches(env, b, env.accounts[va].customer, pt.amount) <==> env.lookup == AcrossTenants;
  }

  /** The match result that a route amounts to. */
  function Decision(r: Route, pt: ProviderTransaction): Result<MatchResult> {
    match r
    case SuspenseRoute(via, reason) => ToSuspense(via, pt, reason)
    case WalletRoute(va, customer) =>
      var es := CreditCustomer(ProviderTx(pt.id), customer, pt.amount);
      if es.Err? then Err else Ok(MatchResult(Some(va), customer, es.value, None))
  }
}
