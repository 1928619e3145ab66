/** The reconciliation worker. `Absorb` says what one work item does to the four stores;
    the queue path and the direct path are separate methods, each proved to do that. */
module Worker {
  import opened Domain
  import opened Ledger
  import opened Books
  import opened Int64
  import opened Accounts
  import opened SideStores
  import opened TransactionStores
  import opened Matcher

  /** The stores that the money engine writes. */
  datatype Stores = Stores(book: Book, items: seq<Item>, collections: seq<Collection>)

  /** The item can post a transaction if its identifier is new. */
  predicate Postable(item: WorkItem) {
    (item.event == PaymentSuccess || item.event == PaymentReversal) && item.payment.amount > 0
  }

  function TxOf(item: WorkItem, va: Option<nat>): Transaction {
    var pt := item.payment;
    if item.event == PaymentReversal
    then Transaction(ProviderTx(pt.id), va, pt.session, pt.raw, pt.amount,
                     Debit, item.source, Reversed, pt.occurredAt)
    else Transaction(ProviderTx(pt.id), va, pt.session, pt.raw, pt.amount,
                     Credit, item.source, TxStatus.Posted, pt.occurredAt)
  }

  /** Post a transaction that moves its amount between two accounts. */
  function PostMove(b: Book, tx: Transaction, from: Account, to: Account): Book
    requires from != to
  {
    var es := Transfer(tx.id, from, to, tx.amount);
    if es.Err? then b else Post(b, tx, es.value)
  }

  /** What the stores refuse while one item is processed: `error` is a failed call up to and
      including the posting, which ends the processing; `sideLost` is a failed call after
      it, which is only logged. The lookup of the customer's identity is neither: when it
      fails the tier check is skipped, as in an environment whose lookup finds nobody. */
  datatype Faults = Faults(error: bool, sideLost: bool)

  const NO_FAULTS: Faults := Faults(false, false)

  function AbsorbCredit(st: Stores, env: Env, item: WorkItem, sideLost: bool): Stores {
    var pt := item.payment;
    match RouteOf(env, st.book, pt)
    case WalletRoute(va, customer) =>
      var tx := TxOf(item, Some(va));
      Stores(PostMove(st.book, tx, Settlement, Wallet(customer)), st.items,
             if sideLost then st.collections else TryFulfil(st.collections, va, tx.id, pt.amount, env.now))
    case SuspenseRoute(via, reason) =>
      var tx := TxOf(item, via);
      Stores(PostMove(st.book, tx, Settlement, Suspense),
             if sideLost then st.items else st.items + [Item(tx.id, reason, Open)], st.collections)
  }

  function AbsorbReversal(st: Stores, env: Env, item: WorkItem): Stores {
    var va := Lookup(env.accounts, item.payment);
    var from := if va.None? then Suspense else Wallet(env.accounts[va.value].customer);
    st.(book := PostMove(st.book, TxOf(item, va), from, Settlement))
  }

  /** One work item, processed without interleaving: nothing if a call fails, or unless it is
      postable and its identifier is new; otherwise one posting and its side effect. */
  function Absorb(st: Stores, env: Env, item: WorkItem, f: Faults := NO_FAULTS): Stores {
    if f.error || !Postable(item) || ProviderTx(item.payment.id) in st.book.txns then st
    else if item.event == PaymentSuccess then AbsorbCredit(st, env, item, f.sideLost)
    else AbsorbReversal(st, env, item)
  }

  /** What the queue path records on the webhook event. */
  datatype Mark = Processed | Ignored | FailedMark

  datatype ProcessResult = ProcessResult(skipped: bool, posted: bool, suspensed: bool)

  /** Whatever the route, a positive credit's entries are a posting that credits the
      account the route names. */
  lemma DecisionPosts(r: Route, item: WorkItem, tx: Transaction)
    requires Postable(item) && item.event == PaymentSuccess && tx == TxOf(item, tx.va)
    ensures Decision(r, item.payment).Ok?
    ensures IsPosting(tx, Decision(r, item.payment).value.entries)
  {
    TransferIsPosting(tx, Settlement, if r.WalletRoute? then Wallet(r.customer) else Suspense);
  }

  lemma ReversalPosts(t: Table, va: Option<nat>, item: WorkItem, tx: Transaction)
    requires va.Some? ==> va.value < |t|
    requires Postable(item) && item.event == PaymentReversal && tx == TxOf(item, tx.va)
    ensures MatchReversal(t, va, item.payment).Ok?
    ensures IsPosting(tx, MatchReversal(t, va, item.payment).value.entries)
  {
    TransferIsPosting(tx, if va.None? then Suspense else Wallet(t[va.value].customer), Settlement);
  }

  class ReconWorker {
    const txns: TransactionStore
    const suspense: SuspenseStore
    const collections: CollectionStore
    const accounts: VirtualAccountStore

    constructor (
      txns: TransactionStore, suspense: SuspenseStore, collections: CollectionStore, accounts: VirtualAccountStore)
      ensures this.txns == txns && this.suspense == suspense
      ensures this.collections == collections && this.accounts == accounts
    {
      this.txns, this.suspense, this.collections, this.accounts := txns, suspense, collections, accounts;
    }

    function Value(): Stores
      reads txns, suspense, collections
    {
      Stores(txns.Value(), suspense.items, collections.rows)
    }

    /** The environment of a call: the account table is read from the store. */
    ghost predicate Reads(env: Env)
      reads accounts
    {
      accounts.Valid() && env.accounts == accounts.accounts
    }

    method CheckTierLimits(wallet: Account, amount: int, limit: TierLimit, now: int) returns (breach: bool)
      ensures breach == OverCaps(limit, txns.Value(), wallet, amount, now)
    {
      if limit.maxBalance > 0 {
        var balance := txns.GetBalance(wallet);
        if Wrap(balance + amount) > limit.maxBalance { return true; }
      }
      if limit.dailyCredit > 0 {
        var daily := txns.GetDailyCredits(wallet, now);
        if Wrap(daily + amount) > limit.dailyCredit { return true; }
      }
      breach := false;
    }

    method FindAccount(pt: ProviderTransaction) returns (va: Option<nat>)
      requires accounts.Valid()
      ensures va == Lookup(accounts.accounts, pt)
    {
      va := None;
      if pt.accountRef != "" { va := accounts.GetVAByAccountRef(pt.accountRef); }
      if va.None? && pt.accountNumber != "" { va := accounts.GetVAByNUBAN(pt.accountNumber); }
    }

    /** Match, then let a tier breach overwrite the result with a suspense credit. */
    method Decide(pt: ProviderTransaction, env: Env) returns (r: Result<MatchResult>)
      requires Reads(env)
      ensures r == Decision(RouteOf(env, txns.Value(), pt), pt)
    {
      var va := FindAccount(pt);
      r := Match(accounts.accounts, va, pt);
      if r.Ok? && r.value.suspense.None? && r.value.customer != "" {
        var customer := GetCustomer(env, "", r.value.customer);
        if customer.Some? && customer.value.tier.Some? && customer.value.tier.value in env.limits {
          var limit := env.limits[customer.value.tier.value];
          var breach := CheckTierLimits(Wallet(r.value.customer), pt.amount, limit, env.now);
          if breach {
            r := ToSuspense(r.value.va, pt, TierLimitReached);
          }
        }
      }
    }

    /** The tail that both credit paths share: post, and on creation alone record the
        suspense item or look for a collection to fulfil. */
    method PostCredit(result: MatchResult, item: WorkItem, env: Env, f: Faults) returns (created: bool)
      requires Reads(env) && Postable(item) && item.event == PaymentSuccess
      requires Decision(RouteOf(env, txns.Value(), item.payment), item.payment) == Ok(result) && !f.error
      modifies txns, suspense, collections
      ensures created <==> ProviderTx(item.payment.id) !in old(txns.txns)
      ensures Value() == Absorb(old(Value()), env, item, f)
    {
      var pt := item.payment;
      var tx := TxOf(item, result.va);
      DecisionPosts(RouteOf(env, txns.Value(), pt), item, tx);
      PostingNetsToZero(tx, result.entries);
      var outcome := txns.PostTransaction(tx, result.entries);
      if outcome != Created { return false; }
      if f.sideLost {
        return true;
      } else if result.suspense.Some? {
        suspense.CreateSuspenseItem(Item(tx.id, result.suspense.value, Open));
      } else if result.va.Some? {
        collections.TryFulfill(result.va.value, tx.id, pt.amount, env.now);
      }
      created := true;
    }

    // ── Queue path ──────────────────────────────────────────────────────────

    method ProcessCredit(item: WorkItem, env: Env, f: Faults) returns (mark: Mark)
      requires Reads(env) && item.event == PaymentSuccess
      modifies txns, suspense, collections
      ensures Value() == Absorb(old(Value()), env, item, f)
      ensures mark == (if f.error || item.payment.amount <= 0 then FailedMark
                       else if ProviderTx(item.payment.id) in old(txns.txns) then Ignored else Processed)
    {
      var result := Decide(item.payment, env);
      if f.error || result.Err? { return FailedMark; }
      var created := PostCredit(result.value, item, env, f);
      mark := if created then Processed else Ignored;
    }

    method ProcessReversal(item: WorkItem, env: Env, f: Faults) returns (ok: bool)
      requires Reads(env) && item.event == PaymentReversal
      modifies txns
      ensures Value() == Absorb(old(Value()), env, item, f)
      ensures ok <==> item.payment.amount > 0 && !f.error
    {
      var va := FindAccount(item.payment);
      var result := MatchReversal(accounts.accounts, va, item.payment);
      if f.error || result.Err? { return false; }
      var tx := TxOf(item, va);
      ReversalPosts(accounts.accounts, va, item, tx);
      PostingNetsToZero(tx, result.value.entries);
      var outcome := txns.PostTransaction(tx, result.value.entries);
      ok := true;
    }

    /** One item taken from the queue. */
    method Process(item: WorkItem, env: Env, f: Faults) returns (mark: Mark)
      requires Reads(env)
      modifies txns, suspense, collections
      ensures Value() == Absorb(old(Value()), env, item, f)
      ensures mark == FailedMark <==>
                (item.event == PaymentSuccess || item.event == PaymentReversal) && (f.error || item.payment.amount <= 0)
      ensures mark == Processed <==>
                Postable(item) && !f.error && (item.event == PaymentReversal || ProviderTx(item.payment.id) !in old(txns.txns))
    {
      match item.event
      case PaymentSuccess => mark := ProcessCredit(item, env, f);
      case PaymentReversal =>
        var ok := ProcessReversal(item, env, f);
        mark := if ok then Processed else FailedMark;
      case PaymentFailed => mark := Ignored;
      case UnknownEvent(_) => mark := Ignored;
    }

    // ── Direct path ─────────────────────────────────────────────────────────

    /** The sweep's synchronous path: it looks for the transaction first. */
    method ProcessDirect(item: WorkItem, env: Env, f: Faults) returns (r: Result<ProcessResult>)
      requires Reads(env)
      modifies txns, suspense, collections
      ensures Value() == Absorb(old(Value()), env, item, f)
      ensures var known := ProviderTx(item.payment.id) in old(txns.txns);
              r == (if f.error then Err else if known || (item.event != PaymentSuccess && item.event != PaymentReversal)
                    then Ok(ProcessResult(true, false, false))
                    else if item.payment.amount <= 0 then Err
                    else Ok(ProcessResult(false, true, item.event == PaymentSuccess
                              && RouteOf(env, old(txns.Value()), item.payment).SuspenseRoute?)))
    {
      if f.error { return Err; }
      var existing := txns.GetTransaction(ProviderTx(item.payment.id));
      if existing.Some? { return Ok(ProcessResult(true, false, false)); }
      match item.event
      case PaymentSuccess =>
        var result := Decide(item.payment, env);
        if result.Err? { return Err; }
        var suspensed := result.value.suspense.Some?;
        var created := PostCredit(result.value, item, env, f);
        r := Ok(ProcessResult(false, created, created && suspensed));
      case PaymentReversal =>
        var ok := ProcessReversal(item, env, f);
        r := if ok then Ok(ProcessResult(false, true, false)) else Err;
      case PaymentFailed => r := Ok(ProcessResult(true, false, false));
      case UnknownEvent(_) => r := Ok(ProcessResult(true, false, false));
    }
  }
}
