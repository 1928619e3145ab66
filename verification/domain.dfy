/** Entities of the money engine: identifiers, transactions, ledger entries,
    virtual accounts, suspense items, collections and withdrawals. No state. */
module Domain {

  datatype Option<+T> = None | Some(value: T)

  datatype Result<+T> = Ok(value: T) | Err

  datatype Direction = Debit | Credit

  /** The ledger accounts that the code posts to. */
  datatype Account = Settlement | Suspense | Wallet(customer: string)

  /** A transaction is named by the provider, by the suspense item it resolves,
      or by the withdrawal it settles. The printed names are below. */
  datatype TxID = ProviderTx(name: string) | ResolutionTx(item: nat) | WithdrawalTx(withdrawal: nat)

  datatype Source = Webhook | Sweep | Internal

  datatype TxStatus = Posted | Reversed

  /** The JSON stored with a transaction. A webhook's is its whole body, given here by its
      top-level keys, in lower case, which is how Go's decoder compares them; everything
      else is marshalled by the engine itself, under Go field names. */
  datatype Payload = Body(top: map<string, string>) | Marshalled

  /** What decoding the key `session_id` from the top level gives, or "". */
  function SessionIn(p: Payload): string {
    if p.Body? && "session_id" in p.top then p.top["session_id"] else ""
  }

  datatype Transaction = Transaction(
    id: TxID, va: Option<nat>, session: string, raw: Payload, amount: int,
    direction: Direction, source: Source, status: TxStatus, occurredAt: int)

  datatype Entry = Entry(tx: TxID, account: Account, direction: Direction, amount: int)

  /** A stored ledger entry together with its transaction's occurrence time. */
  datatype Row = Row(entry: Entry, at: int)

  datatype VAStatus = Pending | Active | Suspended | Closed {
    /** The lifecycle automaton of a virtual account; Closed is terminal. */
    predicate ValidTransition(next: VAStatus) {
      match this
      case Pending => next == Active
      case Active => next == Suspended || next == Closed
      case Suspended => next == Active || next == Closed
      case Closed => false
    }
  }

  datatype VirtualAccount = VirtualAccount(customer: string, ref: string, nuban: string, status: VAStatus)

  datatype Reason = Unmatched | ClosedAccount | SuspendedAccount | TierLimitReached

  datatype ItemStatus = Open | Reassigned | RefundFlagged

  datatype Item = Item(tx: TxID, reason: Reason, status: ItemStatus)

  datatype CollectionStatus = CollOpen | Fulfilled(tx: TxID) | Cancelled

  datatype Collection = Collection(
    va: nat, expected: Option<int>, status: CollectionStatus, expiresAt: Option<int>, createdAt: int)

  datatype WithdrawalStatus = Processing | Completed | Failed

  datatype Withdrawal = Withdrawal(customer: string, amount: int, status: WithdrawalStatus)

  /** A transfer as the provider reports it. */
  datatype ProviderTransaction = ProviderTransaction(
    id: string, session: string, raw: Payload, accountNumber: string, accountRef: string, amount: int,
    occurredAt: int)

  datatype EventType = PaymentSuccess | PaymentReversal | PaymentFailed | UnknownEvent(raw: string)

  datatype WorkItem = WorkItem(event: EventType, payment: ProviderTransaction, source: Source)

  /** A cap of zero means uncapped. */
  datatype TierLimit = TierLimit(dailyCredit: int, maxBalance: int)

  /** `tier` is None when the customer has no identity record. */
  datatype Customer = Customer(tenant: string, tier: Option<int>)

  // ── Printed names ─────────────────────────────────────────────────────────

  function AccountName(a: Account): string {
    match a
    case Settlement => "nomba_settlement"
    case Suspense => "suspense"
    case Wallet(c) => "customer_wallet:" + c
  }

  function ResolutionTxID(itemID: string): string { "vn:res:" + itemID }

  function WithdrawalTxID(withdrawalID: string): string { "vn:wd:" + withdrawalID }

  predicate IsInternal(id: string) { "vn:" <= id }

  lemma PrefixCancels(p: string, a: string, b: string)
    requires p + a == p + b
    ensures a == b
  {
    assert (p + a)[|p|..] == a && (p + b)[|p|..] == b;
  }

  /** Two accounts share a printed name only if they are the same account. */
  lemma AccountNameInjective(a: Account, b: Account)
    requires AccountName(a) == AccountName(b)
    ensures a == b
  {
    if a.Wallet? && b.Wallet? {
      PrefixCancels("customer_wallet:", a.customer, b.customer);
    } else {
      assert AccountName(a)[0] == AccountName(b)[0];
    }
  }

  /** Resolution and withdrawal identifiers are injective, disjoint from each
      other and from every provider identifier outside the `vn:` namespace. */
  lemma InternalIDsAreDistinct(a: string, b: string, provider: string)
    requires !IsInternal(provider)
    ensures ResolutionTxID(a) == ResolutionTxID(b) <==> a == b
    ensures WithdrawalTxID(a) == WithdrawalTxID(b) <==> a == b
    ensures ResolutionTxID(a) != WithdrawalTxID(b)
    ensures ResolutionTxID(a) != provider && WithdrawalTxID(a) != provider
  {
    if ResolutionTxID(a) == ResolutionTxID(b) { PrefixCancels("vn:res:", a, b); }
    if WithdrawalTxID(a) == WithdrawalTxID(b) { PrefixCancels("vn:wd:", a, b); }
    assert ResolutionTxID(a)[3] == 'r' && WithdrawalTxID(b)[3] == 'w';
    assert ResolutionTxID(a)[..3] == "vn:" && WithdrawalTxID(a)[..3] == "vn:";
  }
}

/** Go's int64: addition and subtraction wrap modulo 2^64. */
module Int64 {
  const LIMIT: int := 0x8000_0000_0000_0000

  predicate Fits(x: int) { -LIMIT <= x < LIMIT }

  /** The value in range that differs from x by a multiple of 2^64. */
  function Wrap(x: int): (r: int)
    ensures Fits(r)
    ensures Fits(x) ==> r == x
    decreases if x < 0 then -2 * x else 2 * x + 1
  {
    if x >= LIMIT then Wrap(x - 2 * LIMIT)
    else if x < -LIMIT then Wrap(x + 2 * LIMIT)
    else x
  }

  lemma WrapPeriodic(x: int)
    ensures Wrap(x - 2 * LIMIT) == Wrap(x)
  {}

  /** Only the last wrap of a chain of additions matters. */
  lemma {:induction false} WrapAdd(x: int, y: int)
    ensures Wrap(Wrap(x) + y) == Wrap(x + y)
    decreases if x < 0 then -2 * x else 2 * x + 1
  {
    if x >= LIMIT {
      WrapAdd(x - 2 * LIMIT, y);
      WrapPeriodic(x + y);
    } else if x < -LIMIT {
      WrapAdd(x + 2 * LIMIT, y);
      WrapPeriodic(x + y + 2 * LIMIT);
    }
  }
}
