/** Resolution of suspense items: reassignment moves the money under an identifier
    derived from the item, then marks the item; a refund flag only marks it. */
module SuspenseService {
  import opened Domain
  import opened Ledger
  import opened Books
  import opened Accounts
  import opened SideStores
  import opened TransactionStores
  import opened Matcher
  import opened Worker

  datatype Resolution = Reassign(target: string, tenant: string) | FlagRefund | OtherResolution

  datatype ResolveOutcome = Resolved | NotFound | Invalid

  function ResolutionOf(id: nat, va: Option<nat>, amount: int, now: int): Transaction {
    Transaction(ResolutionTx(id), va, "", Marshalled, amount, Credit, Internal, TxStatus.Posted, now)
  }

  /** Which calls go through. */
  predicate Accepts(st: Stores, env: Env, id: nat, r: Resolution) {
    && id < |st.items| && st.items[id].status == Open
    && match r
       case FlagRefund => true
       case OtherResolution => false
       case Reassign(target, tenant) =>
         && target != "" && GetCustomer(env, tenant, target).Some?
         && st.items[id].tx in st.book.txns && st.book.txns[st.items[id].tx].amount > 0
  }

  /** The effect of an accepted call: an item resolved before under the same identifier
      moves no money again, whatever target is named now. */
  function Settle(st: Stores, env: Env, id: nat, r: Resolution): Stores
    requires Accepts(st, env, id, r)
  {
    match r
    case FlagRefund => st.(items := st.items[id := st.items[id].(status := RefundFlagged)])
    case Reassign(target, _) =>
      var va := ScanStatus(env.accounts, target, Active);
      var tx := ResolutionOf(id, va, st.book.txns[st.items[id].tx].amount, env.now);
      st.(book := PostMove(st.book, tx, Suspense, Wallet(target)),
          items := st.items[id := st.items[id].(status := Reassigned)])
  }

  function ResolveEffect(st: Stores, env: Env, id: nat, r: Resolution): Stores {
    if Accepts(st, env, id, r) then Settle(st, env, id, r) else st
  }

  class Service {
    const txns: TransactionStore
    const suspense: SuspenseStore
    const accounts: VirtualAccountStore

    constructor (txns: TransactionStore, suspense: SuspenseStore, accounts: VirtualAccountStore)
      ensures this.txns == txns && this.suspense == suspense && this.accounts == accounts
    {
      this.txns, this.suspense, this.accounts := txns, suspense, accounts;
    }

    function Value(collections: seq<Collection>): Stores
      reads txns, suspense
    {
      Stores(txns.Value(), suspense.items, collections)
    }

    method Resolve(id: nat, r: Resolution, env: Env, ghost cs: seq<Collection>) returns (outcome: ResolveOutcome)
      requires accounts.Valid() && env.accounts == accounts.accounts
      modifies txns, suspense
      ensures Value(cs) == ResolveEffect(old(Value(cs)), env, id, r)
      ensures outcome == Resolved <==> Accepts(old(Value(cs)), env, id, r)
      ensures outcome == NotFound <==>
                (id >= |old(suspense.items)| ||
                 (old(suspense.items)[id].status == Open && r.Reassign? && r.target != "" &&
                  (GetCustomer(env, r.tenant, r.target).None? || old(suspense.items)[id].tx !in old(txns.txns))))
    {
      var item := suspense.GetSuspenseItem(id);
      if item.None? { return NotFound; }
      if item.value.status != Open { return Invalid; }
      match r
      case Reassign(target, tenant) => outcome := ResolveByReassign(id, target, tenant, env, cs);
      case FlagRefund =>
        suspense.ResolveSuspenseItem(id, RefundFlagged);
        outcome := Resolved;
      case OtherResolution => outcome := Invalid;
    }

    method ResolveByReassign(id: nat, target: string, tenant: string, env: Env, ghost cs: seq<Collection>)
      returns (outcome: ResolveOutcome)
      requires accounts.Valid() && env.accounts == accounts.accounts
      requires id < |suspense.items| && suspense.items[id].status == Open
      modifies txns, suspense
      ensures Value(cs) == ResolveEffect(old(Value(cs)), env, id, Reassign(target, tenant))
      ensures outcome == Resolved <==> Accepts(old(Value(cs)), env, id, Reassign(target, tenant))
      ensures outcome == NotFound <==>
                && target != ""
                && (GetCustomer(env, tenant, target).None? || old(suspense.items)[id].tx !in old(txns.txns))
    {
      if target == "" { return Invalid; }
      var customer := GetCustomer(env, tenant, target);
      if customer.None? { return NotFound; }
      var orig := txns.GetTransaction(suspense.items[id].tx);
      if orig.None? { return NotFound; }
      var entries := SuspenseToCustomer(ResolutionTx(id), target, orig.value.amount);
      if entries.Err? { return Invalid; }
      var va := accounts.GetActiveVA(target);
      var tx := ResolutionOf(id, va, orig.value.amount, env.now);
      TransferIsPosting(tx, Suspense, Wallet(target));
      PostingNetsToZero(tx, entries.value);
      var posted := txns.PostTransaction(tx, entries.value);
      suspense.ResolveSuspenseItem(id, Reassigned);
      outcome := Resolved;
    }
  }
}

/** Outbound transfers: balance check, record, provider call, posting, status. */
module WithdrawalService {
  import opened Domain
  import opened Ledger
  import opened Books
  import opened Int64
  import opened Accounts
  import opened TransactionStores
  import opened Matcher
  import opened Worker

  datatype Request = Request(
    customer: string, tenant: string, amount: int, bankCode: string, accountNumber: string, accountName: string)

  predicate Accepts(b: Book, env: Env, req: Request) {
    && req.amount > 0
    && req.bankCode != "" && req.accountNumber != "" && req.accountName != ""
    && GetCustomer(env, req.tenant, req.customer).Some?
    && Wrap(BalanceOf(b, Wallet(req.customer))) >= req.amount
  }

  function WithdrawalOf(id: nat, va: Option<nat>, amount: int, now: int): Transaction {
    Transaction(WithdrawalTx(id), va, "", Marshalled, amount, Debit, Internal, TxStatus.Posted, now)
  }

  datatype Outbound = Outbound(book: Book, withdrawals: seq<Withdrawal>)

  /** One withdrawal without interleaving; `transferred` is the provider's answer. */
  function InitiateEffect(o: Outbound, env: Env, req: Request, transferred: bool): Outbound {
    if !Accepts(o.book, env, req) then o
    else if !transferred then o.(withdrawals := o.withdrawals + [Withdrawal(req.customer, req.amount, Failed)])
    else
      var tx := WithdrawalOf(|o.withdrawals|, ScanStatus(env.accounts, req.customer, Active), req.amount, env.now);
      Outbound(PostMove(o.book, tx, Wallet(req.customer), Settlement),
               o.withdrawals + [Withdrawal(req.customer, req.amount, Completed)])
  }

  class Service {
    const txns: TransactionStore
    const accounts: VirtualAccountStore
    var withdrawals: seq<Withdrawal>

    constructor (txns: TransactionStore, accounts: VirtualAccountStore)
      ensures this.txns == txns && this.accounts == accounts && withdrawals == []
    {
      this.txns, this.accounts, withdrawals := txns, accounts, [];
    }

    function Value(): Outbound
      reads this, txns
    {
      Outbound(txns.Value(), withdrawals)
    }

    method UpdateWithdrawalStatus(id: nat, status: WithdrawalStatus)
      requires id < |withdrawals|
      modifies this
      ensures withdrawals == old(withdrawals)[id := old(withdrawals)[id].(status := status)]
    {
      withdrawals := withdrawals[id := withdrawals[id].(status := status)];
    }

    method Initiate(req: Request, transferred: bool, env: Env) returns (accepted: bool)
      requires accounts.Valid() && env.accounts == accounts.accounts
      modifies this, txns
      ensures accepted == Accepts(old(txns.Value()), env, req)
      ensures Value() == InitiateEffect(old(Value()), env, req, transferred)
    {
      if req.amount <= 0 || req.bankCode == "" || req.accountNumber == "" || req.accountName == "" { return false; }
      var customer := GetCustomer(env, req.tenant, req.customer);
      if customer.None? { return false; }
      var balance := txns.GetBalance(Wallet(req.customer));
      if balance < req.amount { return false; }
      var va := accounts.GetActiveVA(req.customer);
      var id := |withdrawals|;
      withdrawals := withdrawals + [Withdrawal(req.customer, req.amount, Processing)];
      accepted := true;
      if !transferred {
        UpdateWithdrawalStatus(id, Failed);
        return;
      }
      var entries := WithdrawCustomer(WithdrawalTx(id), req.customer, req.amount);
      var tx := WithdrawalOf(id, va, req.amount, env.now);
      TransferIsPosting(tx, Wallet(req.customer), Settlement);
      PostingNetsToZero(tx, entries.value);
      var posted := txns.PostTransaction(tx, entries.value);
      UpdateWithdrawalStatus(id, Completed);
    }
  }
}
