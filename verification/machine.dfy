/** The money engine under concurrency: any number of runs of every pipeline, split at
    their store calls, in any interleaving. A run that is never scheduled again has
    crashed; a call that fails (`ok` false) takes the pipeline's error return. */
module Machine {
  import opened Domain
  import opened Ledger
  import opened Books
  import opened Int64
  import opened Accounts
  import opened SideStores
  import opened Matcher
  import opened Worker
  import opened Traces
  import SuspenseService
  import WithdrawalService

  datatype Shared = Shared(
    book: Book, items: seq<Item>, collections: seq<Collection>, withdrawals: seq<Withdrawal>, env: Env)

  /** What a run does after its posting. */
  datatype After =
    | ThenItem(reason: Reason)
    | ThenFind(va: nat)
    | ThenNothing
    | ThenMark(item: nat)
    | ThenComplete(withdrawal: nat)

  /** A run's program counter with its local variables. */
  datatype Run =
    // credits and reversals
    | Checking(item: WorkItem)
    | Matching(item: WorkItem)
    | Identifying(item: WorkItem, match0: MatchResult)
    | TierReading(item: WorkItem, match0: MatchResult, limit: TierLimit)
    | DailyReading(item: WorkItem, match0: MatchResult, limit: TierLimit)
    | Posting(tx: Transaction, entries: seq<Entry>, next: After)
    | CreatingItem(id: TxID, reason: Reason)
    | Finding(id: TxID, va: nat, amount: int)
    | Fulfilling(id: TxID, collection: nat, amount: int)
    // resolutions
    | ReadingItem(sid: nat, resolution: SuspenseService.Resolution)
    | ReadingOriginal(sid: nat, target: string)
    | MarkingItem(sid: nat, status: ItemStatus)
    // withdrawals
    | CheckingFunds(req: WithdrawalService.Request)
    | Recording(req: WithdrawalService.Request)
    | Transferring(w: nat, req: WithdrawalService.Request)
    | MarkingWithdrawal(w: nat, outcome: WithdrawalStatus)
    // cancellations
    | ReadingCollection(collection: nat)
    | Cancelling(collection: nat)
    | Done

  predicate Initial(r: Run) {
    r.Checking? || r.Matching? || r.ReadingItem? || r.CheckingFunds? || r.ReadingCollection?
  }

  function StartOf(item: WorkItem): Run {
    if item.event == PaymentSuccess || item.event == PaymentReversal then Matching(item) else Done
  }

  function PostingOf(item: WorkItem, m: MatchResult): Run {
    Posting(TxOf(item, m.va), m.entries,
            if m.suspense.Some? then ThenItem(m.suspense.value)
            else if m.va.Some? && item.event == PaymentSuccess then ThenFind(m.va.value) else ThenNothing)
  }

  function Refuse(item: WorkItem, m: MatchResult): Run {
    var r := ToSuspense(m.va, item.payment, TierLimitReached);
    if r.Err? then Done else PostingOf(item, r.value)
  }

  function MatchStep(sh: Shared, item: WorkItem): Run {
    var t := sh.env.accounts;
    var va := Lookup(t, item.payment);
    if item.event == PaymentReversal then
      var r := MatchReversal(t, va, item.payment);
      if r.Err? then Done else PostingOf(item, r.value)
    else if item.event != PaymentSuccess then Done
    else
      var r := Match(t, va, item.payment);
      if r.Err? then Done
      else if r.value.suspense.None? && r.value.customer != "" then Identifying(item, r.value)
      else PostingOf(item, r.value)
  }

  /** The atomic insert and what the run does with its `created` answer: only the
      creator goes on to side effects, but a resolution or withdrawal always marks. */
  function AfterPost(tx: Transaction, next: After, created: bool): Run {
    match next
    case ThenItem(reason) => if created then CreatingItem(tx.id, reason) else Done
    case ThenFind(va) => if created then Finding(tx.id, va, tx.amount) else Done
    case ThenNothing => Done
    case ThenMark(item) => MarkingItem(item, Reassigned)
    case ThenComplete(w) => MarkingWithdrawal(w, Completed)
  }

  /** What the run does next when its store call reads only. */
  function ReadStep(sh: Shared, r: Run): Run {
    match r
    case Checking(item) => if ProviderTx(item.payment.id) in sh.book.txns then Done else StartOf(item)
    case Matching(item) => MatchStep(sh, item)
    case Identifying(item, m) =>
      var limit := LimitFor(sh.env, m.customer);
      if limit.None? then PostingOf(item, m) else TierReading(item, m, limit.value)
    case TierReading(item, m, limit) =>
      if OverBalanceCap(limit, Wrap(BalanceOf(sh.book, Wallet(m.customer))), item.payment.amount)
      then Refuse(item, m) else DailyReading(item, m, limit)
    case DailyReading(item, m, limit) =>
      if OverDailyCap(limit, Wrap(Sum(sh.book.rows, CreditsOn(Wallet(m.customer), DayOf(sh.env.now)))), item.payment.amount)
      then Refuse(item, m) else PostingOf(item, m)
    case Finding(id, va, amount) =>
      var c := FindOpen(sh.collections, va, amount, sh.env.now);
      if c.None? then Done else Fulfilling(id, c.value, amount)
    case ReadingItem(sid, res) =>
      if sid >= |sh.items| || sh.items[sid].status != Open then Done
      else (match res
            case FlagRefund => MarkingItem(sid, RefundFlagged)
            case OtherResolution => Done
            case Reassign(target, tenant) =>
              if target == "" || GetCustomer(sh.env, tenant, target).None? then Done
              else ReadingOriginal(sid, target))
    case ReadingOriginal(sid, target) =>
      if sid >= |sh.items| || sh.items[sid].tx !in sh.book.txns then Done
      else
        var amount := sh.book.txns[sh.items[sid].tx].amount;
        var es := SuspenseToCustomer(ResolutionTx(sid), target, amount);
        if es.Err? then Done
        else Posting(SuspenseService.ResolutionOf(sid, ScanStatus(sh.env.accounts, target, Active), amount, sh.env.now),
                     es.value, ThenMark(sid))
    case CheckingFunds(req) => if WithdrawalService.Accepts(sh.book, sh.env, req) then Recording(req) else Done
    case ReadingCollection(c) =>
      if c < |sh.collections| && sh.collections[c].status == CollOpen then Cancelling(c) else Done
    case _ => Done
  }

  /** A failed read ends the run, except that of the customer's identity: without one the
      tier check is skipped. */
  function FailedRead(r: Run): Run { if r.Identifying? then PostingOf(r.item, r.match0) else Done }

  predicate Writes(r: Run) {
    r.Posting? || r.CreatingItem? || r.Fulfilling? || r.MarkingItem? || r.Recording? || r.Transferring?
    || r.MarkingWithdrawal? || r.Cancelling?
  }

  /** One store call of a run. */
  function Advance(sh: Shared, r: Run, ok: bool): (Shared, Run) {
    if !Writes(r) then (sh, if ok then ReadStep(sh, r) else FailedRead(r))
    else if r.Transferring? then
      (sh, var es := WithdrawCustomer(WithdrawalTx(r.w), r.req.customer, r.req.amount);
           if !ok then MarkingWithdrawal(r.w, Failed)
           else if es.Err? then Done
           else Posting(WithdrawalService.WithdrawalOf(r.w, ScanStatus(sh.env.accounts, r.req.customer, Active),
                                                       r.req.amount, sh.env.now),
                        es.value, ThenComplete(r.w)))
    else if !ok then (sh, Done)
    else
      match r
      case Posting(tx, entries, next) =>
        (sh.(book := Post(sh.book, tx, entries)), AfterPost(tx, next, tx.id !in sh.book.txns))
      case CreatingItem(id, reason) => (sh.(items := sh.items + [Item(id, reason, Open)]), Done)
      case Fulfilling(id, c, _) => (sh.(collections := Fulfil(sh.collections, c, id)), Done)
      case MarkingItem(sid, status) => (sh.(items := ResolveItem(sh.items, sid, status)), Done)
      case Recording(req) =>
        (sh.(withdrawals := sh.withdrawals + [Withdrawal(req.customer, req.amount, Processing)]),
         Transferring(|sh.withdrawals|, req))
      case MarkingWithdrawal(w, outcome) =>
        (if w < |sh.withdrawals|
         then sh.(withdrawals := sh.withdrawals[w := sh.withdrawals[w].(status := outcome)]) else sh, Done)
      case Cancelling(c) => (sh.(collections := Cancel(sh.collections, c)), Done)
      case _ => (sh, Done)
  }

  datatype System = System(sh: Shared, runs: seq<Run>)

  datatype Event =
    | Step(run: nat, ok: bool)
    | Spawn(initial: Run)
    | SetEnv(env: Env)                       // lifecycle, limits, tiers and the clock
    | Collect(va: nat, expected: Option<int>, expiresAt: Option<int>)

  function Occur(s: System, e: Event): System {
    match e
    case Step(i, ok) =>
      if i >= |s.runs| then s
      else
        var (sh, r) := Advance(s.sh, s.runs[i], ok);
        System(sh, s.runs[i := r])
    case Spawn(r) => if Initial(r) then s.(runs := s.runs + [r]) else s
    case SetEnv(env) => s.(sh := s.sh.(env := env))
    case Collect(va, expected, expiry) =>
      s.(sh := s.sh.(collections := s.sh.collections + [Collection(va, expected, CollOpen, expiry, s.sh.env.now)]))
  }

  function Exec(s: System, events: seq<Event>): System { Fold(Occur, s, events) }

  function Boot(env: Env): System { System(Shared(EMPTY, [], [], [], env), []) }
}
