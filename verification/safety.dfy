/** What every reachable state of the machine satisfies, whatever the interleaving. */
module Safety {
  import opened Domain
  import opened Ledger
  import opened Books
  import opened Accounts
  import opened SideStores
  import opened Matcher
  import opened Worker
  import opened Machine
  import SuspenseService
  import WithdrawalService

  /** The account that a transaction credited. */
  function CreditedBy(b: Book, id: TxID): Account {
    var rows := RowsOf(b.rows, id);
    if |rows| == 2 then rows[1].entry.account else Settlement
  }

  /** The account that a transaction debited. */
  function DebitedBy(b: Book, id: TxID): Account {
    var rows := RowsOf(b.rows, id);
    if |rows| == 2 then rows[0].entry.account else Settlement
  }

  predicate ProviderCredit(b: Book, id: TxID) {
    id.ProviderTx? && id in b.txns && b.txns[id].direction == Credit
  }

  /** A posted credit that went to suspense, or to a wallet. */
  predicate Suspensed(b: Book, id: TxID) { ProviderCredit(b, id) && CreditedBy(b, id) == Suspense }

  predicate Credited(b: Book, id: TxID) { ProviderCredit(b, id) && CreditedBy(b, id).Wallet? }

  // ── Invariants of the stores ──────────────────────────────────────────────

  predicate KnownInternals(sh: Shared) {
    forall id <- sh.book.txns ::
      && (id.ResolutionTx? ==> id.item < |sh.items|)
      && (id.WithdrawalTx? ==> id.withdrawal < |sh.withdrawals|)
  }

  /** One item per transaction, and only for a credit that is on suspense. */
  ghost predicate ItemsOk(sh: Shared) {
    && (forall it <- sh.items :: Suspensed(sh.book, it.tx))
    && (forall i, j :: 0 <= i < j < |sh.items| ==> sh.items[i].tx != sh.items[j].tx)
  }

  predicate FitsExpected(c: Collection, amount: int) { c.expected.None? || c.expected.value == amount }

  /** A fulfilled collection names a posted wallet credit to its own account, of the expected
      amount, and no other collection names the same one. */
  ghost predicate CollectionsOk(sh: Shared) {
    && (forall c <- sh.collections :: c.status.Fulfilled? ==>
          Credited(sh.book, c.status.tx) && FitsExpected(c, sh.book.txns[c.status.tx].amount)
          && sh.book.txns[c.status.tx].va == Some(c.va))
    && (forall i, j :: 0 <= i < j < |sh.collections| && sh.collections[i].status.Fulfilled? ==>
          sh.collections[j].status != sh.collections[i].status)
  }

  /** A completed withdrawal has its posting, a failed one has none. */
  ghost predicate WithdrawalsOk(sh: Shared) {
    forall w :: 0 <= w < |sh.withdrawals| ==>
      && (sh.withdrawals[w].status == Completed ==> WithdrawalTx(w) in sh.book.txns)
      && (sh.withdrawals[w].status == Failed ==> WithdrawalTx(w) !in sh.book.txns)
      && (WithdrawalTx(w) in sh.book.txns ==> PaidOut(sh.book, w, sh.withdrawals[w]))
  }

  /** The posting took the withdrawal's amount from its customer's wallet. */
  predicate PaidOut(b: Book, w: nat, record: Withdrawal)
    requires WithdrawalTx(w) in b.txns
  {
    b.txns[WithdrawalTx(w)].amount == record.amount && DebitedBy(b, WithdrawalTx(w)) == Wallet(record.customer)
  }

  /** A resolution moved exactly its item's original amount, and an item marked as
      reassigned has been resolved. */
  ghost predicate ResolutionsOk(sh: Shared) {
    && (forall k :: 0 <= k < |sh.items| && ResolutionTx(k) in sh.book.txns ==>
          && sh.items[k].tx in sh.book.txns
          && sh.book.txns[ResolutionTx(k)].amount == sh.book.txns[sh.items[k].tx].amount)
    && (forall k :: 0 <= k < |sh.items| && sh.items[k].status == Reassigned ==> ResolutionTx(k) in sh.book.txns)
  }

  /** The transactions whose money has left suspense by a resolution. */
  function Released(items: seq<Item>, txns: map<TxID, Transaction>): (s: set<TxID>)
    ensures forall t <- s :: exists k :: 0 <= k < |items| && items[k].tx == t && ResolutionTx(k) in txns
    ensures forall k :: 0 <= k < |items| && ResolutionTx(k) in txns ==> items[k].tx in s
  {
    set k | 0 <= k < |items| && ResolutionTx(k) in txns :: items[k].tx
  }

  /** Suspense holds every suspensed credit not yet released, less the reversals. */
  predicate SuspenseConserved(sh: Shared) {
    BalanceOf(sh.book, Suspense)
    == Sum(sh.book.rows, HeldExcept(Released(sh.items, sh.book.txns))) - Sum(sh.book.rows, ReversedFrom(Suspense))
  }

  // ── Invariants of the runs ────────────────────────────────────────────────

  predicate WalletMatch(item: WorkItem, m: MatchResult) {
    && item.event == PaymentSuccess && item.payment.amount > 0
    && m.va.Some? && m.suspense.None?
    && CreditCustomer(ProviderTx(item.payment.id), m.customer, item.payment.amount) == Result.Ok(m.entries)
  }

  predicate PostingOk(sh: Shared, tx: Transaction, entries: seq<Entry>, next: After) {
    && IsPosting(tx, entries)
    && match next
       case ThenItem(_) => tx.id.ProviderTx? && tx.direction == Credit && entries[1].account == Suspense
       case ThenFind(va) =>
         tx.id.ProviderTx? && tx.direction == Credit && entries[1].account.Wallet? && tx.va == Some(va)
       case ThenNothing => tx.id.ProviderTx?
       case ThenMark(k) =>
         tx.id == ResolutionTx(k) && k < |sh.items| && sh.items[k].tx in sh.book.txns
         && tx.amount == sh.book.txns[sh.items[k].tx].amount
       case ThenComplete(w) =>
         tx.id == WithdrawalTx(w) && w < |sh.withdrawals| && sh.withdrawals[w].status == Processing
         && tx.amount == sh.withdrawals[w].amount && entries[0].account == Wallet(sh.withdrawals[w].customer)
         && tx.id !in sh.book.txns
  }

  ghost predicate RunOk(sh: Shared, r: Run) {
    match r
    case Identifying(item, m) => WalletMatch(item, m)
    case TierReading(item, m, _) => WalletMatch(item, m)
    case DailyReading(item, m, _) => WalletMatch(item, m)
    case Posting(tx, entries, next) => PostingOk(sh, tx, entries, next)
    case CreatingItem(id, _) => Suspensed(sh.book, id) && forall it <- sh.items :: it.tx != id
    case Finding(id, va, amount) => CreditPending(sh, id, amount) && sh.book.txns[id].va == Some(va)
    case Fulfilling(id, c, amount) =>
      CreditPending(sh, id, amount) && c < |sh.collections| && FitsExpected(sh.collections[c], amount)
      && sh.book.txns[id].va == Some(sh.collections[c].va)
    case MarkingItem(k, status) => status == Reassigned ==> k < |sh.items| && ResolutionTx(k) in sh.book.txns
    case Transferring(w, req) =>
      w < |sh.withdrawals| && sh.withdrawals[w] == Withdrawal(req.customer, req.amount, Processing)
      && WithdrawalTx(w) !in sh.book.txns
    case MarkingWithdrawal(w, outcome) =>
      w < |sh.withdrawals|
      && (if outcome == Completed then WithdrawalTx(w) in sh.book.txns
          else outcome == Failed && WithdrawalTx(w) !in sh.book.txns)
    case _ => true
  }

  ghost predicate CreditPending(sh: Shared, id: TxID, amount: int) {
    && Credited(sh.book, id) && sh.book.txns[id].amount == amount
    && forall c <- sh.collections :: c.status != Fulfilled(id)
  }

  /** The transaction or withdrawal that a run alone may act for. */
  function OwnedBy(r: Run): Option<TxID> {
    match r
    case CreatingItem(id, _) => Some(id)
    case Finding(id, _, _) => Some(id)
    case Fulfilling(id, _, _) => Some(id)
    case Posting(tx, _, ThenComplete(w)) => Some(WithdrawalTx(w))
    case Transferring(w, _) => Some(WithdrawalTx(w))
    case MarkingWithdrawal(w, _) => Some(WithdrawalTx(w))
    case _ => None
  }

  predicate Exclusive(runs: seq<Run>) {
    forall i, j :: 0 <= i < j < |runs| && OwnedBy(runs[i]).Some? ==> OwnedBy(runs[i]) != OwnedBy(runs[j])
  }

  ghost predicate StoresOk(sh: Shared) {
    && Sound(sh.book) && KnownInternals(sh) && ItemsOk(sh) && CollectionsOk(sh)
    && WithdrawalsOk(sh) && ResolutionsOk(sh) && SuspenseConserved(sh)
  }

  ghost predicate Inv(s: System) {
    StoresOk(s.sh) && Exclusive(s.runs) && forall r <- s.runs :: RunOk(s.sh, r)
  }

  // ── Reading steps keep the run well formed ────────────────────────────────

  lemma PostingOfWallet(sh: Shared, item: WorkItem, m: MatchResult)
    requires WalletMatch(item, m)
    ensures RunOk(sh, PostingOf(item, m)) && OwnedBy(PostingOf(item, m)) == None
  {
    TransferIsPosting(TxOf(item, m.va), Settlement, Wallet(m.customer));
  }

  lemma PostingOfSuspense(sh: Shared, item: WorkItem, via: Option<nat>, reason: Reason)
    requires item.event == PaymentSuccess
    ensures var r := ToSuspense(via, item.payment, reason);
            r.Ok? ==> RunOk(sh, PostingOf(item, r.value)) && OwnedBy(PostingOf(item, r.value)) == None
  {
    if item.payment.amount > 0 { TransferIsPosting(TxOf(item, via), Settlement, Suspense); }
  }

  lemma PostingOfReversal(sh: Shared, item: WorkItem, va: Option<nat>)
    requires item.event == PaymentReversal && (va.Some? ==> va.value < |sh.env.accounts|)
    ensures var r := MatchReversal(sh.env.accounts, va, item.payment);
            r.Ok? ==> RunOk(sh, PostingOf(item, r.value)) && OwnedBy(PostingOf(item, r.value)) == None
  {
    if item.payment.amount > 0 {
      TransferIsPosting(TxOf(item, va), if va.None? then Suspense else Wallet(sh.env.accounts[va.value].customer), Settlement);
    }
  }

  lemma MatchStepOk(sh: Shared, item: WorkItem)
    ensures RunOk(sh, MatchStep(sh, item)) && OwnedBy(MatchStep(sh, item)) == None
  {
    var va := Lookup(sh.env.accounts, item.payment);
    if item.event == PaymentReversal {
      PostingOfReversal(sh, item, va);
    } else if item.event == PaymentSuccess {
      PostingOfSuspense(sh, item, va, Unmatched);
      PostingOfSuspense(sh, item, va, ClosedAccount);
      PostingOfSuspense(sh, item, va, SuspendedAccount);
      var r := Match(sh.env.accounts, va, item.payment);
      if r.Ok? && r.value.suspense.None? { PostingOfWallet(sh, item, r.value); }
    }
  }

  lemma PostingOfResolution(sh: Shared, k: nat, target: string)
    ensures var r := ReadStep(sh, ReadingOriginal(k, target)); RunOk(sh, r) && OwnedBy(r) == None
  {
    if k < |sh.items| && sh.items[k].tx in sh.book.txns && sh.book.txns[sh.items[k].tx].amount > 0 {
      TransferIsPosting(
        SuspenseService.ResolutionOf(k, ScanStatus(sh.env.accounts, target, Active), sh.book.txns[sh.items[k].tx].amount, sh.env.now),
        Suspense, Wallet(target));
    }
  }

  lemma ReadStepOk(sh: Shared, r: Run)
    requires RunOk(sh, r) && !Writes(r)
    ensures RunOk(sh, ReadStep(sh, r))
    ensures OwnedBy(ReadStep(sh, r)).Some? ==> OwnedBy(ReadStep(sh, r)) == OwnedBy(r)
  {
    hide Sum, RowsOf, Suspensed, Credited, ScanStatus, FindOpen;
    match r
    case Matching(item) => MatchStepOk(sh, item);
    case Identifying(item, m) => PostingOfWallet(sh, item, m);
    case TierReading(item, m, _) => PostingOfSuspense(sh, item, m.va, TierLimitReached);
    case DailyReading(item, m, _) =>
      PostingOfSuspense(sh, item, m.va, TierLimitReached);
      PostingOfWallet(sh, item, m);
    case ReadingOriginal(k, target) => PostingOfResolution(sh, k, target);
    case _ =>
  }

  lemma FailedReadOk(sh: Shared, r: Run)
    requires RunOk(sh, r)
    ensures RunOk(sh, FailedRead(r)) && OwnedBy(FailedRead(r)) == None
  {
    if r.Identifying? { PostingOfWallet(sh, r.item, r.match0); }
  }

  // ── The atomic insert ─────────────────────────────────────────────────────

  lemma PostCredits(b: Book, tx: Transaction, entries: seq<Entry>, id: TxID)
    requires Sound(b) && tx.id !in b.txns && IsPosting(tx, entries) && id in Post(b, tx, entries).txns
    ensures CreditedBy(Post(b, tx, entries), id) == if id == tx.id then entries[1].account else CreditedBy(b, id)
    ensures DebitedBy(Post(b, tx, entries), id) == if id == tx.id then entries[0].account else DebitedBy(b, id)
    ensures ProviderCredit(Post(b, tx, entries), id)
         <==> if id == tx.id then id.ProviderTx? && tx.direction == Credit else ProviderCredit(b, id)
  {
    PostKeepsRows(b, tx, entries, id);
  }

  /** Nothing that was posted is ever lost or changed by a later insert. */
  lemma PostedIsStable(b: Book, tx: Transaction, entries: seq<Entry>, id: TxID)
    requires Sound(b) && IsPosting(tx, entries) && id in b.txns
    ensures var b' := Post(b, tx, entries);
            id in b'.txns && b'.txns[id] == b.txns[id] && RowsOf(b'.rows, id) == RowsOf(b.rows, id)
    ensures Suspensed(Post(b, tx, entries), id) == Suspensed(b, id)
    ensures Credited(Post(b, tx, entries), id) == Credited(b, id)
  {
    if tx.id !in b.txns { PostKeepsRows(b, tx, entries, id); }
  }

  lemma PostKeepsItems(sh: Shared, tx: Transaction, entries: seq<Entry>)
    requires Sound(sh.book) && ItemsOk(sh) && IsPosting(tx, entries)
    ensures ItemsOk(sh.(book := Post(sh.book, tx, entries)))
  {
    forall it <- sh.items ensures Suspensed(Post(sh.book, tx, entries), it.tx) {
      PostedIsStable(sh.book, tx, entries, it.tx);
    }
  }

  lemma PostKeepsCollections(sh: Shared, tx: Transaction, entries: seq<Entry>)
    requires Sound(sh.book) && CollectionsOk(sh) && IsPosting(tx, entries)
    ensures CollectionsOk(sh.(book := Post(sh.book, tx, entries)))
  {
    var sh' := sh.(book := Post(sh.book, tx, entries));
    forall c <- sh'.collections | c.status.Fulfilled?
      ensures Credited(sh'.book, c.status.tx) && FitsExpected(c, sh'.book.txns[c.status.tx].amount)
      ensures sh'.book.txns[c.status.tx].va == Some(c.va)
    {
      PostedIsStable(sh.book, tx, entries, c.status.tx);
    }
  }

  lemma PostKeepsWithdrawals(sh: Shared, tx: Transaction, entries: seq<Entry>, next: After)
    requires Sound(sh.book) && WithdrawalsOk(sh) && PostingOk(sh, tx, entries, next) && tx.id !in sh.book.txns
    ensures WithdrawalsOk(sh.(book := Post(sh.book, tx, entries)))
  {
    var b' := Post(sh.book, tx, entries);
    forall w | 0 <= w < |sh.withdrawals| && WithdrawalTx(w) in b'.txns
      ensures PaidOut(b', w, sh.withdrawals[w]) && sh.withdrawals[w].status != Failed
    {
      PostCredits(sh.book, tx, entries, WithdrawalTx(w));
    }
  }

  lemma {:induction false} ReleaseLowersHeld(rows: seq<Row>, released: set<TxID>, t: TxID)
    requires t !in released
    ensures Sum(rows, HeldExcept(released + {t}))
         == Sum(rows, HeldExcept(released)) - Sum(RowsOf(rows, t), HeldExcept({}))
  {
    if rows != [] {
      var init, r := rows[..|rows| - 1], rows[|rows| - 1];
      ReleaseLowersHeld(init, released, t);
      var own := RowsOf(init, t);
      if r.entry.tx == t {
        assert (own + [r])[..|own|] == own;
      } else {
        assert own + [] == own;
      }
    }
  }

  lemma SuspensedHoldsItsAmount(b: Book, t: TxID)
    requires Sound(b) && Suspensed(b, t)
    ensures Sum(RowsOf(b.rows, t), HeldExcept({})) == b.txns[t].amount
  {
    var rows := RowsOf(b.rows, t);
    assert Balanced(b.txns[t], rows);
    assert rows[..1] == [rows[0]] && Sum(rows[..1], HeldExcept({})) == 0;
  }

  /** Releasing an item's money lowers what suspense holds by the original amount. */
  lemma PostKeepsSuspense(sh: Shared, tx: Transaction, entries: seq<Entry>, next: After)
    requires StoresOk(sh) && PostingOk(sh, tx, entries, next) && tx.id !in sh.book.txns
    ensures SuspenseConserved(sh.(book := Post(sh.book, tx, entries)))
  {
    hide Sum, RowsOf, Sound, CollectionsOk, WithdrawalsOk, Suspensed;
    var b' := Post(sh.book, tx, entries);
    var was, now := Released(sh.items, sh.book.txns), Released(sh.items, b'.txns);
    PostAdds(sh.book, tx, entries, Balance(Suspense));
    PostAdds(sh.book, tx, entries, ReversedFrom(Suspense));
    PostAdds(sh.book, tx, entries, HeldExcept(now));
    if next.ThenMark? {
      var t := sh.items[next.item].tx;
      assert t !in was;
      assert now == was + {t};
      ReleaseLowersHeld(sh.book.rows, was, t);
      SuspensedHoldsItsAmount(sh.book, t);
    } else {
      assert now == was;
      assert tx.id !in was;
    }
  }

  lemma PostKeepsStores(sh: Shared, tx: Transaction, entries: seq<Entry>, next: After)
    requires StoresOk(sh) && PostingOk(sh, tx, entries, next)
    ensures StoresOk(sh.(book := Post(sh.book, tx, entries)))
  {
    hide Sum, RowsOf;
    if tx.id !in sh.book.txns {
      PostKeepsSound(sh.book, tx, entries);
      PostKeepsItems(sh, tx, entries);
      PostKeepsCollections(sh, tx, entries);
      PostKeepsWithdrawals(sh, tx, entries, next);
      PostKeepsSuspense(sh, tx, entries, next);
    } else {
      assert sh.(book := Post(sh.book, tx, entries)) == sh;
    }
  }

  /** The insert leaves every run well formed that does not own its withdrawal. */
  lemma PostKeepsRun(sh: Shared, tx: Transaction, entries: seq<Entry>, next: After, other: Run)
    requires StoresOk(sh) && PostingOk(sh, tx, entries, next) && RunOk(sh, other)
    requires OwnedBy(other).Some? ==> OwnedBy(other) != OwnedBy(Posting(tx, entries, next))
    ensures RunOk(sh.(book := Post(sh.book, tx, entries)), other)
  {
    hide Sum, RowsOf, Sound, IsPosting, ItemsOk, CollectionsOk, SuspenseConserved, CreditedBy;
    match other
    case CreatingItem(id, _) => PostedIsStable(sh.book, tx, entries, id);
    case Finding(id, _, _) => PostedIsStable(sh.book, tx, entries, id);
    case Fulfilling(id, _, _) => PostedIsStable(sh.book, tx, entries, id);
    case Posting(_, _, ThenMark(k)) => PostedIsStable(sh.book, tx, entries, sh.items[k].tx);
    case _ =>
  }

  lemma AfterPostOk(sh: Shared, tx: Transaction, entries: seq<Entry>, next: After)
    requires StoresOk(sh) && PostingOk(sh, tx, entries, next)
    ensures var sh' := sh.(book := Post(sh.book, tx, entries));
            RunOk(sh', AfterPost(tx, next, tx.id !in sh.book.txns))
  {
    if tx.id !in sh.book.txns {
      PostCredits(sh.book, tx, entries, tx.id);
    }
  }

  // ── The other writes ──────────────────────────────────────────────────────

  lemma CreateItemKeeps(sh: Shared, id: TxID, reason: Reason)
    requires StoresOk(sh) && RunOk(sh, CreatingItem(id, reason))
    ensures StoresOk(Advance(sh, CreatingItem(id, reason), true).0)
  {
    hide Sum, RowsOf, Sound, Suspensed, Credited, PaidOut, FitsExpected;
    var sh' := Advance(sh, CreatingItem(id, reason), true).0;
    assert ResolutionTx(|sh.items|) !in sh.book.txns;
    assert Released(sh'.items, sh'.book.txns) == Released(sh.items, sh.book.txns);
  }

  lemma MarkReleasesNothing(items: seq<Item>, sid: nat, status: ItemStatus, txns: map<TxID, Transaction>)
    ensures var items' := ResolveItem(items, sid, status);
            && |items'| == |items|
            && (forall k :: 0 <= k < |items| ==> items'[k].tx == items[k].tx)
            && (forall k :: 0 <= k < |items| ==> items'[k].status == items[k].status || (k == sid && items'[k].status == status))
            && Released(items', txns) == Released(items, txns)
  {}

  lemma MarkItemKeeps(sh: Shared, sid: nat, status: ItemStatus)
    requires StoresOk(sh) && RunOk(sh, MarkingItem(sid, status))
    ensures StoresOk(Advance(sh, MarkingItem(sid, status), true).0)
  {
    hide Sum, RowsOf, Sound, CreditedBy, DebitedBy, Released, ResolveItem;
    MarkReleasesNothing(sh.items, sid, status, sh.book.txns);
  }

  lemma FulfilKeeps(sh: Shared, id: TxID, c: nat, amount: int)
    requires StoresOk(sh) && RunOk(sh, Fulfilling(id, c, amount))
    ensures StoresOk(Advance(sh, Fulfilling(id, c, amount), true).0)
  {}

  lemma CancelKeeps(sh: Shared, c: nat)
    requires StoresOk(sh)
    ensures StoresOk(Advance(sh, Cancelling(c), true).0)
  {
    hide Sum, RowsOf, Suspensed, Credited, PaidOut;
    assert Cancel(sh.collections, c) == sh.collections
        || Cancel(sh.collections, c) == sh.collections[c := sh.collections[c].(status := Cancelled)];
  }

  lemma WithdrawalWritesKeep(sh: Shared, r: Run)
    requires StoresOk(sh) && RunOk(sh, r) && (r.Recording? || r.MarkingWithdrawal?)
    ensures StoresOk(Advance(sh, r, true).0)
  {}

  /** A write keeps the stores and turns its run into a well-formed one that owns no
      more than before, or a withdrawal that did not exist. */
  lemma WriteKeepsStores(sh: Shared, r: Run, ok: bool)
    requires StoresOk(sh) && RunOk(sh, r) && Writes(r)
    ensures StoresOk(Advance(sh, r, ok).0)
  {
    hide StoresOk, Sum, RowsOf;
    if ok {
      match r
      case Posting(tx, entries, next) => PostKeepsStores(sh, tx, entries, next);
      case CreatingItem(id, reason) => CreateItemKeeps(sh, id, reason);
      case MarkingItem(sid, status) => MarkItemKeeps(sh, sid, status);
      case Fulfilling(id, c, amount) => FulfilKeeps(sh, id, c, amount);
      case Recording(_) => WithdrawalWritesKeep(sh, r);
      case MarkingWithdrawal(_, _) => WithdrawalWritesKeep(sh, r);
      case Cancelling(c) => CancelKeeps(sh, c);
      case _ =>
    }
  }

  lemma TransferOk(sh: Shared, r: Run, ok: bool)
    requires r.Transferring? && RunOk(sh, r)
    ensures RunOk(Advance(sh, r, ok).0, Advance(sh, r, ok).1)
  {
    if r.req.amount > 0 {
      TransferIsPosting(
        WithdrawalService.WithdrawalOf(r.w, ScanStatus(sh.env.accounts, r.req.customer, Active), r.req.amount, sh.env.now),
        Wallet(r.req.customer), Settlement);
    }
  }

  lemma WriteKeepsOwnRun(sh: Shared, r: Run, ok: bool)
    requires StoresOk(sh) && RunOk(sh, r) && Writes(r)
    ensures RunOk(Advance(sh, r, ok).0, Advance(sh, r, ok).1)
  {
    hide Sum, RowsOf, Sound, ItemsOk, CollectionsOk, ResolutionsOk, SuspenseConserved, Effect;
    match r
    case Posting(tx, entries, next) => if ok { AfterPostOk(sh, tx, entries, next); }
    case Transferring(_, _) => TransferOk(sh, r, ok);
    case _ =>
  }

  lemma ItemWriteKeepsOther(sh: Shared, r: Run, other: Run)
    requires RunOk(sh, r) && (r.CreatingItem? || r.MarkingItem?) && RunOk(sh, other)
    requires OwnedBy(other).Some? ==> OwnedBy(other) != OwnedBy(r)
    ensures RunOk(Advance(sh, r, true).0, other)
  {
    var items' := Advance(sh, r, true).0.items;
    assert |items'| >= |sh.items| && forall k :: 0 <= k < |sh.items| ==> items'[k].tx == sh.items[k].tx;
  }

  lemma CollectionWriteKeepsOther(sh: Shared, r: Run, other: Run)
    requires RunOk(sh, r) && (r.Fulfilling? || r.Cancelling?) && RunOk(sh, other)
    requires OwnedBy(other).Some? ==> OwnedBy(other) != OwnedBy(r)
    ensures RunOk(Advance(sh, r, true).0, other)
  {
    hide Sum, RowsOf;
    var cs' := Advance(sh, r, true).0.collections;
    assert |cs'| == |sh.collections|;
    assert forall k :: 0 <= k < |cs'| ==> cs'[k].expected == sh.collections[k].expected && cs'[k].va == sh.collections[k].va;
  }

  lemma WithdrawalWriteKeepsOther(sh: Shared, r: Run, other: Run)
    requires RunOk(sh, r) && (r.Recording? || r.MarkingWithdrawal?) && RunOk(sh, other)
    requires OwnedBy(other).Some? ==> OwnedBy(other) != OwnedBy(r)
    ensures RunOk(Advance(sh, r, true).0, other)
  {}

  /** A write leaves every other run well formed. */
  lemma WriteKeepsOther(sh: Shared, r: Run, ok: bool, other: Run)
    requires StoresOk(sh) && RunOk(sh, r) && Writes(r) && RunOk(sh, other)
    requires OwnedBy(other).Some? ==> OwnedBy(other) != OwnedBy(r)
    ensures RunOk(Advance(sh, r, ok).0, other)
  {
    hide Sum, RowsOf;
    if ok && !r.Transferring? {
      if r.Posting? {
        PostKeepsRun(sh, r.tx, r.entries, r.next, other);
      } else if r.CreatingItem? || r.MarkingItem? {
        ItemWriteKeepsOther(sh, r, other);
      } else if r.Fulfilling? || r.Cancelling? {
        CollectionWriteKeepsOther(sh, r, other);
      } else {
        WithdrawalWriteKeepsOther(sh, r, other);
      }
    }
  }

  /** What a run owns after a step: what it owned, the transaction it just created, or
      the withdrawal it just recorded. */
  lemma OwnershipAfter(sh: Shared, r: Run, ok: bool)
    requires StoresOk(sh) && RunOk(sh, r)
    ensures var o := OwnedBy(Advance(sh, r, ok).1);
            o.Some? && o != OwnedBy(r) ==>
              || (o.value.ProviderTx? && o.value !in sh.book.txns && o.value in Advance(sh, r, ok).0.book.txns)
              || o.value == WithdrawalTx(|sh.withdrawals|)
  {
    hide StoresOk, Sum, RowsOf, IsPosting, Balanced, Suspensed, Credited, PaidOut, FitsExpected;
    if !Writes(r) {
      ReadStepOk(sh, r);
      FailedReadOk(sh, r);
    }
  }

  /** Owned identifiers are posted transactions or recorded withdrawals. */
  lemma OwnedExists(sh: Shared, r: Run)
    requires RunOk(sh, r) && OwnedBy(r).Some?
    ensures match OwnedBy(r).value
            case ProviderTx(_) => OwnedBy(r).value in sh.book.txns
            case WithdrawalTx(w) => w < |sh.withdrawals|
            case ResolutionTx(_) => false
  {}

  lemma StepKeepsExclusive(s: System, i: nat, ok: bool)
    requires Inv(s) && i < |s.runs|
    ensures Exclusive(Occur(s, Step(i, ok)).runs)
  {
    var r' := Advance(s.sh, s.runs[i], ok).1;
    OwnershipAfter(s.sh, s.runs[i], ok);
    forall j | 0 <= j < |s.runs| && j != i && OwnedBy(r').Some?
      ensures OwnedBy(s.runs[j]) != OwnedBy(r')
    {
      if OwnedBy(s.runs[j]).Some? { OwnedExists(s.sh, s.runs[j]); }
    }
  }

  lemma StepKeepsInv(s: System, i: nat, ok: bool)
    requires Inv(s) && i < |s.runs|
    ensures Inv(Occur(s, Step(i, ok)))
  {
    hide Sum, RowsOf;
    var r := s.runs[i];
    var s' := Occur(s, Step(i, ok));
    StepKeepsExclusive(s, i, ok);
    if Writes(r) {
      WriteKeepsStores(s.sh, r, ok);
      WriteKeepsOwnRun(s.sh, r, ok);
      forall j | 0 <= j < |s.runs| ensures RunOk(s'.sh, s'.runs[j]) {
        if j != i { WriteKeepsOther(s.sh, r, ok, s.runs[j]); }
      }
    } else {
      ReadStepOk(s.sh, r);
      FailedReadOk(s.sh, r);
    }
  }

  lemma {:induction false} EnvIsIrrelevant(sh: Shared, env: Env, r: Run)
    requires RunOk(sh, r)
    ensures RunOk(sh.(env := env), r)
  {}

  lemma CollectKeepsRun(sh: Shared, c: Collection, r: Run)
    requires RunOk(sh, r) && c.status == CollOpen
    ensures RunOk(sh.(collections := sh.collections + [c]), r)
  {}

  lemma StepEventKeepsInv(s: System, i: nat, ok: bool)
    requires Inv(s)
    ensures Inv(Occur(s, Step(i, ok)))
  {
    if i < |s.runs| { StepKeepsInv(s, i, ok); }
  }

  lemma SpawnKeepsInv(s: System, r: Run)
    requires Inv(s)
    ensures Inv(Occur(s, Spawn(r)))
  {}

  lemma EnvKeepsInv(s: System, env: Env)
    requires Inv(s)
    ensures Inv(Occur(s, SetEnv(env)))
  {
    forall r <- s.runs ensures RunOk(s.sh.(env := env), r) { EnvIsIrrelevant(s.sh, env, r); }
  }

  lemma CollectKeepsInv(s: System, va: nat, expected: Option<int>, expiresAt: Option<int>)
    requires Inv(s)
    ensures Inv(Occur(s, Collect(va, expected, expiresAt)))
  {
    hide Sum, RowsOf, RunOk;
    var c := Collection(va, expected, CollOpen, expiresAt, s.sh.env.now);
    forall r <- s.runs ensures RunOk(s.sh.(collections := s.sh.collections + [c]), r) { CollectKeepsRun(s.sh, c, r); }
  }

  /** Every event keeps the invariant. */
  lemma EventKeepsInv(s: System, e: Event)
    requires Inv(s)
    ensures Inv(Occur(s, e))
  {
    hide *;
    match e
    case Step(i, ok) => StepEventKeepsInv(s, i, ok);
    case Spawn(r) => SpawnKeepsInv(s, r);
    case SetEnv(env) => EnvKeepsInv(s, env);
    case Collect(va, expected, expiresAt) => CollectKeepsInv(s, va, expected, expiresAt);
  }

  lemma {:induction false} ReachableInv(env: Env, events: seq<Event>)
    ensures Inv(Exec(Boot(env), events))
  {
    if events == [] {
      assert Released([], map[]) == {};
    } else {
      ReachableInv(env, events[..|events| - 1]);
      EventKeepsInv(Exec(Boot(env), events[..|events| - 1]), events[|events| - 1]);
    }
  }
}
