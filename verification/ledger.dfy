/** The six entry constructors: the only source of ledger entries. Each debits one
    account and credits another for the same positive amount, or refuses. */
module Ledger {
  import opened Domain

  function SignedAmount(e: Entry): int { if e.direction == Credit then e.amount else -e.amount }

  /** Net effect of some entries on one account. */
  function Effect(es: seq<Entry>, a: Account): int {
    if es == [] then 0
    else Effect(es[..|es| - 1], a) + if es[|es| - 1].account == a then SignedAmount(es[|es| - 1]) else 0
  }

  /** The value `amount` moves from one account to another, and nothing else happens. */
  ghost predicate Moves(es: seq<Entry>, id: TxID, from: Account, to: Account, amount: int) {
    && |es| == 2
    && (forall e <- es :: e.tx == id && e.amount == amount)
    && (forall a :: Effect(es, a) == (if a == to then amount else 0) - (if a == from then amount else 0))
  }

  function Transfer(id: TxID, from: Account, to: Account, amount: int): (r: Result<seq<Entry>>)
    requires from != to
    ensures r.Ok? <==> amount > 0
    ensures r.Ok? ==> Moves(r.value, id, from, to, amount)
  {
    if amount <= 0 then Err
    else
      var es := [Entry(id, from, Debit, amount), Entry(id, to, Credit, amount)];
      assert es[..1] == [es[0]];
      assert forall a :: Effect(es[..1], a) == if a == from then -amount else 0;
      Ok(es)
  }

  function CreditCustomer(id: TxID, customer: string, amount: int): Result<seq<Entry>> {
    Transfer(id, Settlement, Wallet(customer), amount)
  }

  function CreditSuspense(id: TxID, amount: int): Result<seq<Entry>> {
    Transfer(id, Settlement, Suspense, amount)
  }

  function ReversalEntries(id: TxID, customer: string, amount: int): Result<seq<Entry>> {
    Transfer(id, Wallet(customer), Settlement, amount)
  }

  function ReversalToSuspense(id: TxID, amount: int): Result<seq<Entry>> {
    Transfer(id, Suspense, Settlement, amount)
  }

  function WithdrawCustomer(id: TxID, customer: string, amount: int): Result<seq<Entry>> {
    Transfer(id, Wallet(customer), Settlement, amount)
  }

  function SuspenseToCustomer(id: TxID, customer: string, amount: int): Result<seq<Entry>> {
    Transfer(id, Suspense, Wallet(customer), amount)
  }
}

/** The book: transactions by identifier and the append-only list of rows, with
    one notion of sum for every balance-like quantity read from it. */
module Books {
  import opened Domain
  import opened Ledger
  import opened Int64

  /** One UTC day; times count nanoseconds. */
  const DAY: int := 86_400_000_000_000

  /** A time is on a day from its midnight up to the next, 24 hours later. */
  lemma DayBounds(t: int, day: int)
    ensures DayOf(t) == day <==> day * 24 * 3600 * 1_000_000_000 <= t < (day + 1) * 24 * 3600 * 1_000_000_000
  {}

  /** What a sum over the rows adds up. */
  datatype Measure =
    | Balance(account: Account)                  // credits minus debits of one account
    | BalanceBefore(account: Account, t: int)    // the same, rows before t only
    | CreditsOn(account: Account, day: int)      // credits of one account on one UTC day
    | Debits                                     // every debit
    | Credits                                    // every credit
    | Wallets                                    // credits minus debits of all wallets
    | ReversedFrom(account: Account)             // provider debits of one account
    | HeldExcept(released: set<TxID>)            // suspense credits of unreleased transactions
    | SuspenseCredits                            // how many rows credit suspense

  function DayOf(t: int): int { t / DAY }

  function Weight(m: Measure, r: Row): int {
    match m
    case Balance(a) => if r.entry.account == a then SignedAmount(r.entry) else 0
    case BalanceBefore(a, t) => if r.entry.account == a && r.at < t then SignedAmount(r.entry) else 0
    case CreditsOn(a, d) =>
      if r.entry.account == a && r.entry.direction == Credit && DayOf(r.at) == d then r.entry.amount else 0
    case Debits => if r.entry.direction == Debit then r.entry.amount else 0
    case Credits => if r.entry.direction == Credit then r.entry.amount else 0
    case Wallets => if r.entry.account.Wallet? then SignedAmount(r.entry) else 0
    case ReversedFrom(a) =>
      if r.entry.account == a && r.entry.direction == Debit && r.entry.tx.ProviderTx? then r.entry.amount else 0
    case HeldExcept(released) =>
      if r.entry.account == Suspense && r.entry.direction == Credit && r.entry.tx !in released
      then r.entry.amount else 0
    case SuspenseCredits => if r.entry.account == Suspense && r.entry.direction == Credit then 1 else 0
  }

  function Sum(rows: seq<Row>, m: Measure): int {
    if rows == [] then 0 else Sum(rows[..|rows| - 1], m) + Weight(m, rows[|rows| - 1])
  }

  lemma {:induction false} SumAppend(a: seq<Row>, b: seq<Row>, m: Measure)
    ensures Sum(a + b, m) == Sum(a, m) + Sum(b, m)
  {
    if b == [] {
      assert a + b == a;
    } else {
      SumAppend(a, b[..|b| - 1], m);
      assert (a + b)[..|a + b| - 1] == a + b[..|b| - 1];
    }
  }

  lemma SumStep(rows: seq<Row>, i: nat, m: Measure)
    requires i < |rows|
    ensures Sum(rows[..i + 1], m) == Sum(rows[..i], m) + Weight(m, rows[i])
  {
    assert rows[..i + 1][..i] == rows[..i];
  }

  lemma {:induction false} SumNonNegative(rows: seq<Row>, m: Measure)
    requires forall r <- rows :: Weight(m, r) >= 0
    ensures Sum(rows, m) >= 0
  {
    if rows != [] { SumNonNegative(rows[..|rows| - 1], m); }
  }

  function Stamp(es: seq<Entry>, at: int): (rows: seq<Row>)
    ensures |rows| == |es| && forall i :: 0 <= i < |es| ==> rows[i] == Row(es[i], at)
  {
    seq(|es|, i requires 0 <= i < |es| => Row(es[i], at))
  }

  /** The rows that belong to one transaction, in order. */
  function RowsOf(rows: seq<Row>, id: TxID): seq<Row> {
    if rows == [] then []
    else RowsOf(rows[..|rows| - 1], id) + if rows[|rows| - 1].entry.tx == id then [rows[|rows| - 1]] else []
  }

  lemma {:induction false} RowsOfAppend(a: seq<Row>, b: seq<Row>, id: TxID)
    ensures RowsOf(a + b, id) == RowsOf(a, id) + RowsOf(b, id)
  {
    if b == [] {
      assert a + b == a;
    } else {
      RowsOfAppend(a, b[..|b| - 1], id);
      assert (a + b)[..|a + b| - 1] == a + b[..|b| - 1];
    }
  }

  datatype Book = Book(txns: map<TxID, Transaction>, rows: seq<Row>)

  const EMPTY: Book := Book(map[], [])

  function BalanceOf(b: Book, a: Account): int { Sum(b.rows, Balance(a)) }

  /** Insert-if-absent: what the single atomic write of the ledger does. */
  function Post(b: Book, tx: Transaction, entries: seq<Entry>): Book {
    if tx.id in b.txns then b
    else Book(b.txns[tx.id := tx], b.rows + Stamp(entries, tx.occurredAt))
  }

  /** The two accounts a transaction may move money between. */
  predicate Legs(tx: Transaction, from: Account, to: Account) {
    match tx.id
    case ProviderTx(_) =>
      if tx.direction == Credit then from == Settlement && to != Settlement
      else to == Settlement && from != Settlement
    case ResolutionTx(_) => from == Suspense && to.Wallet?
    case WithdrawalTx(_) => from.Wallet? && to == Settlement
  }

  /** The rows of a transaction are one debit and one credit at its own amount. */
  predicate Balanced(tx: Transaction, rows: seq<Row>) {
    && tx.amount > 0
    && |rows| == 2
    && rows[0] == Row(Entry(tx.id, rows[0].entry.account, Debit, tx.amount), tx.occurredAt)
    && rows[1] == Row(Entry(tx.id, rows[1].entry.account, Credit, tx.amount), tx.occurredAt)
    && Legs(tx, rows[0].entry.account, rows[1].entry.account)
  }

  /** Every transaction has exactly its two balanced rows, and no row is orphaned. */
  ghost predicate Sound(b: Book) {
    && (forall id <- b.txns :: b.txns[id].id == id && Balanced(b.txns[id], RowsOf(b.rows, id)))
    && (forall r <- b.rows :: r.entry.tx in b.txns && r.entry.amount > 0)
    && Sum(b.rows, Debits) == Sum(b.rows, Credits)
    && Sum(b.rows, Balance(Settlement)) + Sum(b.rows, Balance(Suspense)) + Sum(b.rows, Wallets) == 0
  }

  /** These entries are what a sound book accepts for this transaction. */
  predicate IsPosting(tx: Transaction, entries: seq<Entry>) {
    Balanced(tx, Stamp(entries, tx.occurredAt))
  }

  /** A transfer built by the ledger between admissible accounts is a posting. */
  lemma TransferIsPosting(tx: Transaction, from: Account, to: Account)
    requires Legs(tx, from, to) && tx.amount > 0
    ensures Transfer(tx.id, from, to, tx.amount).Ok?
    ensures IsPosting(tx, Transfer(tx.id, from, to, tx.amount).value)
  {}

  /** A posting adds the weight of its two rows to every sum. */
  lemma PostAdds(b: Book, tx: Transaction, entries: seq<Entry>, m: Measure)
    requires tx.id !in b.txns && IsPosting(tx, entries)
    ensures var rows := Stamp(entries, tx.occurredAt);
            Sum(Post(b, tx, entries).rows, m) == Sum(b.rows, m) + Weight(m, rows[0]) + Weight(m, rows[1])
  {
    var rows := Stamp(entries, tx.occurredAt);
    SumAppend(b.rows, rows, m);
    assert rows[..1] == [rows[0]] && Sum(rows[..1], m) == Weight(m, rows[0]);
  }

  lemma {:induction false} NoRowsOfUnknown(rows: seq<Row>, id: TxID)
    requires forall r <- rows :: r.entry.tx != id
    ensures RowsOf(rows, id) == []
  {
    if rows != [] { NoRowsOfUnknown(rows[..|rows| - 1], id); }
  }

  lemma RowsOfPosting(tx: Transaction, entries: seq<Entry>, id: TxID)
    requires IsPosting(tx, entries)
    ensures RowsOf(Stamp(entries, tx.occurredAt), id) == if id == tx.id then Stamp(entries, tx.occurredAt) else []
  {
    var rows := Stamp(entries, tx.occurredAt);
    assert rows[..1] == [rows[0]] && rows == [rows[0]] + [rows[1]];
    assert RowsOf(rows[..1], id) == if id == tx.id then [rows[0]] else [];
  }

  /** A posting leaves every other transaction's rows alone. */
  lemma PostKeepsRows(b: Book, tx: Transaction, entries: seq<Entry>, id: TxID)
    requires forall r <- b.rows :: r.entry.tx in b.txns
    requires tx.id !in b.txns && IsPosting(tx, entries)
    ensures RowsOf(Post(b, tx, entries).rows, id)
         == if id == tx.id then Stamp(entries, tx.occurredAt) else RowsOf(b.rows, id)
  {
    RowsOfAppend(b.rows, Stamp(entries, tx.occurredAt), id);
    RowsOfPosting(tx, entries, id);
    if id == tx.id { NoRowsOfUnknown(b.rows, id); }
  }

  /** The two legs of a posting cancel in the totals that must balance. */
  lemma PostKeepsTotals(b: Book, tx: Transaction, entries: seq<Entry>)
    requires Sound(b) && tx.id !in b.txns && IsPosting(tx, entries)
    ensures var rows := Post(b, tx, entries).rows;
            && Sum(rows, Debits) == Sum(rows, Credits)
            && Sum(rows, Balance(Settlement)) + Sum(rows, Balance(Suspense)) + Sum(rows, Wallets) == 0
  {
    PostAdds(b, tx, entries, Debits);
    PostAdds(b, tx, entries, Credits);
    PostAdds(b, tx, entries, Balance(Settlement));
    PostAdds(b, tx, entries, Balance(Suspense));
    PostAdds(b, tx, entries, Wallets);
  }

  /** Posting keeps a book sound, whether or not the identifier is known. */
  lemma PostKeepsSound(b: Book, tx: Transaction, entries: seq<Entry>)
    requires Sound(b) && IsPosting(tx, entries)
    ensures Sound(Post(b, tx, entries))
  {
    if tx.id !in b.txns {
      var b' := Post(b, tx, entries);
      forall id <- b'.txns ensures b'.txns[id].id == id && Balanced(b'.txns[id], RowsOf(b'.rows, id)) {
        PostKeepsRows(b, tx, entries, id);
      }
      PostKeepsTotals(b, tx, entries);
    }
  }

  // ── Conservation of money ─────────────────────────────────────────────────

  function SumBalances(rows: seq<Row>, customers: seq<string>): int {
    if customers == [] then 0
    else SumBalances(rows, customers[..|customers| - 1]) + Sum(rows, Balance(Wallet(customers[|customers| - 1])))
  }

  predicate Distinct<T(==)>(s: seq<T>) { forall i, j :: 0 <= i < j < |s| ==> s[i] != s[j] }

  lemma {:induction false} SumBalancesStep(rows: seq<Row>, r: Row, customers: seq<string>)
    requires Distinct(customers)
    ensures SumBalances(rows + [r], customers) == SumBalances(rows, customers)
              + if r.entry.account.Wallet? && r.entry.account.customer in customers then SignedAmount(r.entry) else 0
  {
    if customers != [] {
      var last := customers[|customers| - 1];
      SumBalancesStep(rows, r, customers[..|customers| - 1]);
      assert (rows + [r])[..|rows|] == rows;
      assert customers == customers[..|customers| - 1] + [last];
    }
  }

  lemma {:induction false} WalletsAreCustomers(rows: seq<Row>, customers: seq<string>)
    requires Distinct(customers)
    requires forall r <- rows :: r.entry.account.Wallet? ==> r.entry.account.customer in customers
    ensures SumBalances(rows, customers) == Sum(rows, Wallets)
  {
    if rows == [] {
      NoBalances(customers);
    } else {
      var init := rows[..|rows| - 1];
      assert rows == init + [rows[|rows| - 1]];
      SumBalancesStep(init, rows[|rows| - 1], customers);
      WalletsAreCustomers(init, customers);
    }
  }

  lemma {:induction false} NoBalances(customers: seq<string>)
    ensures SumBalances([], customers) == 0
  {
    if customers != [] { NoBalances(customers[..|customers| - 1]); }
  }

  /** Settlement, suspense and all customer wallets together always hold zero. */
  lemma MoneyIsConserved(b: Book, customers: seq<string>)
    requires Sound(b) && Distinct(customers)
    requires forall r <- b.rows :: r.entry.account.Wallet? ==> r.entry.account.customer in customers
    ensures BalanceOf(b, Settlement) + BalanceOf(b, Suspense) + SumBalances(b.rows, customers) == 0
  {
    WalletsAreCustomers(b.rows, customers);
  }

  // ── Machine integers ──────────────────────────────────────────────────────

  lemma {:induction false} SumBounds(rows: seq<Row>, m: Measure)
    requires forall r <- rows :: r.entry.amount >= 0
    requires m.Balance? || m.BalanceBefore? || m.CreditsOn?
    ensures -Sum(rows, Debits) <= Sum(rows, m) <= Sum(rows, Credits)
  {
    if rows != [] { SumBounds(rows[..|rows| - 1], m); }
  }

  /** The amounts ever posted add up to less than 2^63. */
  predicate Bounded(b: Book) { Sum(b.rows, Credits) < LIMIT }

  /** In a bounded book no partial sum of any balance, statement or daily-credit
      loop leaves the range of a 64-bit integer, nor does any debit or credit total. */
  lemma NoPartialSumOverflows(b: Book, m: Measure, k: nat)
    requires Sound(b) && Bounded(b) && k <= |b.rows|
    requires m.Balance? || m.BalanceBefore? || m.CreditsOn?
    ensures Fits(Sum(b.rows[..k], m)) && Fits(Sum(b.rows[..k], Debits)) && Fits(Sum(b.rows[..k], Credits))
  {
    var head, tail := b.rows[..k], b.rows[k..];
    assert b.rows == head + tail;
    SumBounds(head, m);
    SumAppend(head, tail, Credits);
    SumAppend(head, tail, Debits);
    SumNonNegative(tail, Credits);
    SumNonNegative(tail, Debits);
    SumNonNegative(head, Credits);
    SumNonNegative(head, Debits);
  }

  /** In a bounded book the wrapped balance is the true balance. */
  lemma BalanceFits(b: Book, m: Measure)
    requires Sound(b) && Bounded(b)
    requires m.Balance? || m.BalanceBefore? || m.CreditsOn?
    ensures Fits(Sum(b.rows, m)) && -Sum(b.rows, Credits) <= Sum(b.rows, m) <= Sum(b.rows, Credits)
  {
    assert b.rows[..|b.rows|] == b.rows;
    NoPartialSumOverflows(b, m, |b.rows|);
    SumBounds(b.rows, m);
  }
}
