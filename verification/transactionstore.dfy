/** The in-memory transaction store: an append-only ledger updated in place, with the
    accumulating loops that read it. Each loop is proved against its sum. */
module TransactionStores {
  import opened Domain
  import opened Ledger
  import opened Books
  import opened Int64
  import opened Views
  import opened Paging

  datatype PostOutcome = Created | Duplicate | Unbalanced

  /** Credits minus debits over all entries. */
  function NetOf(es: seq<Entry>, n: nat): int
    requires n <= |es|
  {
    if n == 0 then 0 else NetOf(es, n - 1) + SignedAmount(es[n - 1])
  }

  function SumFrom(es: seq<Entry>, d: Direction, n: nat): int
    requires n <= |es|
  {
    if n == 0 then 0 else SumFrom(es, d, n - 1) + if es[n - 1].direction == d then es[n - 1].amount else 0
  }

  lemma {:induction false} NetIsCreditsMinusDebits(es: seq<Entry>, n: nat)
    requires n <= |es|
    ensures NetOf(es, n) == SumFrom(es, Credit, n) - SumFrom(es, Debit, n)
  {
    if n > 0 { NetIsCreditsMinusDebits(es, n - 1); }
  }

  lemma PostingNetsToZero(tx: Transaction, entries: seq<Entry>)
    requires IsPosting(tx, entries)
    ensures NetOf(entries, |entries|) == 0
  {
    var rows := Stamp(entries, tx.occurredAt);
    assert rows[0].entry == entries[0] && rows[1].entry == entries[1];
    assert NetOf(entries, 1) == SignedAmount(entries[0]);
  }

  /** Totals are compared modulo 2^64. */
  lemma WrapEqualIff(a: int, b: int)
    ensures Wrap(a) == Wrap(b) <==> Wrap(b - a) == 0
  {
    WrapAdd(b, -a);
    WrapAdd(a, -a);
    WrapAdd(b - a, a);
  }

  /** The SQL store's check compares two wrapped totals, the in-memory one a wrapped net:
      both accept the same entries, those that net to a multiple of 2^64, which for totals
      below 2^63 means exactly zero. */
  method AssertBalanced(es: seq<Entry>) returns (ok: bool)
    ensures ok <==> Wrap(NetOf(es, |es|)) == 0
    ensures Fits(SumFrom(es, Debit, |es|)) && Fits(SumFrom(es, Credit, |es|)) ==> (ok <==> NetOf(es, |es|) == 0)
  {
    var debits, credits := 0, 0;
    for i := 0 to |es|
      invariant debits == Wrap(SumFrom(es, Debit, i))
      invariant credits == Wrap(SumFrom(es, Credit, i))
    {
      WrapAdd(SumFrom(es, Debit, i), es[i].amount);
      WrapAdd(SumFrom(es, Credit, i), es[i].amount);
      if es[i].direction == Debit {
        debits := Wrap(debits + es[i].amount);
      } else {
        credits := Wrap(credits + es[i].amount);
      }
    }
    ok := debits == credits;
    NetIsCreditsMinusDebits(es, |es|);
    WrapEqualIff(SumFrom(es, Debit, |es|), SumFrom(es, Credit, |es|));
  }

  /** A listing of one virtual account: its transactions, each once, newest first. */
  ghost predicate IsListing(all: seq<Transaction>, b: Book, va: nat) {
    && (forall id <- b.txns :: b.txns[id].va == Some(va) <==> b.txns[id] in all)
    && (forall tx <- all :: tx.id in b.txns && b.txns[tx.id] == tx && tx.va == Some(va))
    && UniqueIDs(all)
    && NewestFirst(all)
  }

  class TransactionStore {
    var txns: map<TxID, Transaction>
    var rows: seq<Row>

    function Value(): Book
      reads this
    {
      Book(txns, rows)
    }

    constructor ()
      ensures Value() == EMPTY
    {
      txns, rows := map[], [];
    }

    /** Insert-if-absent. An unknown transaction is refused when its entries do not net
        to zero (in wrapped arithmetic); a known one changes nothing. */
    method PostTransaction(tx: Transaction, entries: seq<Entry>) returns (r: PostOutcome)
      modifies this
      ensures r == Duplicate <==> tx.id in old(txns)
      ensures r == Unbalanced <==> tx.id !in old(txns) && Wrap(NetOf(entries, |entries|)) != 0
      ensures Value() == if r == Unbalanced then old(Value()) else Post(old(Value()), tx, entries)
    {
      if tx.id in txns { return Duplicate; }
      var sum := 0;
      for i := 0 to |entries|
        invariant Value() == old(Value())
        invariant sum == Wrap(NetOf(entries, i))
      {
        WrapAdd(NetOf(entries, i), SignedAmount(entries[i]));
        if entries[i].direction == Credit {
          sum := Wrap(sum + entries[i].amount);
        } else {
          sum := Wrap(sum - entries[i].amount);
        }
      }
      if sum != 0 { return Unbalanced; }
      txns := txns[tx.id := tx];
      var was := rows;
      for i := 0 to |entries|
        invariant txns == old(txns)[tx.id := tx]
        invariant rows == was + Stamp(entries, tx.occurredAt)[..i]
      {
        rows := rows + [Row(entries[i], tx.occurredAt)];
      }
      r := Created;
    }

    /** The SQL store's order of checks: balance first, then the conflict on the key. For
        entries that net to zero it is the in-memory operation. */
    method PostTransactionSql(tx: Transaction, entries: seq<Entry>) returns (r: PostOutcome)
      modifies this
      ensures r == Unbalanced <==> Wrap(NetOf(entries, |entries|)) != 0
      ensures r == Duplicate <==> r != Unbalanced && tx.id in old(txns)
      ensures Value() == if r == Unbalanced then old(Value()) else Post(old(Value()), tx, entries)
    {
      var balanced := AssertBalanced(entries);
      if !balanced { return Unbalanced; }
      if tx.id in txns { return Duplicate; }
      txns := txns[tx.id := tx];
      rows := rows + Stamp(entries, tx.occurredAt);
      r := Created;
    }

    method GetTransaction(id: TxID) returns (tx: Option<Transaction>)
      ensures tx == if id in txns then Some(txns[id]) else None
    {
      tx := if id in txns then Some(txns[id]) else None;
    }

    /** Credits minus debits of the account, in wrapped arithmetic. */
    method GetBalance(account: Account) returns (bal: int)
      ensures bal == Wrap(BalanceOf(Value(), account))
    {
      bal := 0;
      for i := 0 to |rows|
        invariant bal == Wrap(Sum(rows[..i], Balance(account)))
      {
        SumStep(rows, i, Balance(account));
        var e := rows[i].entry;
        WrapAdd(Sum(rows[..i], Balance(account)), SignedAmount(e));
        if e.account == account {
          if e.direction == Credit {
            bal := Wrap(bal + e.amount);
          } else {
            bal := Wrap(bal - e.amount);
          }
        }
      }
      assert rows[..|rows|] == rows;
    }

    /** Credits to the account on the UTC day of `date`. */
    method GetDailyCredits(account: Account, date: int) returns (total: int)
      ensures total == Wrap(Sum(rows, CreditsOn(account, DayOf(date))))
    {
      var dayStart := DayOf(date) * DAY;
      var dayEnd := dayStart + DAY;
      total := 0;
      for i := 0 to |rows|
        invariant total == Wrap(Sum(rows[..i], CreditsOn(account, DayOf(date))))
      {
        SumStep(rows, i, CreditsOn(account, DayOf(date)));
        var r := rows[i];
        WrapAdd(Sum(rows[..i], CreditsOn(account, DayOf(date))), r.entry.amount);
        assert dayStart <= r.at < dayEnd <==> DayOf(r.at) == DayOf(date);
        if r.entry.account == account && r.entry.direction == Credit && dayStart <= r.at < dayEnd {
          total := Wrap(total + r.entry.amount);
        }
      }
      assert rows[..|rows|] == rows;
    }

    method OpeningBalance(account: Account, from: int) returns (opening: int)
      ensures opening == Wrap(Sum(rows, BalanceBefore(account, from)))
    {
      opening := 0;
      for i := 0 to |rows|
        invariant opening == Wrap(Sum(rows[..i], BalanceBefore(account, from)))
      {
        SumStep(rows, i, BalanceBefore(account, from));
        var r := rows[i];
        WrapAdd(Sum(rows[..i], BalanceBefore(account, from)), SignedAmount(r.entry));
        if r.entry.account == account && r.at < from {
          opening := Wrap(if r.entry.direction == Credit then opening + r.entry.amount else opening - r.entry.amount);
        }
      }
      assert rows[..|rows|] == rows;
    }

    method CollectWindow(account: Account, from: int, to: int) returns (sorted: seq<Movement>)
      ensures TimeOrdered(sorted) && multiset(sorted) == multiset(Window(rows, account, from, to))
    {
      var inWindow: seq<Movement> := [];
      for i := 0 to |rows|
        invariant inWindow == Window(rows[..i], account, from, to)
      {
        assert rows[..i + 1][..i] == rows[..i];
        if rows[i].entry.account == account && from <= rows[i].at < to {
          inWindow := inWindow + [MovementOf(rows[i])];
        }
      }
      assert rows[..|rows|] == rows;
      sorted := SortByTime(inWindow);
    }

    /** The statement of an account; `ms` are its movements in the order printed. */
    method GetStatement(account: Account, from: int, to: int) returns (s: Statement, ms: seq<Movement>)
      ensures IsStatement(s, ms, rows, account, from, to)
    {
      var opening := OpeningBalance(account, from);
      var sorted := CollectWindow(account, from, to);
      s := PrintLines(sorted, opening);
      ms := sorted;
    }

    /** The account's transactions in map order, which is arbitrary. */
    method CollectAccount(va: nat) returns (found: seq<Transaction>)
      requires forall id <- txns :: txns[id].id == id
      ensures UniqueIDs(found)
      ensures forall tx <- found :: tx.id in txns && txns[tx.id] == tx && tx.va == Some(va)
      ensures forall id <- txns :: txns[id].va == Some(va) ==> txns[id] in found
    {
      found := [];
      var ids := txns.Keys;
      while ids != {}
        invariant ids <= txns.Keys
        invariant UniqueIDs(found)
        invariant forall tx <- found :: tx.id in txns && txns[tx.id] == tx && tx.va == Some(va) && tx.id !in ids
        invariant forall id <- txns :: id !in ids && txns[id].va == Some(va) ==> txns[id] in found
        decreases ids
      {
        var id :| id in ids;
        ids := ids - {id};
        if txns[id].va == Some(va) {
          found := found + [txns[id]];
        }
      }
    }

    /** A page of the account's transactions; `all` is the listing it is cut from. */
    method ListTransactions(va: nat, limit: int, cursor: Option<TxID>)
      returns (page: Page, all: seq<Transaction>)
      requires forall id <- txns :: txns[id].id == id
      ensures IsListing(all, Value(), va)
      ensures page == IndexPage(all, cursor, limit)
    {
      var found := CollectAccount(va);
      var sorted := SortNewestFirst(found);
      SortedListing(found, sorted, Value(), va);
      page := CutPage(sorted, limit, cursor);
      all := sorted;
    }
  }

  method PrintLines(sorted: seq<Movement>, opening: int) returns (printed: Statement)
    requires Fits(opening)
    ensures printed == Statement(opening, Wrap(opening + Total(sorted, |sorted|)), Print(sorted, opening))
  {
    var running := opening;
    var lines: seq<Line> := [];
    for i := 0 to |sorted|
      invariant running == Wrap(opening + Total(sorted[..i], i))
      invariant lines == Print(sorted[..i], opening)
    {
      var m := sorted[i];
      assert sorted[..i + 1] == sorted[..i] + [m] && sorted[..i + 1][..i] == sorted[..i];
      TotalAppend(sorted[..i], [m], i);
      WrapAdd(opening + Total(sorted[..i], i), m.credit - m.debit);
      running := Wrap(running + (m.credit - m.debit));
      lines := lines + [Line(m, running)];
    }
    assert sorted[..|sorted|] == sorted;
    printed := Statement(opening, running, lines);
  }

  method CutPage(sorted: seq<Transaction>, limit: int, cursor: Option<TxID>) returns (page: Page)
    ensures page == IndexPage(sorted, cursor, limit)
  {
    var start := 0;
    if cursor.Some? {
      var i := 0;
      while i < |sorted| && sorted[i].id != cursor.value
        invariant 0 <= i <= |sorted|
        invariant forall j :: 0 <= j < i ==> sorted[j].id != cursor.value
      {
        i := i + 1;
      }
      assert PositionOf(sorted, cursor.value) == i;
      if i < |sorted| { start := i + 1; }
    }
    var rest := sorted[start..];
    var cap := if limit <= 0 then 50 else limit;
    if |rest| > cap {
      page := Page(rest[..cap], Some(rest[cap - 1].id));
    } else {
      page := Page(rest, None);
    }
  }

  function SortByTime(ms: seq<Movement>): (r: seq<Movement>)
    ensures TimeOrdered(r) && multiset(r) == multiset(ms)
  {
    var key := (m: Movement) => m.at;
    var r := SortBy(ms, key);
    assert forall i, j :: 0 <= i < j < |r| ==> key(r[i]) <= key(r[j]);
    r
  }

  function SortNewestFirst(txns: seq<Transaction>): (r: seq<Transaction>)
    ensures NewestFirst(r) && multiset(r) == multiset(txns)
  {
    var key := (tx: Transaction) => -tx.occurredAt;
    var r := SortBy(txns, key);
    assert forall i, j :: 0 <= i < j < |r| ==> key(r[i]) <= key(r[j]);
    r
  }

  lemma {:induction false} UniqueIsSetLike(s: seq<Transaction>, x: Transaction)
    requires UniqueIDs(s)
    ensures multiset(s)[x] <= 1
  {
    if s != [] {
      var init, last := s[..|s| - 1], s[|s| - 1];
      assert s == init + [last];
      UniqueIsSetLike(init, x);
      if x == last && x in init { assert false; }
    }
  }

  lemma UniqueUnderPermutation(s: seq<Transaction>, t: seq<Transaction>)
    requires multiset(s) == multiset(t) && UniqueIDs(s)
    ensures UniqueIDs(t)
  {
    forall i, j | 0 <= i < j < |t| ensures t[i].id != t[j].id {
      if t[i].id == t[j].id {
        SameMembers(t, s);
        assert t[i] in s && t[j] in s;
        assert t[i] == t[j];
        assert t == t[..j] + t[j..];
        assert t[i] in t[..j] && t[j] in t[j..];
        UniqueIsSetLike(s, t[i]);
        assert false;
      }
    }
  }

  lemma SortedListing(found: seq<Transaction>, sorted: seq<Transaction>, b: Book, va: nat)
    requires multiset(found) == multiset(sorted) && NewestFirst(sorted)
    requires UniqueIDs(found)
    requires forall tx <- found :: tx.id in b.txns && b.txns[tx.id] == tx && tx.va == Some(va)
    requires forall id <- b.txns :: b.txns[id].va == Some(va) ==> b.txns[id] in found
    ensures IsListing(sorted, b, va)
  {
    SameMembers(found, sorted);
    SameMembers(sorted, found);
    UniqueUnderPermutation(found, sorted);
  }
}
