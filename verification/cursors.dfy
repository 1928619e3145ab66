/** Following cursors over many requests. Both stores leave the order of equal times open, so
    every request may see another listing of the same book; the pages are cut from that. */
module Cursors {
  import opened Domain
  import opened Books
  import opened Paging
  import opened TransactionStores

  // ── Listings of one account ───────────────────────────────────────────────

  /** The same transactions, newest first, in possibly another order of equal times. */
  ghost predicate Reorders(a: seq<Transaction>, b: seq<Transaction>) {
    && UniqueIDs(a) && UniqueIDs(b) && NewestFirst(a) && NewestFirst(b)
    && (forall x <- a :: x in b) && (forall x <- b :: x in a)
  }

  lemma ListingsReorder(a: seq<Transaction>, base: seq<Transaction>, b: Book, va: nat)
    requires IsListing(base, b, va) && forall id <- b.txns :: b.txns[id].id == id
    ensures IsListing(a, b, va) <==> Reorders(a, base)
  {
    if Reorders(a, base) {
      forall id <- b.txns ensures b.txns[id].va == Some(va) <==> b.txns[id] in a {}
    }
    if IsListing(a, b, va) {
      assert forall x <- a :: b.txns[x.id] in base;
      assert forall x <- base :: b.txns[x.id] in a;
    }
  }

  function Elements(s: seq<Transaction>): set<Transaction> { set x | x in s }

  lemma {:induction false} ElementsCount(s: seq<Transaction>)
    requires UniqueIDs(s)
    ensures |Elements(s)| == |s|
  {
    if s != [] {
      var init, last := s[..|s| - 1], s[|s| - 1];
      ElementsCount(init);
      assert Elements(s) == Elements(init) + {last};
      assert last !in init;
    }
  }

  lemma {:induction false} SubsetSize(a: set<Transaction>, b: set<Transaction>)
    requires a <= b
    ensures |a| <= |b|
  {
    if a != {} {
      var x :| x in a;
      SubsetSize(a - {x}, b - {x});
    }
  }

  lemma {:induction false} SameLength(a: seq<Transaction>, b: seq<Transaction>)
    requires Reorders(a, b)
    ensures |a| == |b|
  {
    ElementsCount(a);
    ElementsCount(b);
    assert Elements(a) == Elements(b);
  }

  lemma TimeAtMost(a: seq<Transaction>, b: seq<Transaction>, i: nat)
    requires Reorders(a, b) && i < |a| && i < |b|
    ensures a[i].occurredAt <= b[i].occurredAt
  {
    if a[i].occurredAt > b[i].occurredAt {
      forall x <- a[..i + 1] ensures x in b[..i] {
        assert x in b;
        var j :| 0 <= j < |b| && b[j] == x;
        assert j < i;
      }
      ElementsCount(a[..i + 1]);
      ElementsCount(b[..i]);
      SubsetSize(Elements(a[..i + 1]), Elements(b[..i]));
    }
  }

  /** Every listing shows the same times, position by position. */
  lemma TimesAgree(a: seq<Transaction>, b: seq<Transaction>)
    requires Reorders(a, b)
    ensures |a| == |b| && forall i :: 0 <= i < |a| ==> a[i].occurredAt == b[i].occurredAt
  {
    SameLength(a, b);
    forall i | 0 <= i < |a| ensures a[i].occurredAt == b[i].occurredAt {
      TimeAtMost(a, b, i);
      TimeAtMost(b, a, i);
    }
  }

  /** With distinct times there is only one listing. */
  lemma DistinctListingIsUnique(a: seq<Transaction>, b: seq<Transaction>)
    requires Reorders(a, b) && DistinctTimes(b)
    ensures a == b
  {
    TimesAgree(a, b);
    forall i | 0 <= i < |a| ensures a[i] == b[i] {
      assert a[i] in b;
      var j :| 0 <= j < |b| && b[j] == a[i];
    }
  }

  // ── Many requests ─────────────────────────────────────────────────────────

  ghost predicate AllReorder(orders: nat -> seq<Transaction>, base: seq<Transaction>) {
    forall n: nat :: Reorders(orders(n), base)
  }

  /** Every page from a cursor on, request n seeing the listing orders(n). */
  function FollowIn(
    store: Store, orders: nat -> seq<Transaction>, cursor: Option<TxID>, limit: int, n: nat, budget: nat)
    : Option<seq<Transaction>>
    decreases budget
  {
    if budget == 0 then None
    else
      var page := PageOf(store, orders(n), cursor, limit);
      if page.next.None? then Some(page.txns)
      else Joined(page.txns, FollowIn(store, orders, page.next, limit, n + 1, budget - 1))
  }

  lemma {:induction false} FollowFixed(
    store: Store, orders: nat -> seq<Transaction>, all: seq<Transaction>, cursor: Option<TxID>, limit: int, n: nat,
    budget: nat)
    requires forall m: nat :: m >= n ==> orders(m) == all
    ensures FollowIn(store, orders, cursor, limit, n, budget) == Follow(Reader(store, all, limit), cursor, budget)
    decreases budget
  {
    hide PageOf;
    if budget > 0 {
      FollowFixed(store, orders, all, PageOf(store, all, cursor, limit).next, limit, n + 1, budget - 1);
    }
  }

  // ── Page boundaries that no order can spoil ───────────────────────────────

  /** Before position b: for the SQL store no tie crosses the boundary; for the in-memory
      store, the row at the end of the page shares its time with no other row. */
  predicate SafeAt(store: Store, base: seq<Transaction>, b: int) {
    0 < b < |base| ==>
      match store
      case Sql => base[b - 1].occurredAt != base[b].occurredAt
      case InMemory => forall j :: 0 <= j < |base| && j != b - 1 ==> base[j].occurredAt != base[b - 1].occurredAt
  }

  predicate SafeFrom(store: Store, base: seq<Transaction>, b: nat, size: int)
    requires size > 0
    decreases |base| - b
  {
    b >= |base| || (SafeAt(store, base, b) && SafeFrom(store, base, b + size, size))
  }

  predicate SafeBoundary(store: Store, base: seq<Transaction>, size: int, k: nat) { SafeAt(store, base, k * size) }

  lemma {:induction false} SafeFromIff(store: Store, base: seq<Transaction>, size: int, k: nat)
    requires size > 0
    ensures k * size >= 0
    ensures SafeFrom(store, base, k * size, size) <==> forall j: nat :: j >= k ==> SafeBoundary(store, base, size, j)
    decreases |base| - k * size
  {
    if k * size < |base| {
      assert (k + 1) * size == k * size + size;
      SafeFromIff(store, base, size, k + 1);
      assert SafeBoundary(store, base, size, k) <==> SafeAt(store, base, k * size);
    } else {
      forall j: nat | j >= k ensures SafeBoundary(store, base, size, j) { Scale(k, j, size); }
    }
  }

  lemma TimesFall(all: seq<Transaction>, base: seq<Transaction>, b: nat)
    requires Reorders(all, base) && 0 < b < |base| && base[b - 1].occurredAt != base[b].occurredAt
    ensures |all| == |base|
    ensures forall j :: 0 <= j < b ==> all[j].occurredAt >= base[b - 1].occurredAt
    ensures forall j :: b <= j < |all| ==> all[j].occurredAt < base[b - 1].occurredAt
  {
    TimesAgree(all, base);
  }

  /** Where another listing has the row at the end of a page. */
  lemma FindRow(prev: seq<Transaction>, all: seq<Transaction>, base: seq<Transaction>, i: nat) returns (j: nat)
    requires Reorders(prev, base) && Reorders(all, base) && i < |prev|
    ensures j < |all| == |base| == |prev| && all[j] == prev[i]
    ensures base[j].occurredAt == base[i].occurredAt && PositionOf(all, prev[i].id) == j
  {
    TimesAgree(prev, base);
    TimesAgree(all, base);
    assert prev[i] in base && prev[i] in all;
    j :| 0 <= j < |all| && all[j] == prev[i];
    PositionIs(all, j);
  }

  /** At a safe boundary every request resumes at the same position, whatever the order. */
  lemma SafePage(
    store: Store, base: seq<Transaction>, prev: seq<Transaction>, all: seq<Transaction>, b: nat, limit: int)
    requires Reorders(prev, base) && Reorders(all, base) && 0 < b < |base| == |prev| && SafeAt(store, base, b)
    ensures b <= |all| && PageOf(store, all, Some(prev[b - 1].id), limit) == Cut(all[b..], LimitOf(store, limit))
  {
    hide Reorders, Older, PositionOf;
    var i := FindRow(prev, all, base, b - 1);
    TimesAgree(prev, base);
    if store == Sql {
      TimesFall(all, base, b);
      OlderIsSuffix(all, prev[b - 1].occurredAt, b);
    }
  }

  // ── Safe boundaries are enough ────────────────────────────────────────────

  /** Older than everything before position p. */
  predicate Beyond(base: seq<Transaction>, p: nat, x: Transaction)
    requires p <= |base|
  {
    p == 0 || x.occurredAt < base[p - 1].occurredAt
  }

  /** The rows of the listing from position p on, each once, newest first. */
  ghost predicate Yields(r: seq<Transaction>, base: seq<Transaction>, p: nat)
    requires p <= |base|
  {
    && |r| == |base| - p
    && (forall i :: 0 <= i < |r| ==> r[i].occurredAt == base[p + i].occurredAt)
    && (forall i, j :: 0 <= i < j < |r| ==> r[i].id != r[j].id)
    && (forall x <- r :: x in base && Beyond(base, p, x))
    && (forall x <- base | Beyond(base, p, x) :: x in r)
  }

  lemma TailYields(all: seq<Transaction>, base: seq<Transaction>, p: nat)
    requires Reorders(all, base) && p <= |base|
    requires 0 < p < |base| ==> base[p - 1].occurredAt != base[p].occurredAt
    ensures p <= |all| && Yields(all[p..], base, p)
  {
    TimesAgree(all, base);
    forall x <- all[p..] ensures x in base && Beyond(base, p, x) {
      var i :| p <= i < |all| && all[i] == x;
    }
    forall x <- base | Beyond(base, p, x) ensures x in all[p..] {
      assert x in all;
      var i :| 0 <= i < |all| && all[i] == x;
      assert i >= p;
      assert all[p..][i - p] == x;
    }
  }

  /** A page and the rest beyond it, when the boundary is strict. */
  predicate Strict(all: seq<Transaction>, base: seq<Transaction>, p: nat, b: nat) {
    p < b < |base| == |all| && base[b - 1].occurredAt != base[b].occurredAt
  }

  lemma JoinKeepsIDs(all: seq<Transaction>, base: seq<Transaction>, p: nat, b: nat, rest: seq<Transaction>)
    requires Reorders(all, base) && Strict(all, base, p, b) && Yields(rest, base, b)
    ensures var r := all[p..b] + rest; forall i, j :: 0 <= i < j < |r| ==> r[i].id != r[j].id
  {
    TimesAgree(all, base);
    var head, r := all[p..b], all[p..b] + rest;
    forall i, j | 0 <= i < j < |r| ensures r[i].id != r[j].id {
      if i < |head| {
        assert r[i] == all[p + i];
        if j < |head| {
          assert r[j] == all[p + j];
        } else {
          HeadBeforeRest(all, base, p, b, rest, i, j - |head|);
        }
      }
    }
  }

  lemma HeadBeforeRest(
    all: seq<Transaction>, base: seq<Transaction>, p: nat, b: nat, rest: seq<Transaction>, i: nat, j: nat)
    requires Reorders(all, base) && Strict(all, base, p, b) && Yields(rest, base, b)
    requires p + i < b && j < |rest|
    ensures all[p + i].id != rest[j].id
  {
    TimesAgree(all, base);
    assert rest[j] in rest && all[p + i] in all;
    assert rest[j].occurredAt < base[b - 1].occurredAt <= base[p + i].occurredAt;
    DifferentIDs(base, all[p + i], rest[j]);
  }

  lemma JoinStaysBeyond(
    all: seq<Transaction>, base: seq<Transaction>, p: nat, b: nat, rest: seq<Transaction>, x: Transaction)
    requires NewestFirst(base) && Strict(all, base, p, b) && Yields(all[p..], base, p) && Yields(rest, base, b)
    requires x in all[p..b] + rest
    ensures x in base && Beyond(base, p, x)
  {
    if x in all[p..b] {
      var i :| 0 <= i < b - p && all[p..b][i] == x;
      assert all[p..][i] == x;
    } else {
      assert x in rest;
      assert p > 0 ==> base[p - 1].occurredAt >= base[b - 1].occurredAt;
    }
  }

  lemma JoinHasAllBeyond(
    all: seq<Transaction>, base: seq<Transaction>, p: nat, b: nat, rest: seq<Transaction>, x: Transaction)
    requires Reorders(all, base) && Strict(all, base, p, b) && Yields(all[p..], base, p) && Yields(rest, base, b)
    requires x in base && Beyond(base, p, x)
    ensures x in all[p..b] + rest
  {
    hide Reorders;
    TimesAgree(all, base);
    assert x in all[p..];
    var i :| 0 <= i < |all| - p && all[p..][i] == x;
    if p + i < b {
      assert all[p..b][i] == x;
    } else {
      IsBeyond(all, base, b, p + i);
      assert x in rest;
    }
  }

  lemma IsBeyond(all: seq<Transaction>, base: seq<Transaction>, b: nat, i: nat)
    requires Reorders(all, base) && 0 < b <= i < |base| && base[b - 1].occurredAt != base[b].occurredAt
    ensures i < |all| && Beyond(base, b, all[i])
  {
    TimesAgree(all, base);
  }

  lemma BaseIsOrdered(all: seq<Transaction>, base: seq<Transaction>)
    requires Reorders(all, base)
    ensures NewestFirst(base)
  {}

  lemma YieldsJoin(all: seq<Transaction>, base: seq<Transaction>, p: nat, b: nat, rest: seq<Transaction>)
    requires Reorders(all, base) && Strict(all, base, p, b) && Yields(all[p..], base, p) && Yields(rest, base, b)
    ensures Yields(all[p..b] + rest, base, p)
  {
    hide Reorders, Beyond, NewestFirst;
    TimesAgree(all, base);
    JoinKeepsIDs(all, base, p, b, rest);
    BaseIsOrdered(all, base);
    forall x | x in all[p..b] + rest ensures x in base && Beyond(base, p, x) {
      JoinStaysBeyond(all, base, p, b, rest, x);
    }
    forall x <- base | Beyond(base, p, x) ensures x in all[p..b] + rest {
      JoinHasAllBeyond(all, base, p, b, rest, x);
    }
  }

  lemma DifferentIDs(base: seq<Transaction>, x: Transaction, y: Transaction)
    requires UniqueIDs(base) && x in base && y in base && x != y
    ensures x.id != y.id
  {
    var i :| 0 <= i < |base| && base[i] == x;
    var j :| 0 <= j < |base| && base[j] == y;
  }

  lemma {:induction false} SafeFollow(
    store: Store, base: seq<Transaction>, orders: nat -> seq<Transaction>, cursor: Option<TxID>, p: nat, limit: int,
    n: nat, budget: nat)
    requires AllReorder(orders, base) && p <= |base| < p + budget
    requires 0 < p < |base| ==> base[p - 1].occurredAt != base[p].occurredAt
    requires p <= |orders(n)| && PageOf(store, orders(n), cursor, limit) == Cut(orders(n)[p..], LimitOf(store, limit))
    requires SafeFrom(store, base, p + LimitOf(store, limit), LimitOf(store, limit))
    ensures var r := FollowIn(store, orders, cursor, limit, n, budget); r.Some? && Yields(r.value, base, p)
    decreases budget
  {
    hide PageOf, Yields, Reorders;
    var all, size := orders(n), LimitOf(store, limit);
    assert Reorders(all, base) && Reorders(orders(n + 1), base);
    SameLength(all, base);
    TailYields(all, base, p);
    if |base| - p > size {
      var b := p + size;
      assert all[p..][size - 1] == all[b - 1] && all[p..][..size] == all[p..b];
      SafePage(store, base, all, orders(n + 1), b, limit);
      SafeIsStrict(store, base, b);
      SafeFollow(store, base, orders, Some(all[b - 1].id), b, limit, n + 1, budget - 1);
      YieldsJoin(all, base, p, b, FollowIn(store, orders, Some(all[b - 1].id), limit, n + 1, budget - 1).value);
    }
  }

  lemma SafeIsStrict(store: Store, base: seq<Transaction>, b: nat)
    requires 0 < b < |base| && SafeAt(store, base, b)
    ensures base[b - 1].occurredAt != base[b].occurredAt
  {}

  lemma YieldsAllReorders(r: seq<Transaction>, base: seq<Transaction>)
    requires UniqueIDs(base) && NewestFirst(base) && Yields(r, base, 0)
    ensures Reorders(r, base)
  {
    forall i, j | 0 <= i < j < |r| ensures r[i].occurredAt >= r[j].occurredAt {
      assert base[0 + i].occurredAt >= base[0 + j].occurredAt;
    }
  }

  // ── Unsafe boundaries lose or repeat rows ─────────────────────────────────

  /** The listing with two rows exchanged. */
  function Swapped(base: seq<Transaction>, i: nat, j: nat): seq<Transaction>
    requires i < |base| && j < |base|
  {
    base[i := base[j]][j := base[i]]
  }

  lemma SwappedReorders(base: seq<Transaction>, i: nat, j: nat)
    requires UniqueIDs(base) && NewestFirst(base) && i < |base| && j < |base|
    requires base[i].occurredAt == base[j].occurredAt
    ensures Reorders(Swapped(base, i, j), base)
  {
    var s := Swapped(base, i, j);
    assert forall k :: 0 <= k < |base| ==> s[k].occurredAt == base[k].occurredAt;
    assert forall k :: 0 <= k < |base| ==> s[k] == base[if k == i then j else if k == j then i else k];
    forall x <- base ensures x in s {
      var k :| 0 <= k < |base| && base[k] == x;
      assert s[if k == i then j else if k == j then i else k] == x;
    }
  }

  lemma Itself(base: seq<Transaction>)
    requires UniqueIDs(base) && NewestFirst(base)
    ensures Reorders(base, base)
  {}

  /** The first k requests see one listing, all later ones another. */
  function Switch(first: seq<Transaction>, later: seq<Transaction>, k: nat): nat -> seq<Transaction> {
    (n: nat) => if n < k then first else later
  }

  lemma {:induction false} FirstPages(
    first: seq<Transaction>, later: seq<Transaction>, k: nat, limit: int, n: nat, budget: nat)
    requires UniqueIDs(first) && n <= k <= n + budget && 0 <= n * MemLimit(limit) <= k * MemLimit(limit) < |first|
    ensures var at, to := n * MemLimit(limit), k * MemLimit(limit);
            FollowIn(InMemory, Switch(first, later, k), CursorAfter(first, at), limit, n, budget)
            == Joined(first[at..to], FollowIn(InMemory, Switch(first, later, k), CursorAfter(first, to), limit, k, budget - (k - n)))
    decreases k - n
  {
    hide IndexPage;
    var size := MemLimit(limit);
    var at, to := n * size, k * size;
    if n == k {
      assert first[at..to] == [];
      JoinedEmpty(FollowIn(InMemory, Switch(first, later, k), CursorAfter(first, at), limit, k, budget));
    } else {
      assert (n + 1) * size == at + size;
      Scale(n + 1, k, size);
      IndexPageAfter(first, at, limit);
      CutAt(first, at, size);
      FirstPages(first, later, k, limit, n + 1, budget - 1);
      JoinedTwice(first[at..at + size], first[at + size..to],
                  FollowIn(InMemory, Switch(first, later, k), CursorAfter(first, to), limit, k, budget - (k - n)));
      assert first[at..at + size] + first[at + size..to] == first[at..to];
    }
  }

  lemma JoinedEmpty(rest: Option<seq<Transaction>>)
    ensures Joined([], rest) == rest
  {
    if rest.Some? { assert [] + rest.value == rest.value; }
  }

  lemma JoinedTwice(a: seq<Transaction>, b: seq<Transaction>, rest: Option<seq<Transaction>>)
    ensures Joined(a, Joined(b, rest)) == Joined(a + b, rest)
  {
    if rest.Some? { assert a + (b + rest.value) == a + b + rest.value; }
  }

  lemma {:induction false} MoreBudget(read: Option<TxID> -> Page, cursor: Option<TxID>, budget: nat, more: nat)
    requires budget <= more && Follow(read, cursor, budget).Some?
    ensures Follow(read, cursor, more) == Follow(read, cursor, budget)
    decreases budget
  {
    if read(cursor).next.Some? { MoreBudget(read, read(cursor).next, budget - 1, more - 1); }
  }

  /** From a cursor that sits at position p, one fixed listing yields what follows it. */
  lemma FixedRest(all: seq<Transaction>, p: nat, limit: int, budget: nat)
    requires UniqueIDs(all) && p < |all|
    ensures var r := Follow(Reader(InMemory, all, limit), Some(all[p].id), budget);
            r.Some? ==> |r.value| == |all| - p - 1
  {
    hide Follow, PageOf;
    var read := Reader(InMemory, all, limit);
    ReaderCuts(InMemory, all, limit);
    WalkFrom(read, all, p + 1, LimitOf(InMemory, limit), |all| + 1);
    if Follow(read, Some(all[p].id), budget).Some? {
      MoreBudget(read, Some(all[p].id), budget, budget + |all| + 1);
      MoreBudget(read, Some(all[p].id), |all| + 1, budget + |all| + 1);
    }
  }

  /** If the row at the end of page k shares its time with another row, then some order of the
      later requests yields too few rows or too many. */
  lemma TiedPageEnd(base: seq<Transaction>, k: nat, j: nat, limit: int)
    returns (orders: nat -> seq<Transaction>)
    requires UniqueIDs(base) && NewestFirst(base)
    requires k >= 1 && 0 < k * MemLimit(limit) < |base| && j < |base| && j != k * MemLimit(limit) - 1
    requires base[j].occurredAt == base[k * MemLimit(limit) - 1].occurredAt
    ensures AllReorder(orders, base)
    ensures var r := FollowIn(InMemory, orders, None, limit, 0, |base| + 1); r.Some? ==> |r.value| != |base|
  {
    hide Follow, IndexPage, UniqueIDs, NewestFirst;
    var to := k * MemLimit(limit);
    var later := Swapped(base, to - 1, j);
    SwappedReorders(base, to - 1, j);
    Itself(base);
    orders := Switch(base, later, k);
    Scale(0, k, MemLimit(limit));
    PagesFit(k, MemLimit(limit));
    FirstPages(base, later, k, limit, 0, |base| + 1);
    FollowFixed(InMemory, orders, later, CursorAfter(base, to), limit, k, |base| + 1 - k);
    assert later[j] == base[to - 1] && UniqueIDs(later);
    FixedRest(later, j, limit, |base| + 1 - k);
  }

  lemma PagesFit(k: nat, size: int)
    requires size > 0
    ensures 0 * size == 0 && k <= k * size
  {
    Scale(k, k, size);
    assert k * size == k + k * (size - 1);
    assert k * (size - 1) >= 0;
  }

  // ── Exactly when cursors are complete ─────────────────────────────────────

  ghost predicate AllListings(orders: nat -> seq<Transaction>, b: Book, va: nat) {
    forall n: nat :: IsListing(orders(n), b, va)
  }

  /** The reader gets every transaction of the account, each once, newest first. */
  ghost predicate ReadsAll(store: Store, orders: nat -> seq<Transaction>, b: Book, va: nat, limit: int) {
    var r := FollowIn(store, orders, None, limit, 0, |orders(0)| + 1);
    r.Some? && IsListing(r.value, b, va)
  }

  /** Whatever listing of the unchanged book each request sees. */
  ghost predicate Complete(store: Store, b: Book, va: nat, limit: int) {
    forall orders: nat -> seq<Transaction> | AllListings(orders, b, va) :: ReadsAll(store, orders, b, va, limit)
  }

  ghost predicate Keyed(b: Book) { forall id <- b.txns :: b.txns[id].id == id }

  lemma ListingsAreReorders(orders: nat -> seq<Transaction>, base: seq<Transaction>, b: Book, va: nat)
    requires Keyed(b) && IsListing(base, b, va)
    ensures AllListings(orders, b, va) <==> AllReorder(orders, base)
  {
    hide IsListing, Reorders;
    forall n: nat ensures IsListing(orders(n), b, va) <==> Reorders(orders(n), base) {
      ListingsReorder(orders(n), base, b, va);
    }
  }

  lemma SafeIsComplete(store: Store, base: seq<Transaction>, b: Book, va: nat, limit: int)
    requires Keyed(b) && IsListing(base, b, va)
    requires SafeFrom(store, base, LimitOf(store, limit), LimitOf(store, limit))
    ensures Complete(store, b, va, limit)
  {
    hide PageOf, SafeFrom, FollowIn, Yields, Reorders;
    forall orders: nat -> seq<Transaction> | AllListings(orders, b, va) ensures ReadsAll(store, orders, b, va, limit) {
      ListingsAreReorders(orders, base, b, va);
      assert Reorders(orders(0), base);
      SameLength(orders(0), base);
      FirstPage(store, orders(0), limit);
      SafeFollow(store, base, orders, None, 0, limit, 0, |base| + 1);
      var r := FollowIn(store, orders, None, limit, 0, |base| + 1).value;
      YieldsAllReorders(r, base);
      ListingsReorder(r, base, b, va);
    }
  }

  lemma FirstPage(store: Store, all: seq<Transaction>, limit: int)
    ensures PageOf(store, all, None, limit) == Cut(all[0..], LimitOf(store, limit))
  {
    assert all[0..] == all;
  }

  lemma {:induction false} FindUnsafe(store: Store, base: seq<Transaction>, size: int, k: nat) returns (j: nat)
    requires size > 0 && k >= 1 && !SafeFrom(store, base, k * size, size) && k * size >= 0
    ensures j >= k && 0 < j * size < |base| && !SafeAt(store, base, j * size)
    decreases |base| - k * size
  {
    PagesFit(k, size);
    if SafeAt(store, base, k * size) {
      assert (k + 1) * size == k * size + size;
      j := FindUnsafe(store, base, size, k + 1);
    } else {
      j := k;
    }
  }

  lemma UnsafeIsIncomplete(store: Store, base: seq<Transaction>, b: Book, va: nat, limit: int)
    requires Keyed(b) && IsListing(base, b, va)
    requires !SafeFrom(store, base, LimitOf(store, limit), LimitOf(store, limit))
    ensures !Complete(store, b, va, limit)
  {
    hide PageOf, FollowIn, Reorders, SafeFrom;
    var orders := UnsafeOrders(store, base, limit);
    ListingsAreReorders(orders, base, b, va);
    assert Reorders(orders(0), base);
    SameLength(orders(0), base);
    var r := FollowIn(store, orders, None, limit, 0, |base| + 1);
    if r.Some? && IsListing(r.value, b, va) {
      ListingsReorder(r.value, base, b, va);
      SameLength(r.value, base);
    }
    assert !ReadsAll(store, orders, b, va, limit);
  }

  lemma UnsafeOrders(store: Store, base: seq<Transaction>, limit: int) returns (orders: nat -> seq<Transaction>)
    requires UniqueIDs(base) && NewestFirst(base)
    requires !SafeFrom(store, base, LimitOf(store, limit), LimitOf(store, limit))
    ensures AllReorder(orders, base)
    ensures var r := FollowIn(store, orders, None, limit, 0, |base| + 1); r.Some? ==> |r.value| != |base|
  {
    hide PageOf, FollowIn, Follow, UniqueIDs, NewestFirst;
    if store == Sql {
      Itself(base);
      orders := (n: nat) => base;
      SafeFromIsClean(base, SqlLimit(limit), SqlLimit(limit));
      SqlCompleteIff(base, limit);
      FollowFixed(Sql, orders, base, None, limit, 0, |base| + 1);
    } else {
      var k := FindUnsafe(store, base, MemLimit(limit), 1);
      var j :| 0 <= j < |base| && j != k * MemLimit(limit) - 1
            && base[j].occurredAt == base[k * MemLimit(limit) - 1].occurredAt;
      orders := TiedPageEnd(base, k, j, limit);
    }
  }

  lemma {:induction false} SafeFromIsClean(base: seq<Transaction>, b: nat, size: int)
    requires size > 0 && b > 0
    ensures SafeFrom(Sql, base, b, size) <==> CleanFrom(base, b, size)
    decreases |base| - b
  {
    if b < |base| { SafeFromIsClean(base, b + size, size); }
  }

  /** With pages of one size, following the cursors yields every transaction of the account,
      each once and newest first, in whatever order each request sees equal times, if and only
      if every page boundary is safe: for SQL no tie crosses it, in memory the row that ends the
      page shares its time with no other row. */
  lemma CompleteAtSizeIff(store: Store, base: seq<Transaction>, b: Book, va: nat, limit: int)
    requires Keyed(b) && IsListing(base, b, va)
    ensures Complete(store, b, va, limit)
       <==> forall k: nat :: k >= 1 ==> SafeBoundary(store, base, LimitOf(store, limit), k)
  {
    hide Complete, IsListing, SafeFrom;
    SafeFromIff(store, base, LimitOf(store, limit), 1);
    if SafeFrom(store, base, LimitOf(store, limit), LimitOf(store, limit)) {
      SafeIsComplete(store, base, b, va, limit);
    } else {
      UnsafeIsIncomplete(store, base, b, va, limit);
    }
  }

  /** For both stores the cursors are complete at every page size if and only if no two
      transactions of the account share a time. */
  lemma CompleteAtEverySizeIff(store: Store, base: seq<Transaction>, b: Book, va: nat)
    requires Keyed(b) && IsListing(base, b, va)
    ensures (forall limit :: Complete(store, b, va, limit)) <==> DistinctTimes(base)
  {
    hide Complete;
    if DistinctTimes(base) {
      forall limit ensures Complete(store, b, va, limit) {
        CompleteAtSizeIff(store, base, b, va, limit);
      }
    } else {
      var i, j :| 0 <= i < j < |base| && base[i].occurredAt == base[j].occurredAt;
      TieEndsAPage(store, base, i, j);
      CompleteAtSizeIff(store, base, b, va, 1);
      assert !SafeBoundary(store, base, LimitOf(store, 1), i + 1);
    }
  }

  lemma TieEndsAPage(store: Store, base: seq<Transaction>, i: nat, j: nat)
    requires NewestFirst(base) && i < j < |base| && base[i].occurredAt == base[j].occurredAt
    ensures LimitOf(store, 1) == 1 && !SafeBoundary(store, base, 1, i + 1)
  {
    assert (i + 1) * 1 == i + 1;
    assert base[i].occurredAt >= base[i + 1].occurredAt;
    if i + 1 < j { assert base[i + 1].occurredAt >= base[j].occurredAt; }
  }
}
