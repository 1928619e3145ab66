/** Cursor pages over the transactions of one virtual account. The in-memory store
    resumes after the position of the cursor transaction; the SQL store resumes at
    rows strictly older than it. */
module Paging {
  import opened Domain

  datatype Page = Page(txns: seq<Transaction>, next: Option<TxID>)

  predicate UniqueIDs(all: seq<Transaction>) { forall i, j :: 0 <= i < j < |all| ==> all[i].id != all[j].id }

  predicate NewestFirst(all: seq<Transaction>) {
    forall i, j :: 0 <= i < j < |all| ==> all[i].occurredAt >= all[j].occurredAt
  }

  predicate DistinctTimes(all: seq<Transaction>) {
    forall i, j :: 0 <= i < j < |all| ==> all[i].occurredAt != all[j].occurredAt
  }

  /** Position of an identifier, or the length when it does not occur. */
  function PositionOf(all: seq<Transaction>, id: TxID): (i: nat)
    ensures i <= |all|
    ensures i < |all| ==> all[i].id == id
    ensures forall j :: 0 <= j < i ==> all[j].id != id
  {
    if all == [] then 0
    else if all[0].id == id then 0
    else 1 + PositionOf(all[1..], id)
  }

  function Cut(rest: seq<Transaction>, limit: int): Page
    requires limit > 0
  {
    if |rest| > limit then Page(rest[..limit], Some(rest[limit - 1].id)) else Page(rest, None)
  }

  function MemLimit(limit: int): (l: int) ensures l > 0 { if limit <= 0 then 50 else limit }

  function SqlLimit(limit: int): (l: int) ensures 0 < l <= 100 { if limit <= 0 || limit > 100 then 50 else limit }

  /** The page sizes: 50 unless a positive one is asked for, of at most 100 in SQL. */
  lemma PageSizes(limit: int)
    ensures MemLimit(limit) == (if limit > 0 then limit else 50)
    ensures SqlLimit(limit) == (if 0 < limit <= 100 then limit else 50)
  {}

  /** The in-memory page: skip past the cursor; an unknown cursor starts over. */
  function IndexPage(all: seq<Transaction>, cursor: Option<TxID>, limit: int): Page {
    var start :=
      if cursor.None? || PositionOf(all, cursor.value) == |all| then 0 else PositionOf(all, cursor.value) + 1;
    Cut(all[start..], MemLimit(limit))
  }

  /** Rows strictly older than a time, order kept. */
  function Older(all: seq<Transaction>, t: int): (r: seq<Transaction>)
    ensures |r| <= |all|
  {
    if all == [] then []
    else (if all[0].occurredAt < t then [all[0]] else []) + Older(all[1..], t)
  }

  /** The SQL page. The subquery finds the cursor's time in any account, `foreign` being the
      times of other accounts' transactions; on an unknown cursor it is NULL and selects
      nothing. */
  function KeysetPage(
    all: seq<Transaction>, cursor: Option<TxID>, limit: int, foreign: map<TxID, int> := map[]): Page
  {
    if cursor.None? then Cut(all, SqlLimit(limit))
    else
      var i := PositionOf(all, cursor.value);
      Cut(if i < |all| then Older(all, all[i].occurredAt)
          else if cursor.value in foreign then Older(all, foreign[cursor.value]) else [],
          SqlLimit(limit))
  }

  /** The account's own cursors are not affected by other accounts; a cursor from another
      account pages through what is older than it there. */
  lemma ForeignCursors(all: seq<Transaction>, cursor: TxID, limit: int, foreign: map<TxID, int>)
    ensures PositionOf(all, cursor) < |all| ==>
              KeysetPage(all, Some(cursor), limit, foreign) == KeysetPage(all, Some(cursor), limit)
    ensures PositionOf(all, cursor) == |all| && cursor in foreign ==>
              forall x <- KeysetPage(all, Some(cursor), limit, foreign).txns :: x in all && x.occurredAt < foreign[cursor]
  {
    if cursor in foreign { OlderTimes(all, foreign[cursor]); }
  }

  /** A cursor that no account has: the in-memory store starts over, the SQL store shows an
      empty last page. */
  lemma UnknownCursors(all: seq<Transaction>, cursor: TxID, limit: int, foreign: map<TxID, int>)
    requires (forall tx <- all :: tx.id != cursor) && cursor !in foreign
    ensures IndexPage(all, Some(cursor), limit) == IndexPage(all, None, limit)
    ensures KeysetPage(all, Some(cursor), limit, foreign) == Page([], None)
  {
    assert PositionOf(all, cursor) == |all|;
  }

  lemma PositionIs(all: seq<Transaction>, k: nat)
    requires UniqueIDs(all) && k < |all|
    ensures PositionOf(all, all[k].id) == k
  {
    var i := PositionOf(all, all[k].id);
    assert i <= k;
  }

  /** The cursor that a reader holds after the first k transactions. */
  function CursorAfter(all: seq<Transaction>, k: nat): Option<TxID>
    requires k <= |all|
  {
    if k == 0 then None else Some(all[k - 1].id)
  }

  lemma IndexPageAfter(all: seq<Transaction>, k: nat, limit: int)
    requires UniqueIDs(all) && k <= |all|
    ensures IndexPage(all, CursorAfter(all, k), limit) == Cut(all[k..], MemLimit(limit))
  {
    if k > 0 { PositionIs(all, k - 1); }
  }

  function PageBetween(all: seq<Transaction>, k: nat, k': nat): Page
    requires k <= |all| && k < k'
  {
    if k' < |all| then Page(all[k..k'], CursorAfter(all, k')) else Page(all[k..], None)
  }

  /** A page ends where the next one starts. */
  lemma CutAt(all: seq<Transaction>, k: nat, limit: int)
    requires k <= |all| && limit > 0
    ensures Cut(all[k..], limit) == PageBetween(all, k, k + limit)
  {}

  /** In a newest-first listing the rows older than t are a suffix. */
  lemma {:induction false} OlderIsSuffix(all: seq<Transaction>, t: int, from: nat)
    requires from <= |all|
    requires forall j :: 0 <= j < from ==> all[j].occurredAt >= t
    requires forall j :: from <= j < |all| ==> all[j].occurredAt < t
    ensures Older(all, t) == all[from..]
  {
    if all != [] {
      OlderIsSuffix(all[1..], t, if from == 0 then 0 else from - 1);
      if from == 0 { assert all == [all[0]] + all[1..]; }
    }
  }

  lemma KeysetPageAfter(all: seq<Transaction>, k: nat, limit: int)
    requires UniqueIDs(all) && NewestFirst(all) && DistinctTimes(all) && k <= |all|
    ensures KeysetPage(all, CursorAfter(all, k), limit) == Cut(all[k..], SqlLimit(limit))
  {
    if k > 0 {
      PositionIs(all, k - 1);
      OlderIsSuffix(all, all[k - 1].occurredAt, k);
    } else {
      assert all[0..] == all;
    }
  }

  /** With distinct times both stores answer every cursor of the listing alike. */
  lemma PagesAgree(all: seq<Transaction>, k: nat, limit: int)
    requires UniqueIDs(all) && NewestFirst(all) && DistinctTimes(all) && k <= |all|
    requires limit <= 100
    ensures IndexPage(all, CursorAfter(all, k), limit) == KeysetPage(all, CursorAfter(all, k), limit)
  {
    IndexPageAfter(all, k, limit);
    KeysetPageAfter(all, k, limit);
  }

  // ── Following the cursors ─────────────────────────────────────────────────

  datatype Store = InMemory | Sql

  function PageOf(store: Store, all: seq<Transaction>, cursor: Option<TxID>, limit: int): Page {
    if store == Sql then KeysetPage(all, cursor, limit) else IndexPage(all, cursor, limit)
  }

  function LimitOf(store: Store, limit: int): (l: int) ensures l > 0 {
    if store == Sql then SqlLimit(limit) else MemLimit(limit)
  }

  function Reader(store: Store, all: seq<Transaction>, limit: int): Option<TxID> -> Page {
    cursor => PageOf(store, all, cursor, limit)
  }

  /** Every page from a cursor on, or None when `budget` requests were not enough. */
  function Follow(read: Option<TxID> -> Page, cursor: Option<TxID>, budget: nat): Option<seq<Transaction>>
    decreases budget
  {
    if budget == 0 then None
    else
      var page := read(cursor);
      if page.next.None? then Some(page.txns)
      else
        var rest := Follow(read, page.next, budget - 1);
        if rest.None? then None else Some(page.txns + rest.value)
  }

  /** The listing can be paged, as long as every request sees this same listing. */
  predicate Pageable(store: Store, all: seq<Transaction>) {
    UniqueIDs(all) && (store == Sql ==> NewestFirst(all) && DistinctTimes(all))
  }

  /** The page that a reader gets after the first k transactions. */
  lemma PageAfter(store: Store, all: seq<Transaction>, k: nat, limit: int)
    requires Pageable(store, all) && k <= |all|
    ensures Reader(store, all, limit)(CursorAfter(all, k)) == PageBetween(all, k, k + LimitOf(store, limit))
  {
    if store == Sql { KeysetPageAfter(all, k, limit); } else { IndexPageAfter(all, k, limit); }
    CutAt(all, k, LimitOf(store, limit));
  }

  /** The reader's pages are consecutive cuts of the listing. */
  predicate Cuts(read: Option<TxID> -> Page, all: seq<Transaction>, step: int) {
    step > 0 && forall i :: 0 <= i <= |all| ==> CutsAt(read, all, step, i)
  }

  predicate CutsAt(read: Option<TxID> -> Page, all: seq<Transaction>, step: int, i: nat)
    requires step > 0 && i <= |all|
  {
    read(CursorAfter(all, i)) == PageBetween(all, i, i + step)
  }

  lemma ReaderCuts(store: Store, all: seq<Transaction>, limit: int)
    requires Pageable(store, all)
    ensures Cuts(Reader(store, all, limit), all, LimitOf(store, limit))
  {
    forall i | 0 <= i <= |all|
      ensures CutsAt(Reader(store, all, limit), all, LimitOf(store, limit), i)
    {
      PageAfter(store, all, i, limit);
    }
  }

  lemma {:induction false} WalkFrom(
    read: Option<TxID> -> Page, all: seq<Transaction>, k: nat, step: int, budget: nat)
    requires Cuts(read, all, step) && k <= |all| < k + budget
    ensures Follow(read, CursorAfter(all, k), budget) == Some(all[k..])
    decreases budget
  {
    assert CutsAt(read, all, step, k);
    if k + step < |all| {
      WalkFrom(read, all, k + step, step, budget - 1);
      assert all[k..k + step] + all[k + step..] == all[k..];
    }
  }

  lemma Walk(read: Option<TxID> -> Page, all: seq<Transaction>, step: int, budget: nat)
    requires Cuts(read, all, step) && |all| < budget
    ensures Follow(read, None, budget) == Some(all)
  {
    WalkFrom(read, all, 0, step, budget);
    assert all[0..] == all;
  }

  /** Following the cursors through one and the same listing ends after at most one request
      more than there are transactions, and yields each exactly once, in listing order. */
  lemma FixedListingIsCovered(store: Store, all: seq<Transaction>, limit: int, budget: nat)
    requires Pageable(store, all) && budget > |all|
    ensures Follow(Reader(store, all, limit), None, budget) == Some(all)
  {
    ReaderCuts(store, all, limit);
    Walk(Reader(store, all, limit), all, LimitOf(store, limit), budget);
  }

  lemma {:induction false} OlderTimes(all: seq<Transaction>, t: int)
    ensures forall x <- Older(all, t) :: x.occurredAt < t && x in all
  {
    if all != [] { OlderTimes(all[1..], t); }
  }

  predicate SqlComplete(all: seq<Transaction>, limit: int) {
    Follow(Reader(Sql, all, limit), None, |all| + 1) == Some(all)
  }

  // ── One page size ─────────────────────────────────────────────────────────

  /** The first position from `from` on that is older than t. */
  function FirstOlder(all: seq<Transaction>, t: int, from: nat): (q: nat)
    requires from <= |all|
    ensures from <= q <= |all| && forall j :: from <= j < q ==> all[j].occurredAt >= t
    ensures q < |all| ==> all[q].occurredAt < t
    decreases |all| - from
  {
    if from == |all| || all[from].occurredAt < t then from else FirstOlder(all, t, from + 1)
  }

  /** Where the SQL store resumes after position p. */
  function NextOlder(all: seq<Transaction>, p: nat): (q: nat)
    requires p < |all|
    ensures p < q <= |all|
  {
    FirstOlder(all, all[p].occurredAt, p + 1)
  }

  predicate ResumesAt(read: Option<TxID> -> Page, all: seq<Transaction>, size: int, p: nat)
    requires size > 0 && p < |all|
  {
    read(Some(all[p].id)) == Cut(all[NextOlder(all, p)..], size)
  }

  /** The reader's pages are cuts of the listing that resume at strictly older rows. */
  predicate Resumes(read: Option<TxID> -> Page, all: seq<Transaction>, size: int) {
    size > 0 && read(None) == Cut(all, size) && forall p :: 0 <= p < |all| ==> ResumesAt(read, all, size, p)
  }

  lemma SqlResumes(all: seq<Transaction>, limit: int)
    requires UniqueIDs(all) && NewestFirst(all)
    ensures Resumes(Reader(Sql, all, limit), all, SqlLimit(limit))
  {
    forall p | 0 <= p < |all| ensures ResumesAt(Reader(Sql, all, limit), all, SqlLimit(limit), p) {
      PositionIs(all, p);
      OlderIsSuffix(all, all[p].occurredAt, NextOlder(all, p));
    }
  }

  /** From a cursor on, a reader sees at most what is older. */
  lemma {:induction false} AtMostTheRest(
    read: Option<TxID> -> Page, all: seq<Transaction>, p: nat, size: int, budget: nat)
    requires Resumes(read, all, size) && p < |all| && Follow(read, Some(all[p].id), budget).Some?
    ensures |Follow(read, Some(all[p].id), budget).value| <= |all| - NextOlder(all, p)
    decreases budget
  {
    hide FirstOlder;
    assert ResumesAt(read, all, size, p);
    var q := NextOlder(all, p);
    if |all| - q > size {
      assert all[q..][size - 1] == all[q + size - 1];
      AtMostTheRest(read, all, q + size - 1, size, budget - 1);
    }
  }

  /** No tie crosses the boundary before position b. */
  predicate CleanAt(all: seq<Transaction>, b: int) {
    0 < b < |all| ==> all[b - 1].occurredAt != all[b].occurredAt
  }

  /** Nor any page boundary from b on. */
  predicate CleanFrom(all: seq<Transaction>, b: nat, size: int)
    requires size > 0
    decreases |all| - b
  {
    b >= |all| || (CleanAt(all, b) && CleanFrom(all, b + size, size))
  }

  lemma FollowPage(read: Option<TxID> -> Page, all: seq<Transaction>, p: nat, size: int, budget: nat)
    requires size > 0 && p <= |all| && budget > 0 && read(CursorAfter(all, p)) == Cut(all[p..], size)
    ensures |all| - p <= size ==> Follow(read, CursorAfter(all, p), budget) == Some(all[p..])
    ensures |all| - p > size ==>
              Follow(read, CursorAfter(all, p), budget)
              == Joined(all[p..p + size], Follow(read, CursorAfter(all, p + size), budget - 1))
  {
    CutAt(all, p, size);
  }

  function Joined(head: seq<Transaction>, rest: Option<seq<Transaction>>): Option<seq<Transaction>> {
    if rest.None? then None else Some(head + rest.value)
  }

  lemma CleanPageResumes(read: Option<TxID> -> Page, all: seq<Transaction>, b: nat, size: int)
    requires Resumes(read, all, size) && NewestFirst(all) && 0 < b < |all| && CleanAt(all, b)
    ensures read(CursorAfter(all, b)) == Cut(all[b..], size)
  {
    assert ResumesAt(read, all, size, b - 1);
    BoundaryResumes(all, b);
  }

  /** After a tie the rest is too short to be complete. */
  lemma TieLosesRows(read: Option<TxID> -> Page, all: seq<Transaction>, b: nat, size: int, budget: nat)
    requires Resumes(read, all, size) && NewestFirst(all) && 0 < b < |all| && !CleanAt(all, b)
    ensures Follow(read, CursorAfter(all, b), budget).Some? ==>
              |Follow(read, CursorAfter(all, b), budget).value| < |all| - b
  {
    hide Follow, Resumes, NewestFirst, FirstOlder;
    BoundaryResumes(all, b);
    if Follow(read, CursorAfter(all, b), budget).Some? { AtMostTheRest(read, all, b - 1, size, budget); }
  }

  lemma {:induction false} CompleteFrom(
    read: Option<TxID> -> Page, all: seq<Transaction>, p: nat, size: int, budget: nat)
    requires Resumes(read, all, size) && NewestFirst(all) && p <= |all| < p + budget
    requires read(CursorAfter(all, p)) == Cut(all[p..], size)
    ensures CleanFrom(all, p + size, size) ==> Follow(read, CursorAfter(all, p), budget) == Some(all[p..])
    ensures !CleanFrom(all, p + size, size) && Follow(read, CursorAfter(all, p), budget).Some? ==>
              |Follow(read, CursorAfter(all, p), budget).value| < |all| - p
    decreases budget
  {
    hide Follow, NewestFirst, ResumesAt, Cut, CleanAt;
    FollowPage(read, all, p, size, budget);
    if |all| - p > size {
      var b := p + size;
      if CleanAt(all, b) {
        CleanPageResumes(read, all, b, size);
        CompleteFrom(read, all, b, size, budget - 1);
      } else {
        TieLosesRows(read, all, b, size, budget - 1);
      }
      assert all[p..b] + all[b..] == all[p..];
    }
  }

  lemma BoundaryResumes(all: seq<Transaction>, b: nat)
    requires NewestFirst(all) && 0 < b < |all|
    ensures CleanAt(all, b) <==> NextOlder(all, b - 1) == b
  {}

  lemma Scale(k: nat, j: nat, size: int)
    requires k <= j && size > 0
    ensures k * size <= j * size
  {
    assert j * size - k * size == (j - k) * size;
  }

  /** Through one listing, SQL cursors of one page size lose rows exactly when two transactions
      of the same time lie on both sides of a page boundary. */
  lemma SqlCompleteIff(all: seq<Transaction>, limit: int)
    requires UniqueIDs(all) && NewestFirst(all)
    ensures CleanFrom(all, SqlLimit(limit), SqlLimit(limit)) ==> SqlComplete(all, limit)
    ensures !CleanFrom(all, SqlLimit(limit), SqlLimit(limit)) ==>
              var r := Follow(Reader(Sql, all, limit), None, |all| + 1); r.Some? ==> |r.value| < |all|
  {
    hide KeysetPage, Older;
    SqlResumes(all, limit);
    assert all[0..] == all;
    CompleteFrom(Reader(Sql, all, limit), all, 0, SqlLimit(limit), |all| + 1);
  }
}
