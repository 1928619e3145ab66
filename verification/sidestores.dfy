/** Suspense items and payment collections: rows updated in place under the guards of
    the SQL statements, and the query that picks the collection to fulfil. */
module SideStores {
  import opened Domain

  // ── Suspense items ────────────────────────────────────────────────────────

  /** The guarded update: only an open item changes status. */
  function ResolveItem(items: seq<Item>, id: nat, status: ItemStatus): seq<Item> {
    if id < |items| && items[id].status == Open then items[id := items[id].(status := status)] else items
  }

  class SuspenseStore {
    var items: seq<Item>

    constructor ()
      ensures items == []
    {
      items := [];
    }

    method CreateSuspenseItem(item: Item)
      modifies this
      ensures items == old(items) + [item]
    {
      items := items + [item];
    }

    method GetSuspenseItem(id: nat) returns (item: Option<Item>)
      ensures item == if id < |items| then Some(items[id]) else None
    {
      item := if id < |items| then Some(items[id]) else None;
    }

    method ResolveSuspenseItem(id: nat, status: ItemStatus)
      modifies this
      ensures items == ResolveItem(old(items), id, status)
    {
      if id < |items| && items[id].status == Open {
        items := items[id := items[id].(status := status)];
      }
    }

    /** The oldest open unmatched items in order, up to the limit. */
    method ListOpenUnmatchedItems(limit: int) returns (ids: seq<nat>)
      ensures IsOldest(ids, items, ListLimit(limit))
    {
      var most := ListLimit(limit);
      ids := [];
      for i := 0 to |items|
        invariant |ids| <= most
        invariant forall k :: 0 <= k < |ids| ==> ids[k] < i && OpenUnmatched(items[ids[k]])
        invariant forall k, l :: 0 <= k < l < |ids| ==> ids[k] < ids[l]
        invariant forall j :: 0 <= j < i && OpenUnmatched(items[j]) ==>
                    j in ids || (|ids| == most && forall k <- ids :: k < j)
      {
        if OpenUnmatched(items[i]) && |ids| < most { ids := ids + [i]; }
      }
    }
  }

  predicate OpenUnmatched(item: Item) { item.status == Open && item.reason == Unmatched }

  /** A limit outside 1 to 500 means 100. */
  function ListLimit(limit: int): (l: nat) ensures 0 < l <= 500 { if limit <= 0 || limit > 500 then 100 else limit }

  /** Open unmatched items, oldest first, at most `most`; one is missing only if that many
      older ones are listed. */
  ghost predicate IsOldest(ids: seq<nat>, items: seq<Item>, most: nat) {
    && |ids| <= most
    && (forall k :: 0 <= k < |ids| ==> ids[k] < |items| && OpenUnmatched(items[ids[k]]))
    && (forall k, l :: 0 <= k < l < |ids| ==> ids[k] < ids[l])
    && (forall i :: 0 <= i < |items| && OpenUnmatched(items[i]) ==>
          i in ids || (|ids| == most && forall k <- ids :: k < i))
  }

  /** Times count nanoseconds. */
  const SECOND: int := 1_000_000_000

  // ── Collections ───────────────────────────────────────────────────────────

  /** What the match query asks for: open, unexpired, for this account, and for this
      amount when one is expected. */
  predicate Matches(c: Collection, va: nat, amount: int, now: int) {
    && c.va == va
    && c.status == CollOpen
    && (c.expiresAt.None? || c.expiresAt.value > now)
    && (c.expected.None? || c.expected.value == amount)
  }

  /** Rows are inserted with the database clock, so they are in creation order. */
  predicate InCreationOrder(cs: seq<Collection>) {
    forall i, j :: 0 <= i < j < |cs| ==> cs[i].createdAt <= cs[j].createdAt
  }

  function FindOpen(cs: seq<Collection>, va: nat, amount: int, now: int, from: nat := 0): (r: Option<nat>)
    requires from <= |cs|
    ensures r.Some? ==> from <= r.value < |cs| && Matches(cs[r.value], va, amount, now)
    ensures r.Some? ==> forall j :: from <= j < r.value ==> !Matches(cs[j], va, amount, now)
    ensures r.None? ==> forall j :: from <= j < |cs| ==> !Matches(cs[j], va, amount, now)
    decreases |cs| - from
  {
    if from == |cs| then None
    else if Matches(cs[from], va, amount, now) then Some(from)
    else FindOpen(cs, va, amount, now, from + 1)
  }

  /** The guarded updates: only an open collection is fulfilled or cancelled. */
  function Fulfil(cs: seq<Collection>, id: nat, tx: TxID): seq<Collection> {
    if id < |cs| && cs[id].status == CollOpen then cs[id := cs[id].(status := Fulfilled(tx))] else cs
  }

  function Cancel(cs: seq<Collection>, id: nat): seq<Collection> {
    if id < |cs| && cs[id].status == CollOpen then cs[id := cs[id].(status := Cancelled)] else cs
  }

  function TryFulfil(cs: seq<Collection>, va: nat, tx: TxID, amount: int, now: int): seq<Collection> {
    var c := FindOpen(cs, va, amount, now);
    if c.None? then cs else Fulfil(cs, c.value, tx)
  }

  /** Run without interleaving, a payment does nothing exactly when the account has no open,
      unexpired collection for any amount or for this one. Otherwise it fulfils one such
      collection, the oldest, for this transaction, and changes nothing else. */
  lemma OldestMatchIsFulfilled(cs: seq<Collection>, va: nat, tx: TxID, amount: int, now: int)
    requires InCreationOrder(cs)
    ensures var cs' := TryFulfil(cs, va, tx, amount, now);
            && |cs'| == |cs|
            && (cs' == cs <==> forall j :: 0 <= j < |cs| ==>
                  !(cs[j].va == va && cs[j].status == CollOpen
                    && (cs[j].expiresAt == None || now < cs[j].expiresAt.value)
                    && (cs[j].expected == None || cs[j].expected == Some(amount))))
            && (forall i :: 0 <= i < |cs| && cs'[i] != cs[i] ==>
                  && cs[i].va == va && cs[i].status == CollOpen
                  && (cs[i].expiresAt == None || now < cs[i].expiresAt.value)
                  && (cs[i].expected == None || cs[i].expected == Some(amount))
                  && cs'[i] == cs[i].(status := Fulfilled(tx))
                  && forall j :: 0 <= j < |cs| && j != i ==>
                       && cs'[j] == cs[j]
                       && (cs[j].va == va && cs[j].status == CollOpen
                           && (cs[j].expiresAt == None || now < cs[j].expiresAt.value)
                           && (cs[j].expected == None || cs[j].expected == Some(amount)) ==>
                             i < j && cs[i].createdAt <= cs[j].createdAt))
  {
    var c := FindOpen(cs, va, amount, now);
    if c.Some? {
      assert Matches(cs[c.value], va, amount, now);
      assert Fulfil(cs, c.value, tx)[c.value].status != cs[c.value].status;
    }
  }

  /** The guarded updates on fields: an open row takes the new status, any other stays. */
  lemma GuardedUpdates(items: seq<Item>, cs: seq<Collection>, id: nat, status: ItemStatus, tx: TxID)
    ensures id < |items| ==>
              ResolveItem(items, id, status)
              == items[id := items[id].(status := if items[id].status == Open then status else items[id].status)]
    ensures id < |cs| ==>
              && Fulfil(cs, id, tx)
                 == cs[id := cs[id].(status := if cs[id].status == CollOpen then Fulfilled(tx) else cs[id].status)]
              && Cancel(cs, id)
                 == cs[id := cs[id].(status := if cs[id].status == CollOpen then Cancelled else cs[id].status)]
  {}

  /** The listed items are open and unmatched, and an open unmatched item is missing only if the
      list is full of older ones. */
  lemma ListedAreOpenUnmatched(ids: seq<nat>, items: seq<Item>, most: nat)
    requires IsOldest(ids, items, most)
    ensures forall k :: 0 <= k < |ids| ==> items[ids[k]].status == Open && items[ids[k]].reason == Unmatched
    ensures forall i :: 0 <= i < |items| && items[i].status == Open && items[i].reason == Unmatched && i !in ids ==>
              |ids| == most && forall k :: 0 <= k < |ids| ==> ids[k] < i
  {
    forall i | 0 <= i < |items| && items[i].status == Open && items[i].reason == Unmatched && i !in ids
      ensures |ids| == most && forall k :: 0 <= k < |ids| ==> ids[k] < i
    {
      assert OpenUnmatched(items[i]);
      assert forall k :: 0 <= k < |ids| ==> ids[k] in ids;
    }
  }

  class CollectionStore {
    var rows: seq<Collection>

    constructor ()
      ensures rows == []
    {
      rows := [];
    }

    /** The service opens a collection on the customer's ACTIVE account; an expected
        amount that is not positive means any amount. */
    method Create(va: nat, expected: Option<int>, expiresInSeconds: int, now: int) returns (id: nat)
      modifies this
      ensures id == |old(rows)| && |rows| == id + 1 && rows == old(rows) + [rows[id]]
      ensures rows[id].va == va && rows[id].status == CollOpen && rows[id].createdAt == now
      ensures rows[id].expected == if expected.Some? && expected.value > 0 then expected else None
      ensures rows[id].expiresAt == if expiresInSeconds > 0 then Some(now + expiresInSeconds * SECOND) else None
    {
      var amount := if expected.Some? && expected.value > 0 then expected else None;
      var expiry := if expiresInSeconds > 0 then Some(now + expiresInSeconds * SECOND) else None;
      id := |rows|;
      rows := rows + [Collection(va, amount, CollOpen, expiry, now)];
    }

    method FindOpenCollectionForVA(va: nat, amount: int, now: int) returns (c: Option<nat>)
      ensures c == FindOpen(rows, va, amount, now)
    {
      for i := 0 to |rows|
        invariant FindOpen(rows, va, amount, now) == FindOpen(rows, va, amount, now, i)
      {
        if Matches(rows[i], va, amount, now) { return Some(i); }
      }
      c := None;
    }

    method FulfillCollection(id: nat, tx: TxID)
      modifies this
      ensures rows == Fulfil(old(rows), id, tx)
    {
      if id < |rows| && rows[id].status == CollOpen {
        rows := rows[id := rows[id].(status := Fulfilled(tx))];
      }
    }

    method CancelCollection(id: nat)
      modifies this
      ensures rows == Cancel(old(rows), id)
    {
      if id < |rows| && rows[id].status == CollOpen {
        rows := rows[id := rows[id].(status := Cancelled)];
      }
    }

    method TryFulfill(va: nat, tx: TxID, amount: int, now: int)
      modifies this
      ensures rows == TryFulfil(old(rows), va, tx, amount, now)
    {
      var c := FindOpenCollectionForVA(va, amount, now);
      if c.Some? {
        FulfillCollection(c.value, tx);
      }
    }
  }
}
