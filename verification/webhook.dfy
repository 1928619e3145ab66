/** Webhook intake: a dedupe key is inserted, the event is acknowledged, and it enters a
    bounded queue or is dropped. */
module WebhookIntake {
  import opened Domain
  import opened Traces

  /** A notification: the provider's transaction identifier and the event type. */
  datatype Notice = Notice(id: string, event: string)

  function KeyOf(n: Notice): string { n.id + ":" + n.event }

  predicate EndsWith(s: string, t: string) { |t| <= |s| && s[|s| - |t|..] == t }

  lemma SharedKey(a: string, e: string, b: string, f: string)
    requires KeyOf(Notice(a, e)) == KeyOf(Notice(b, f)) && |f| <= |e|
    ensures e == f || EndsWith(e, ":" + f)
  {
    var s := KeyOf(Notice(a, e));
    assert s[|a|..] == ":" + e && s[|b|..] == ":" + f;
    if |e| == |f| {
      assert e == s[|a| + 1..] && f == s[|b| + 1..];
    } else {
      assert e == s[|a| + 1..];
      assert e[|b| - |a| - 1..] == s[|b|..];
    }
  }

  /** Two event types can share a dedupe key exactly when they are equal or one ends with
      a colon and the other. The known types have no colon, so theirs are never shared. */
  lemma EventTypesShareAKeyIff(e: string, f: string)
    ensures (exists a, b :: KeyOf(Notice(a, e)) == KeyOf(Notice(b, f)))
       <==> e == f || EndsWith(e, ":" + f) || EndsWith(f, ":" + e)
  {
    if a, b :| KeyOf(Notice(a, e)) == KeyOf(Notice(b, f)) {
      if |e| <= |f| { SharedKey(b, f, a, e); } else { SharedKey(a, e, b, f); }
    }
    if e == f { assert KeyOf(Notice("", e)) == KeyOf(Notice("", f)); }
    if EndsWith(e, ":" + f) { Prefixed(e, f); }
    if EndsWith(f, ":" + e) { Prefixed(f, e); }
  }

  lemma Prefixed(e: string, f: string)
    requires EndsWith(e, ":" + f)
    ensures exists a, b :: KeyOf(Notice(a, e)) == KeyOf(Notice(b, f))
    ensures exists a, b :: KeyOf(Notice(a, f)) == KeyOf(Notice(b, e))
  {
    var head := e[..|e| - |f| - 1];
    assert e == head + ":" + f;
    assert KeyOf(Notice(":" + head, f)) == KeyOf(Notice("", e));
  }

  /** Same event type: the key is the transaction's own. */
  lemma KeysOfOneTypeAreDistinct(a: string, b: string, e: string)
    requires KeyOf(Notice(a, e)) == KeyOf(Notice(b, e))
    ensures a == b
  {
    var s := KeyOf(Notice(a, e));
    assert |a| == |b| && s[..|a|] == a && s[..|b|] == b;
  }

  // ── The intake as a machine ───────────────────────────────────────────────

  /** `taken` and `dropped` are history: what the worker received and what was lost. */
  datatype Intake = Intake(keys: set<string>, queue: seq<Notice>, taken: seq<Notice>, dropped: seq<Notice>)

  datatype Event =
    | Receive(notice: Notice, stored: bool)    // stored: the insert itself did not fail
    | Take                                     // the worker receives from the queue

  const EMPTY_INTAKE: Intake := Intake({}, [], [], [])

  function Enqueue(q: Intake, n: Notice, capacity: nat): Intake {
    if |q.queue| < capacity then q.(queue := q.queue + [n]) else q.(dropped := q.dropped + [n])
  }

  function Occur(capacity: nat, q: Intake, e: Event): Intake {
    match e
    case Receive(n, stored) =>
      if !stored || KeyOf(n) in q.keys then q
      else Enqueue(q.(keys := q.keys + {KeyOf(n)}), n, capacity)
    case Take => if q.queue == [] then q else q.(queue := q.queue[1..], taken := q.taken + [q.queue[0]])
  }

  function Exec(capacity: nat, events: seq<Event>): Intake {
    Fold((q, e) => Occur(capacity, q, e), EMPTY_INTAKE, events)
  }

  predicate DistinctKeys(s: seq<Notice>) { forall i, j :: 0 <= i < j < |s| ==> KeyOf(s[i]) != KeyOf(s[j]) }

  /** Every accepted notice is in exactly one place, once. */
  ghost predicate Inv(q: Intake, capacity: nat) {
    && |q.queue| <= capacity
    && DistinctKeys(q.taken + q.queue + q.dropped)
    && (forall k :: k in q.keys <==> exists n <- q.taken + q.queue + q.dropped :: KeyOf(n) == k)
  }

  /** Putting a notice with a new key somewhere into a sequence. */
  lemma InsertKeepsDistinct(s: seq<Notice>, at: nat, n: Notice)
    requires DistinctKeys(s) && at <= |s| && forall m <- s :: KeyOf(m) != KeyOf(n)
    ensures DistinctKeys(s[..at] + [n] + s[at..])
    ensures forall m :: m in s[..at] + [n] + s[at..] <==> m in s || m == n
  {
    hide KeyOf;
    var s' := s[..at] + [n] + s[at..];
    forall i, j | 0 <= i < j < |s'| ensures KeyOf(s'[i]) != KeyOf(s'[j]) {
      assert i != at ==> s'[i] == s[if i < at then i else i - 1];
      assert j != at ==> s'[j] == s[if j < at then j else j - 1];
    }
    assert s == s[..at] + s[at..];
  }

  lemma ReceiveKeepsInv(q: Intake, n: Notice, capacity: nat)
    requires Inv(q, capacity) && KeyOf(n) !in q.keys
    ensures Inv(Occur(capacity, q, Receive(n, true)), capacity)
  {
    hide KeyOf, DistinctKeys;
    var q' := Occur(capacity, q, Receive(n, true));
    var s, s' := q.taken + q.queue + q.dropped, q'.taken + q'.queue + q'.dropped;
    var at := if |q.queue| < capacity then |q.taken| + |q.queue| else |s|;
    assert s' == s[..at] + [n] + s[at..];
    assert forall m <- s :: KeyOf(m) in q.keys;
    InsertKeepsDistinct(s, at, n);
  }

  lemma EventKeepsInv(q: Intake, e: Event, capacity: nat)
    requires Inv(q, capacity)
    ensures Inv(Occur(capacity, q, e), capacity)
  {
    match e
    case Receive(n, stored) => if stored && KeyOf(n) !in q.keys { ReceiveKeepsInv(q, n, capacity); }
    case Take =>
      var q' := Occur(capacity, q, e);
      assert q'.taken + q'.queue + q'.dropped == q.taken + q.queue + q.dropped;
  }

  lemma {:induction false} RunsKeepInv(capacity: nat, events: seq<Event>)
    ensures Inv(Exec(capacity, events), capacity)
  {
    if events != [] {
      RunsKeepInv(capacity, events[..|events| - 1]);
      EventKeepsInv(Exec(capacity, events[..|events| - 1]), events[|events| - 1], capacity);
    }
  }

  /** However often a notification is redelivered, the worker receives it at most once; and
      a notification that met a full queue is never received at all, because its key stays.
      A sweep can still post a payment that was lost so, but not a reversal: it delivers
      everything it lists as a payment. */
  lemma ReceivedAtMostOnce(capacity: nat, events: seq<Event>, more: seq<Event>)
    ensures var q, later := Exec(capacity, events), Exec(capacity, events + more);
            && DistinctKeys(later.taken)
            && |later.queue| <= capacity
            && q.taken <= later.taken && q.dropped <= later.dropped
            && forall n <- q.dropped, m <- later.taken :: KeyOf(n) != KeyOf(m)
  {
    RunsKeepInv(capacity, events + more);
    HistoryGrows(capacity, events, more);
    var q, later := Exec(capacity, events), Exec(capacity, events + more);
    var s := later.taken + later.queue + later.dropped;
    forall i | 0 <= i < |later.taken| ensures s[i] == later.taken[i] {}
    forall n <- q.dropped, m <- later.taken ensures KeyOf(n) != KeyOf(m) {
      var i :| 0 <= i < |q.dropped| && q.dropped[i] == n;
      var j :| 0 <= j < |later.taken| && later.taken[j] == m;
      assert s[|later.taken| + |later.queue| + i] == n && s[j] == m;
    }
  }

  // ── What becomes of a notification ────────────────────────────────────────

  ghost predicate Has(s: seq<Notice>, key: string) { exists n <- s :: KeyOf(n) == key }

  predicate Stores(e: Event, key: string) { e.Receive? && e.stored && KeyOf(e.notice) == key }

  /** The first receipt of the key that is stored, or the length when there is none. */
  function FirstStored(events: seq<Event>, key: string): (i: nat)
    ensures i <= |events|
    ensures i < |events| ==> Stores(events[i], key)
    ensures forall j :: 0 <= j < i ==> !Stores(events[j], key)
  {
    if events == [] then 0
    else
      var init := events[..|events| - 1];
      var i := FirstStored(init, key);
      if i < |init| then i else if Stores(events[|events| - 1], key) then |init| else |events|
  }

  /** The key's place after the run: a stored notification is taken or queued, or dropped, never
      both; and one that was never stored is nowhere. */
  ghost predicate Placed(q: Intake, key: string, known: bool, room: bool) {
    && (key in q.keys <==> known)
    && (Has(q.taken + q.queue, key) <==> known && room)
    && (Has(q.dropped, key) <==> known && !room)
  }

  lemma AppendHas(s: seq<Notice>, n: Notice, key: string)
    ensures Has(s + [n], key) <==> Has(s, key) || KeyOf(n) == key
  {
    hide KeyOf;
    assert n in s + [n] && forall m <- s :: m in s + [n];
  }

  lemma FirstReceiptPlaces(q: Intake, n: Notice, capacity: nat)
    requires Placed(q, KeyOf(n), false, true)
    ensures Placed(Occur(capacity, q, Receive(n, true)), KeyOf(n), true, |q.queue| < capacity)
  {
    hide KeyOf, Has;
    AppendHas(q.taken + q.queue, n, KeyOf(n));
    AppendHas(q.dropped, n, KeyOf(n));
    assert q.taken + (q.queue + [n]) == q.taken + q.queue + [n];
  }

  lemma OtherEventsKeepPlace(q: Intake, e: Event, capacity: nat, key: string, known: bool, room: bool)
    requires Placed(q, key, known, room) && (Stores(e, key) ==> known)
    ensures Placed(Occur(capacity, q, e), key, known, room)
  {
    hide KeyOf, Has;
    match e
    case Take =>
      if q.queue != [] {
        assert q.taken + [q.queue[0]] + q.queue[1..] == q.taken + q.queue;
      }
    case Receive(n, stored) =>
      AppendHas(q.taken + q.queue, n, key);
      AppendHas(q.dropped, n, key);
      assert q.taken + (q.queue + [n]) == q.taken + q.queue + [n];
  }

  ghost predicate RoomAtFirst(capacity: nat, events: seq<Event>, key: string) {
    var i := FirstStored(events, key);
    i < |events| ==> |Exec(capacity, events[..i]).queue| < capacity
  }

  lemma {:induction false} EveryKeyIsPlaced(capacity: nat, events: seq<Event>, key: string)
    ensures Placed(Exec(capacity, events), key, FirstStored(events, key) < |events|, RoomAtFirst(capacity, events, key))
  {
    if events != [] {
      var n := |events| - 1;
      EveryKeyIsPlaced(capacity, events[..n], key);
      var q, i := Exec(capacity, events[..n]), FirstStored(events[..n], key);
      if i < n {
        assert events[..n][..i] == events[..i];
        OtherEventsKeepPlace(q, events[n], capacity, key, true, RoomAtFirst(capacity, events, key));
      } else if Stores(events[n], key) {
        FirstReceiptPlaces(q, events[n].notice, capacity);
      } else {
        OtherEventsKeepPlace(q, events[n], capacity, key, false, true);
      }
    }
  }

  /** A stored notification reaches the worker, or waits in the queue, if and only if it was not
      dropped, which is if and only if the queue had room when it was first stored. */
  lemma AcceptedIff(capacity: nat, events: seq<Event>, key: string)
    requires key in Exec(capacity, events).keys
    ensures var q, i := Exec(capacity, events), FirstStored(events, key);
            && i < |events|
            && (Has(q.taken + q.queue, key) <==> !Has(q.dropped, key))
            && (Has(q.taken + q.queue, key) <==> |Exec(capacity, events[..i]).queue| < capacity)
  {
    EveryKeyIsPlaced(capacity, events, key);
  }

  lemma {:induction false} HistoryGrows(capacity: nat, events: seq<Event>, more: seq<Event>)
    ensures Exec(capacity, events).taken <= Exec(capacity, events + more).taken
    ensures Exec(capacity, events).dropped <= Exec(capacity, events + more).dropped
  {
    if more == [] {
      assert events + more == events;
    } else {
      HistoryGrows(capacity, events, more[..|more| - 1]);
      assert (events + more)[..|events + more| - 1] == events + more[..|more| - 1];
    }
  }

  // ── The handler and the queue ─────────────────────────────────────────────

  class Ingestor {
    const capacity: nat
    var keys: set<string>
    var queue: seq<Notice>
    ghost var taken: seq<Notice>
    ghost var dropped: seq<Notice>

    ghost function Value(): Intake
      reads this
    {
      Intake(keys, queue, taken, dropped)
    }

    constructor (capacity: nat)
      ensures this.capacity == capacity && Value() == EMPTY_INTAKE
    {
      this.capacity, keys, queue, taken, dropped := capacity, {}, [], [], [];
    }

    method InsertWebhookEvent(n: Notice) returns (inserted: bool)
      modifies this
      ensures inserted <==> KeyOf(n) !in old(keys)
      ensures Value() == old(Value()).(keys := old(keys) + {KeyOf(n)})
    {
      inserted := KeyOf(n) !in keys;
      keys := keys + {KeyOf(n)};
    }

    method EnqueueItem(n: Notice) returns (accepted: bool)
      modifies this
      ensures accepted <==> |old(queue)| < capacity
      ensures Value() == Enqueue(old(Value()), n, capacity)
    {
      accepted := |queue| < capacity;
      if accepted { queue := queue + [n]; } else { dropped := dropped + [n]; }
    }

    /** A verified notification: answered with 200 unless the insert itself fails. */
    method HandleNombaWebhook(n: Notice, stored: bool) returns (status: int)
      modifies this
      ensures Value() == Occur(capacity, old(Value()), Receive(n, stored))
      ensures status == if stored then 200 else 500
    {
      if !stored { return 500; }
      var inserted := InsertWebhookEvent(n);
      status := 200;
      if inserted {
        var accepted := EnqueueItem(n);
      } else {
        assert keys == old(keys);
      }
    }

    /** The worker's receive. */
    method TakeItem() returns (n: Option<Notice>)
      modifies this
      ensures n == if old(queue) == [] then None else Some(old(queue)[0])
      ensures Value() == Occur(capacity, old(Value()), Take)
    {
      if queue == [] { return None; }
      n := Some(queue[0]);
      taken := taken + [queue[0]];
      queue := queue[1..];
    }
  }
}
