/** The batch that retries unmatched suspense items: each open item's transfer is asked
    for again by the session in its stored payload, and one that now names an account is
    reassigned to its owner. */
module Reprocessing {
  import opened Domain
  import opened Ledger
  import opened Books
  import opened Accounts
  import opened SideStores
  import opened Matcher
  import opened Worker
  import opened Serialized
  import opened Sweeping
  import SuspenseService

  datatype Outcome = Resolved | NoSession | NoMatch | NotResolved

  /** The owner of the account that a transfer names, by reference and then by NUBAN; an
      account without a customer falls through, and "" stands for nobody. */
  function OwnerOf(t: Table, pt: ProviderTransaction): string {
    var byRef := if pt.accountRef == "" then None else ScanRef(t, pt.accountRef);
    if byRef.Some? && t[byRef.value].customer != "" then t[byRef.value].customer
    else
      var byNUBAN := if pt.accountNumber == "" then None else ScanNUBAN(t, pt.accountNumber);
      if byNUBAN.Some? then t[byNUBAN.value].customer else ""
  }

  function ReassignTo(env: Env, owner: string): SuspenseService.Resolution
    requires owner in env.customers
  {
    SuspenseService.Reassign(owner, env.customers[owner].tenant)
  }

  /** What becomes of one item; sessions that the provider cannot answer are absent from
      `answers`. A resolved item comes with its new owner. */
  function OutcomeOf(st: Stores, env: Env, answers: map<string, ProviderTransaction>, id: nat): (Outcome, string)
    requires id < |st.items|
  {
    if st.items[id].tx !in st.book.txns then (NotResolved, "")
    else
      var session := SessionIn(st.book.txns[st.items[id].tx].raw);
      if session == "" then (NoSession, "")
      else if session !in answers then (NotResolved, "")
      else
        var owner := OwnerOf(env.accounts, answers[session]);
        if owner == "" then (NoMatch, "")
        else if owner !in env.customers then (NotResolved, "")
        else if !SuspenseService.Accepts(st, env, id, ReassignTo(env, owner)) then (NotResolved, "")
        else (Resolved, owner)
  }

  function Attempt(st: Stores, env: Env, answers: map<string, ProviderTransaction>, id: nat): Stores
    requires id < |st.items|
  {
    var (outcome, owner) := OutcomeOf(st, env, answers, id);
    if outcome == Resolved then SuspenseService.Settle(st, env, id, ReassignTo(env, owner)) else st
  }

  predicate Within(ids: seq<nat>, n: nat) { forall k :: 0 <= k < |ids| ==> ids[k] < n }

  /** The batch over the listed items, in order; `clock` is the time at each. */
  function Batch(
    st: Stores, env: Env, answers: map<string, ProviderTransaction>, ids: seq<nat>, clock: nat -> int): (r: Stores)
    requires Within(ids, |st.items|)
    ensures |r.items| == |st.items|
  {
    if ids == [] then st
    else
      var n := |ids| - 1;
      Attempt(Batch(st, env, answers, ids[..n], clock), env.(now := clock(n)), answers, ids[n])
  }

  // ── What the batch does, told from the stores before it ───────────────────

  /** The amount that one item's attempt adds to an account. */
  function GainOf(st: Stores, env: Env, answers: map<string, ProviderTransaction>, id: nat, a: Account): int
    requires id < |st.items|
  {
    var (outcome, owner) := OutcomeOf(st, env, answers, id);
    if outcome != Resolved || ResolutionTx(id) in st.book.txns then 0
    else
      var amount := st.book.txns[st.items[id].tx].amount;
      if a == Suspense then -amount else if a == Wallet(owner) then amount else 0
  }

  function Gains(st: Stores, env: Env, answers: map<string, ProviderTransaction>, ids: seq<nat>, a: Account): int
    requires Within(ids, |st.items|)
  {
    if ids == [] then 0
    else Gains(st, env, answers, ids[..|ids| - 1], a) + GainOf(st, env, answers, ids[|ids| - 1], a)
  }

  function CountOf(
    st: Stores, env: Env, answers: map<string, ProviderTransaction>, ids: seq<nat>, outcome: Outcome): nat
    requires Within(ids, |st.items|)
  {
    if ids == [] then 0
    else CountOf(st, env, answers, ids[..|ids| - 1], outcome)
         + if OutcomeOf(st, env, answers, ids[|ids| - 1]).0 == outcome then 1 else 0
  }

  /** Every item holds a provider's transaction. */
  predicate HoldsPayments(items: seq<Item>) { forall it <- items :: it.tx.ProviderTx? }

  /** As far as this item is concerned nothing has happened. */
  predicate Alike(st: Stores, now: Stores, id: nat) {
    && id < |st.items| == |now.items|
    && now.items[id] == st.items[id]
    && (st.items[id].tx in st.book.txns <==> st.items[id].tx in now.book.txns)
    && (st.items[id].tx in st.book.txns ==> now.book.txns[st.items[id].tx] == st.book.txns[st.items[id].tx])
    && (ResolutionTx(id) in st.book.txns <==> ResolutionTx(id) in now.book.txns)
  }

  /** Alike items meet the same fate, at any time. */
  lemma AlikeOutcome(
    st: Stores, now: Stores, env: Env, time: int, answers: map<string, ProviderTransaction>, id: nat, a: Account)
    requires Alike(st, now, id)
    ensures OutcomeOf(now, env.(now := time), answers, id) == OutcomeOf(st, env, answers, id)
    ensures GainOf(now, env.(now := time), answers, id, a) == GainOf(st, env, answers, id, a)
  {
    hide ScanRef, ScanNUBAN;
  }

  lemma AttemptLeavesOthers(st: Stores, env: Env, answers: map<string, ProviderTransaction>, id: nat, other: nat)
    requires id < |st.items| && other < |st.items| && other != id && HoldsPayments(st.items)
    ensures Alike(st, Attempt(st, env, answers, id), other)
    ensures HoldsPayments(Attempt(st, env, answers, id).items)
  {
    hide OwnerOf, ScanStatus, Sum, Effect;
  }

  lemma AttemptGains(st: Stores, env: Env, answers: map<string, ProviderTransaction>, id: nat, a: Account)
    requires id < |st.items|
    ensures BalanceOf(Attempt(st, env, answers, id).book, a)
         == BalanceOf(st.book, a) + GainOf(st, env, answers, id, a)
  {
    hide OwnerOf, ScanStatus, Sum, Effect;
    var (outcome, owner) := OutcomeOf(st, env, answers, id);
    if outcome == Resolved {
      ReassignmentMovesMoneyOnce(st, env, id, owner, env.customers[owner].tenant, a);
    }
  }

  lemma AlikeIsTransitive(a: Stores, b: Stores, c: Stores, id: nat)
    requires Alike(a, b, id) && Alike(b, c, id)
    ensures Alike(a, c, id)
  {}

  /** Items outside the batch are untouched by it. */
  lemma {:induction false} BatchLeavesOthers(
    st: Stores, env: Env, answers: map<string, ProviderTransaction>, ids: seq<nat>, clock: nat -> int, other: nat)
    requires Within(ids, |st.items|)
    requires HoldsPayments(st.items) && other < |st.items| && other !in ids
    ensures Alike(st, Batch(st, env, answers, ids, clock), other)
    ensures HoldsPayments(Batch(st, env, answers, ids, clock).items)
  {
    hide Attempt, Alike;
    if ids == [] {
      AlikeToItself(st, other);
    } else {
      var n := |ids| - 1;
      BatchLeavesOthers(st, env, answers, ids[..n], clock, other);
      var now := Batch(st, env, answers, ids[..n], clock);
      AttemptLeavesOthers(now, env.(now := clock(n)), answers, ids[n], other);
      AlikeIsTransitive(st, now, Batch(st, env, answers, ids, clock), other);
    }
  }

  lemma AlikeToItself(st: Stores, id: nat)
    requires id < |st.items|
    ensures Alike(st, st, id)
  {}

  /** The batch moves exactly the amounts of the items it resolves that had no earlier
      resolution transaction: out of suspense, each into the wallet of its new owner, and
      no other balance changes. All of it is decided by the stores before the batch. */
  lemma {:induction false} BatchMovesResolvedAmounts(
    st: Stores, env: Env, answers: map<string, ProviderTransaction>, ids: seq<nat>, clock: nat -> int, a: Account)
    requires Within(ids, |st.items|)
    requires HoldsPayments(st.items) && Distinct(ids)
    ensures BalanceOf(Batch(st, env, answers, ids, clock).book, a)
         == BalanceOf(st.book, a) + Gains(st, env, answers, ids, a)
  {
    hide Attempt, Alike, BalanceOf, GainOf, OutcomeOf;
    if ids != [] {
      var n := |ids| - 1;
      BatchMovesResolvedAmounts(st, env, answers, ids[..n], clock, a);
      var now := Batch(st, env, answers, ids[..n], clock);
      BatchLeavesOthers(st, env, answers, ids[..n], clock, ids[n]);
      AlikeOutcome(st, now, env, clock(n), answers, ids[n], a);
      AttemptGains(now, env.(now := clock(n)), answers, ids[n], a);
    }
  }

  /** What left suspense went to wallets: the gains of suspense are minus those of the
      owners, one by one. */
  lemma {:induction false} SuspenseFallsByResolved(
    st: Stores, env: Env, answers: map<string, ProviderTransaction>, ids: seq<nat>)
    requires Within(ids, |st.items|)
    ensures Gains(st, env, answers, ids, Suspense) == -AmountsMoved(st, env, answers, ids)
  {
    if ids != [] { SuspenseFallsByResolved(st, env, answers, ids[..|ids| - 1]); }
  }

  /** The total of the resolved items' amounts, without those already moved. */
  function AmountsMoved(st: Stores, env: Env, answers: map<string, ProviderTransaction>, ids: seq<nat>): int
    requires Within(ids, |st.items|)
  {
    if ids == [] then 0
    else
      var id := ids[|ids| - 1];
      AmountsMoved(st, env, answers, ids[..|ids| - 1]) +
        if OutcomeOf(st, env, answers, id).0 == Resolved && ResolutionTx(id) !in st.book.txns
        then st.book.txns[st.items[id].tx].amount else 0
  }

  // ── Outcomes, told from the tables ────────────────────────────────────────

  /** Account i has the transfer's reference and a customer; or no account has both, and account
      i's NUBAN is the transfer's account number. */
  predicate OwnsBy(t: Table, pt: ProviderTransaction, i: nat) {
    && i < |t|
    && (|| (pt.accountRef != "" && t[i].ref == pt.accountRef && t[i].customer != "")
        || ((pt.accountRef == "" || forall va <- t :: va.ref == pt.accountRef ==> va.customer == "")
            && pt.accountNumber != "" && t[i].nuban == pt.accountNumber))
  }

  lemma OwnerIs(t: Table, pt: ProviderTransaction, i: nat)
    requires Constrained(t)
    ensures OwnsBy(t, pt, i) ==> OwnerOf(t, pt) == t[i].customer
    ensures OwnerOf(t, pt) != "" ==> exists j: nat :: OwnsBy(t, pt, j) && t[j].customer == OwnerOf(t, pt)
  {
    if pt.accountRef != "" && ScanRef(t, pt.accountRef).Some? { assert t[ScanRef(t, pt.accountRef).value] in t; }
    if OwnerOf(t, pt) != "" {
      var byRef := if pt.accountRef == "" then None else ScanRef(t, pt.accountRef);
      if byRef.Some? && t[byRef.value].customer != "" {
        assert OwnsBy(t, pt, byRef.value);
      } else {
        assert OwnsBy(t, pt, ScanNUBAN(t, pt.accountNumber).value);
      }
    }
  }

  /** Which items come out how: without a session in its stored payload none is asked about; an
      answered one whose transfer has no owner is not matched; and one is resolved exactly when
      its owner is a known customer and the item is still open with a positive amount. */
  lemma OutcomeIs(st: Stores, env: Env, answers: map<string, ProviderTransaction>, id: nat)
    requires id < |st.items| && st.items[id].tx in st.book.txns
    ensures var tx := st.book.txns[st.items[id].tx];
            var session := if tx.raw.Body? && "session_id" in tx.raw.top then tx.raw.top["session_id"] else "";
            var outcome := OutcomeOf(st, env, answers, id).0;
            && (outcome == NoSession <==> session == "")
            && (outcome == NoMatch <==>
                  session != "" && session in answers && OwnerOf(env.accounts, answers[session]) == "")
            && (outcome == Resolved <==>
                  && session != "" && session in answers
                  && OwnerOf(env.accounts, answers[session]) != ""
                  && OwnerOf(env.accounts, answers[session]) in env.customers
                  && (env.lookup == AcrossTenants || env.customers[OwnerOf(env.accounts, answers[session])].tenant != "")
                  && st.items[id].status == Open && tx.amount > 0)
  {
    hide OwnerOf;
  }

  // ── Which items are ever retried ──────────────────────────────────────────

  /** The delivery that posts the identifier, if it is new: the first effective one. */
  function FirstEffective(ds: seq<Delivery>, id: string): (i: nat)
    ensures i <= |ds|
  {
    if ds == [] then 0
    else if Effective(ds[0]) && ds[0].item.payment.id == id then 0
    else 1 + FirstEffective(ds[1..], id)
  }

  /** Items keep their place and their transaction, and transactions their payload. */
  predicate Grows(st: Stores, now: Stores) {
    && |st.items| <= |now.items|
    && (forall k :: 0 <= k < |st.items| ==> now.items[k] == st.items[k])
    && (forall id <- st.book.txns :: id in now.book.txns && now.book.txns[id] == st.book.txns[id])
  }

  lemma AbsorbGrows(st: Stores, d: Delivery)
    ensures Grows(st, Absorb(st, d.env, d.item, d.faults))
  {
    hide RouteOf, TryFulfil, Effect, ScanRef, ScanNUBAN;
  }

  lemma {:induction false} DeliverGrows(st: Stores, ds: seq<Delivery>)
    ensures Grows(st, Deliver(st, ds))
    decreases |ds|
  {
    hide Absorb;
    if ds != [] {
      AbsorbGrows(st, ds[0]);
      DeliverGrows(Absorb(st, ds[0].env, ds[0].item, ds[0].faults), ds[1..]);
    }
  }

  lemma AbsorbMakesItem(st: Stores, d: Delivery)
    requires |Absorb(st, d.env, d.item, d.faults).items| > |st.items|
    ensures var now, tx := Absorb(st, d.env, d.item, d.faults), ProviderTx(d.item.payment.id);
            && |now.items| == |st.items| + 1 && now.items[|st.items|].tx == tx && Effective(d)
            && tx !in st.book.txns && tx in now.book.txns && now.book.txns[tx].raw == d.item.payment.raw
  {
    hide RouteOf, TryFulfil, Effect, ScanRef, ScanNUBAN;
  }

  /** A new item's transaction stores the payload of the delivery that posted it. */
  ghost predicate StoresItsDelivery(st: Stores, ds: seq<Delivery>, k: nat) {
    var now := Deliver(st, ds);
    && k < |now.items| && now.items[k].tx.ProviderTx?
    && now.items[k].tx !in st.book.txns && now.items[k].tx in now.book.txns
    && FirstEffective(ds, now.items[k].tx.name) < |ds|
    && now.book.txns[now.items[k].tx].raw == ds[FirstEffective(ds, now.items[k].tx.name)].item.payment.raw
  }

  lemma {:induction false} NewItemsStoreTheirDelivery(st: Stores, ds: seq<Delivery>, k: nat)
    requires |st.items| <= k < |Deliver(st, ds).items|
    ensures StoresItsDelivery(st, ds, k)
    decreases |ds|
  {
    hide Absorb;
    assert ds != [];
    var st' := Absorb(st, ds[0].env, ds[0].item, ds[0].faults);
    AbsorbGrows(st, ds[0]);
    DeliverGrows(st', ds[1..]);
    if k < |st'.items| {
      AbsorbMakesItem(st, ds[0]);
    } else {
      NewItemsStoreTheirDelivery(st', ds[1..], k);
      AbsorbRecords(st, ds[0].env, ds[0].item, ds[0].faults);
    }
  }

  /** After any run of deliveries, the batch asks the provider about a new item if and only if
      the payload of the delivery that posted it carries `session_id` at its top level. */
  lemma RetriedIff(
    st: Stores, ds: seq<Delivery>, k: nat, later: Env, replies: map<string, ProviderTransaction>)
    requires |st.items| <= k < |Deliver(st, ds).items|
    ensures StoresItsDelivery(st, ds, k)
    ensures var raw := ds[FirstEffective(ds, Deliver(st, ds).items[k].tx.name)].item.payment.raw;
            OutcomeOf(Deliver(st, ds), later, replies, k).0 != NoSession <==>
              raw.Body? && "session_id" in raw.top && raw.top["session_id"] != ""
  {
    hide Deliver, FirstEffective, OwnerOf;
    NewItemsStoreTheirDelivery(st, ds, k);
  }

  /** What the two adapters take a webhook's body to be: the session lies under `data`. */
  function NombaBody(eventType: string, requestId: string, data: string): Payload {
    Body(map["event_type" := eventType, "requestid" := requestId, "data" := data])
  }

  function FakeBody(event: string, data: string): Payload { Body(map["event" := event, "data" := data]) }

  ghost predicate Documented(p: Payload) {
    || p == Marshalled
    || (exists e, r, d :: p == NombaBody(e, r, d))
    || (exists e, d :: p == FakeBody(e, d))
  }

  /** No payload that the engine marshals, or that its adapters are written for, has the key;
      so as long as all payloads are such, the batch never retries any new item. */
  lemma DocumentedItemsAreNeverRetried(
    st: Stores, ds: seq<Delivery>, k: nat, later: Env, replies: map<string, ProviderTransaction>)
    requires forall d <- ds :: Documented(d.item.payment.raw)
    requires |st.items| <= k < |Deliver(st, ds).items|
    ensures OutcomeOf(Deliver(st, ds), later, replies, k).0 == NoSession
  {
    hide Deliver, FirstEffective, OwnerOf, OutcomeOf, Documented;
    RetriedIff(st, ds, k, later, replies);
    var d := ds[FirstEffective(ds, Deliver(st, ds).items[k].tx.name)];
    assert d in ds;
    DocumentedHasNoSession(d.item.payment.raw);
  }

  lemma DocumentedHasNoSession(p: Payload)
    requires Documented(p)
    ensures SessionIn(p) == ""
  {
    if e, r, d :| p == NombaBody(e, r, d) {
      assert "session_id"[0] != "event_type"[0] && "session_id"[0] != "requestid"[0] && "session_id"[0] != "data"[0];
    } else if e, d :| p == FakeBody(e, d) {
      assert "session_id"[0] != "event"[0] && "session_id"[0] != "data"[0];
    }
  }

  /** In particular, whatever the provider would answer, no item made by a sweep is retried. */
  lemma SweptItemsAreNeverRetried(
    st: Stores, pts: seq<ProviderTransaction>, c: Circumstances,
    later: Env, replies: map<string, ProviderTransaction>, k: nat)
    requires |st.items| <= k < |Swept(st, pts, c).items|
    ensures OutcomeOf(Swept(st, pts, c), later, replies, k).0 == NoSession
  {
    hide Swept, Deliver, OutcomeOf;
    SweptDelivers(st, pts, c);
    DocumentedItemsAreNeverRetried(st, Deliveries(pts, c), k, later, replies);
  }

  datatype Report = Report(total: nat, resolved: nat, noMatch: nat, noSession: nat, failed: nat)

  /** The report counts each outcome, as decided by the stores before the batch. */
  ghost predicate Counts(
    r: Report, st: Stores, env: Env, answers: map<string, ProviderTransaction>, ids: seq<nat>)
    requires Within(ids, |st.items|)
  {
    && r.resolved == CountOf(st, env, answers, ids, Resolved)
    && r.noMatch == CountOf(st, env, answers, ids, NoMatch)
    && r.noSession == CountOf(st, env, answers, ids, NoSession)
    && r.failed == CountOf(st, env, answers, ids, NotResolved)
  }

  /** The report after one more outcome. */
  function Tallied(r: Report, outcome: Outcome): Report {
    match outcome
    case Resolved => r.(resolved := r.resolved + 1)
    case NoSession => r.(noSession := r.noSession + 1)
    case NoMatch => r.(noMatch := r.noMatch + 1)
    case NotResolved => r.(failed := r.failed + 1)
  }

  lemma BatchStarts(
    st: Stores, env: Env, answers: map<string, ProviderTransaction>, clock: nat -> int, r: Report)
    requires r == Report(r.total, 0, 0, 0, 0)
    ensures Within([], |st.items|)
    ensures Batch(st, env, answers, [], clock) == st && Counts(r, st, env, answers, [])
  {}

  /** The next item meets the fate that the stores before the batch decide. */
  lemma BatchNext(
    st: Stores, env: Env, answers: map<string, ProviderTransaction>, ids: seq<nat>, clock: nat -> int, i: nat)
    requires Within(ids, |st.items|) && Distinct(ids) && HoldsPayments(st.items) && i < |ids|
    ensures Within(ids[..i], |st.items|) && Within(ids[..i + 1], |st.items|) && ids[i] < |st.items|
    ensures var now, env' := Batch(st, env, answers, ids[..i], clock), env.(now := clock(i));
            && Batch(st, env, answers, ids[..i + 1], clock) == Attempt(now, env', answers, ids[i])
            && OutcomeOf(now, env', answers, ids[i]) == OutcomeOf(st, env, answers, ids[i])
  {
    hide Attempt, OutcomeOf, Alike;
    assert ids[..i + 1][..i] == ids[..i] && ids[..i + 1][i] == ids[i];
    BatchLeavesOthers(st, env, answers, ids[..i], clock, ids[i]);
    AlikeOutcome(st, Batch(st, env, answers, ids[..i], clock), env, clock(i), answers, ids[i], Suspense);
  }

  lemma CountsNext(
    r: Report, st: Stores, env: Env, answers: map<string, ProviderTransaction>, ids: seq<nat>, i: nat)
    requires Within(ids, |st.items|) && i < |ids|
    requires Within(ids[..i], |st.items|) && Within(ids[..i + 1], |st.items|) && ids[i] < |st.items|
    requires Counts(r, st, env, answers, ids[..i])
    ensures Counts(Tallied(r, OutcomeOf(st, env, answers, ids[i]).0), st, env, answers, ids[..i + 1])
    ensures forall o :: Tallied(r, o).total == r.total
  {
    hide OutcomeOf;
    assert ids[..i + 1][..i] == ids[..i] && ids[..i + 1][i] == ids[i];
  }

  lemma {:induction false} OutcomesAddUp(
    st: Stores, env: Env, answers: map<string, ProviderTransaction>, ids: seq<nat>)
    requires Within(ids, |st.items|)
    ensures CountOf(st, env, answers, ids, Resolved) + CountOf(st, env, answers, ids, NoMatch)
            + CountOf(st, env, answers, ids, NoSession) + CountOf(st, env, answers, ids, NotResolved) == |ids|
  {
    hide OutcomeOf;
    if ids != [] { OutcomesAddUp(st, env, answers, ids[..|ids| - 1]); }
  }

  class InternalOps {
    const service: SuspenseService.Service

    constructor (service: SuspenseService.Service)
      ensures this.service == service
    {
      this.service := service;
    }

    ghost predicate Reads(env: Env)
      reads service.accounts
    {
      service.accounts.Valid() && env.accounts == service.accounts.accounts
    }

    function Value(collections: seq<Collection>): Stores
      reads service.txns, service.suspense
    {
      service.Value(collections)
    }

    method FindOwner(pt: ProviderTransaction) returns (customer: string)
      requires service.accounts.Valid()
      ensures customer == OwnerOf(service.accounts.accounts, pt)
    {
      customer := "";
      if pt.accountRef != "" {
        var va := service.accounts.GetVAByAccountRef(pt.accountRef);
        if va.Some? { customer := service.accounts.accounts[va.value].customer; }
      }
      if customer == "" && pt.accountNumber != "" {
        var va := service.accounts.GetVAByNUBAN(pt.accountNumber);
        if va.Some? { customer := service.accounts.accounts[va.value].customer; }
      }
    }

    /** One item of the batch. */
    method ReprocessItem(id: nat, answers: map<string, ProviderTransaction>, env: Env, ghost cs: seq<Collection>)
      returns (outcome: Outcome)
      requires Reads(env) && id < |service.suspense.items|
      modifies service.txns, service.suspense
      ensures Value(cs) == Attempt(old(Value(cs)), env, answers, id)
      ensures outcome == OutcomeOf(old(Value(cs)), env, answers, id).0
    {
      var orig := service.txns.GetTransaction(service.suspense.items[id].tx);
      if orig.None? { return NotResolved; }
      var session := SessionIn(orig.value.raw);
      if session == "" { return NoSession; }
      if session !in answers { return NotResolved; }
      var owner := FindOwner(answers[session]);
      if owner == "" { return NoMatch; }
      if owner !in env.customers { return NotResolved; }
      var r := service.Resolve(id, ReassignTo(env, owner), env, cs);
      outcome := if r == SuspenseService.Resolved then Resolved else NotResolved;
    }

    /** The batch over the two hundred oldest open unmatched items. */
    method ReprocessSuspense(
      answers: map<string, ProviderTransaction>, env: Env, clock: nat -> int, ghost cs: seq<Collection>)
      returns (report: Report, ids: seq<nat>)
      requires Reads(env) && HoldsPayments(service.suspense.items)
      modifies service.txns, service.suspense
      ensures IsOldest(ids, old(service.suspense.items), 200)
      ensures Distinct(ids) && Within(ids, |old(service.suspense.items)|)
      ensures Value(cs) == Batch(old(Value(cs)), env, answers, ids, clock)
      ensures report.total == |ids| == report.resolved + report.noMatch + report.noSession + report.failed
      ensures Counts(report, old(Value(cs)), env, answers, ids)
    {
      ghost var st := Value(cs);
      ids := service.suspense.ListOpenUnmatchedItems(200);
      report := ProcessListed(ids, answers, env, clock, cs);
      OutcomesAddUp(st, env, answers, ids);
    }

    method ProcessListed(
      ids: seq<nat>, answers: map<string, ProviderTransaction>, env: Env, clock: nat -> int, ghost cs: seq<Collection>)
      returns (report: Report)
      requires Reads(env) && HoldsPayments(service.suspense.items) && Distinct(ids)
      requires Within(ids, |service.suspense.items|)
      modifies service.txns, service.suspense
      ensures Value(cs) == Batch(old(Value(cs)), env, answers, ids, clock)
      ensures report.total == |ids|
      ensures Counts(report, old(Value(cs)), env, answers, ids)
    {
      hide Batch, Attempt, OutcomeOf, Counts, Tallied, HoldsPayments;
      report := Report(|ids|, 0, 0, 0, 0);
      ghost var st := Value(cs);
      BatchStarts(st, env, answers, clock, report);
      assert ids[..0] == [];
      for i := 0 to |ids|
        invariant Reads(env)
        invariant Value(cs) == Batch(st, env, answers, ids[..i], clock)
        invariant report.total == |ids| && Counts(report, st, env, answers, ids[..i])
      {
        BatchNext(st, env, answers, ids, clock, i);
        var outcome := ReprocessItem(ids[i], answers, env.(now := clock(i)), cs);
        CountsNext(report, st, env, answers, ids, i);
        report := Tallied(report, outcome);
      }
      assert ids[..|ids|] == ids;
    }
  }
}
