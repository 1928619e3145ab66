/** The sweep: it follows the provider's pages and hands every transfer to the worker's
    direct path, tallying what each one did. */
module Sweeping {
  import opened Domain
  import opened Books
  import opened Matcher
  import opened Worker
  import opened Serialized

  /** One answer of the provider's listing. */
  datatype Fetch = FetchFailed | Fetched(txns: seq<ProviderTransaction>, more: bool)

  /** A transfer that arrives without its matching fields is asked for again by session;
      sessions the provider cannot answer are absent from `answers`. */
  function Requeried(pt: ProviderTransaction, answers: map<string, ProviderTransaction>): ProviderTransaction {
    if pt.accountNumber == "" && pt.accountRef == "" && pt.session != "" && pt.session in answers
    then answers[pt.session] else pt
  }

  /** Everything listed before the first failure or the last page, in order. */
  function Listed(fetches: seq<Fetch>): seq<ProviderTransaction> {
    if fetches == [] || fetches[0].FetchFailed? then []
    else if !fetches[0].more then fetches[0].txns
    else fetches[0].txns + Listed(fetches[1..])
  }

  function PageCount(fetches: seq<Fetch>): nat {
    if fetches == [] || fetches[0].FetchFailed? then 0
    else 1 + if fetches[0].more then PageCount(fetches[1..]) else 0
  }

  /** The paging is finite: some fetch fails or is the last page. */
  predicate Ends(fetches: seq<Fetch>) {
    fetches != [] && (fetches[0].FetchFailed? || !fetches[0].more || Ends(fetches[1..]))
  }

  /** The run ends in an error exactly when a fetch fails before the last page. */
  predicate Fails(fetches: seq<Fetch>) {
    fetches != [] && (fetches[0].FetchFailed? || (fetches[0].more && Fails(fetches[1..])))
  }

  lemma NextFetch(fetches: seq<Fetch>, p: nat)
    requires p < |fetches| && Ends(fetches[p..])
    ensures fetches[p].FetchFailed? ==>
              Listed(fetches[p..]) == [] && Fails(fetches[p..]) && PageCount(fetches[p..]) == 0
    ensures fetches[p].Fetched? && !fetches[p].more ==>
              Listed(fetches[p..]) == fetches[p].txns && !Fails(fetches[p..]) && PageCount(fetches[p..]) == 1
    ensures fetches[p].Fetched? && fetches[p].more ==>
              && p + 1 < |fetches| && Ends(fetches[p + 1..])
              && Listed(fetches[p..]) == fetches[p].txns + Listed(fetches[p + 1..])
              && Fails(fetches[p..]) == Fails(fetches[p + 1..])
              && PageCount(fetches[p..]) == 1 + PageCount(fetches[p + 1..])
  {
    assert fetches[p..][1..] == fetches[p + 1..];
  }

  /** What a sweep meets: the tables, the provider's answers, and for each listed transfer the
      time and what the stores refuse. */
  datatype Circumstances = Circumstances(
    env: Env, answers: map<string, ProviderTransaction>, clock: nat -> int, faults: nat -> Faults)
  {
    function EnvAt(i: nat): Env { env.(now := clock(i)) }
  }

  /** The sweep stores the transfer as it marshals it itself. */
  function ItemOf(pt: ProviderTransaction, answers: map<string, ProviderTransaction>): WorkItem {
    WorkItem(PaymentSuccess, Requeried(pt, answers).(raw := Marshalled), Source.Sweep)
  }

  /** What the sweep processes for a listed transfer: a payment, as listed if it names an account
      or has no session; otherwise as the provider answers for its session, if it does. */
  lemma ItemOfListed(pt: ProviderTransaction, answers: map<string, ProviderTransaction>)
    ensures var item := ItemOf(pt, answers);
            && item.event == PaymentSuccess && item.source == Source.Sweep && SessionIn(item.payment.raw) == ""
            && (pt.accountNumber != "" || pt.accountRef != "" || pt.session == "" || pt.session !in answers ==>
                  item.payment == pt.(raw := Marshalled))
            && (pt.accountNumber == "" && pt.accountRef == "" && pt.session != "" && pt.session in answers ==>
                  item.payment == answers[pt.session].(raw := Marshalled))
  {}

  /** The stores after the transfers of a listing, in order. */
  function Swept(st: Stores, pts: seq<ProviderTransaction>, c: Circumstances): Stores {
    if pts == [] then st
    else
      var n := |pts| - 1;
      Absorb(Swept(st, pts[..n], c), c.EnvAt(n), ItemOf(pts[n], c.answers), c.faults(n))
  }

  lemma SweptNext(st: Stores, seen: seq<ProviderTransaction>, pt: ProviderTransaction, c: Circumstances)
    ensures Swept(st, seen + [pt], c)
         == Absorb(Swept(st, seen, c), c.EnvAt(|seen|), ItemOf(pt, c.answers), c.faults(|seen|))
  {
    assert (seen + [pt])[..|seen|] == seen;
  }

  /** The deliveries that a listing amounts to. */
  function Deliveries(pts: seq<ProviderTransaction>, c: Circumstances): (ds: seq<Delivery>)
    ensures |ds| == |pts|
    ensures forall i :: 0 <= i < |pts| ==> ds[i] == Delivery(ItemOf(pts[i], c.answers), c.EnvAt(i), c.faults(i))
  {
    seq(|pts|, i requires 0 <= i < |pts| => Delivery(ItemOf(pts[i], c.answers), c.EnvAt(i), c.faults(i)))
  }

  lemma {:induction false} DeliverSnoc(st: Stores, ds: seq<Delivery>, d: Delivery)
    ensures Deliver(st, ds + [d]) == Absorb(Deliver(st, ds), d.env, d.item, d.faults)
    decreases |ds|
  {
    hide Absorb;
    if ds == [] {
      assert ds + [d] == [d] && [d][1..] == [];
      assert Deliver(st, [d]) == Deliver(Absorb(st, d.env, d.item, d.faults), [d][1..]);
    } else {
      DeliverSnoc(Absorb(st, ds[0].env, ds[0].item, ds[0].faults), ds[1..], d);
      assert (ds + [d])[1..] == ds[1..] + [d];
    }
  }

  /** A sweep is a serialized run of deliveries. */
  lemma {:induction false} SweptDelivers(st: Stores, pts: seq<ProviderTransaction>, c: Circumstances)
    ensures Swept(st, pts, c) == Deliver(st, Deliveries(pts, c))
  {
    hide Absorb;
    if pts != [] {
      var n := |pts| - 1;
      SweptDelivers(st, pts[..n], c);
      var d := Delivery(ItemOf(pts[n], c.answers), c.EnvAt(n), c.faults(n));
      DeliverSnoc(st, Deliveries(pts[..n], c), d);
      assert Deliveries(pts, c) == Deliveries(pts[..n], c) + [d];
    }
  }

  /** How the two counts move with one listed transfer: a new transaction is one more, and one
      more credited to suspense exactly when its route leads there. */
  lemma AbsorbCounts(st: Stores, env: Env, item: WorkItem, f: Faults)
    requires item.event == PaymentSuccess
    ensures var isNew := item.payment.amount > 0 && !f.error && ProviderTx(item.payment.id) !in st.book.txns;
            var toSuspense := isNew && RouteOf(env, st.book, item.payment).SuspenseRoute?;
            var st' := Absorb(st, env, item, f);
            && |st'.book.txns| == |st.book.txns| + (if isNew then 1 else 0)
            && Sum(st'.book.rows, SuspenseCredits) == Sum(st.book.rows, SuspenseCredits) + (if toSuspense then 1 else 0)
  {
    var st' := Absorb(st, env, item, f);
    AbsorbRecords(st, env, item, f);
    assert |st.book.txns| == |st.book.txns.Keys| && |st'.book.txns| == |st'.book.txns.Keys|;
    if item.payment.amount > 0 && !f.error && ProviderTx(item.payment.id) !in st.book.txns {
      match RouteOf(env, st.book, item.payment)
      case WalletRoute(va, customer) =>
        MoveAdds(st.book, TxOf(item, Some(va)), Settlement, Wallet(customer), SuspenseCredits);
      case SuspenseRoute(via, _) => MoveAdds(st.book, TxOf(item, via), Settlement, Suspense, SuspenseCredits);
    }
  }

  datatype Tally = Tally(pages: nat, found: nat, posted: nat, suspensed: nat, skipped: nat)

  /** After n transfers: each was posted, skipped or an error; `posted` counts the new
      transactions, and `suspensed` those of them that were credited to suspense. */
  predicate Truthful(t: Tally, errors: nat, was: Stores, now: Stores, n: nat) {
    && t.posted + t.skipped + errors == n
    && t.posted == |now.book.txns| - |was.book.txns|
    && t.suspensed == Sum(now.book.rows, SuspenseCredits) - Sum(was.book.rows, SuspenseCredits)
    && t.suspensed <= t.posted
  }

  const NO_TALLY: Tally := Tally(0, 0, 0, 0, 0)

  lemma BeforeTheFirstPage(fetches: seq<Fetch>, st: Stores, c: Circumstances)
    requires Ends(fetches)
    ensures fetches != [] && fetches[0..] == fetches
    ensures Swept(st, [], c) == st
    ensures Truthful(NO_TALLY, 0, st, st, NO_TALLY.found) && NO_TALLY.pages == NO_TALLY.found == 0
  {}

  /** Counting a page fetched says nothing yet about its transfers. */
  lemma TruthfulAtPage(t: Tally, t': Tally, errors: nat, st: Stores, now: Stores)
    requires Truthful(t, errors, st, now, t.found)
    requires t'.posted == t.posted && t'.skipped == t.skipped && t'.suspensed == t.suspensed
    ensures Truthful(t', errors, st, now, t.found)
  {}

  lemma ReadsAtAnyTime(w: ReconWorker, c: Circumstances, i: nat)
    requires w.Reads(c.env)
    ensures w.Reads(c.EnvAt(i))
  {}

  class SweepRunner {
    const worker: ReconWorker

    constructor (worker: ReconWorker)
      ensures this.worker == worker
    {
      this.worker := worker;
    }

    /** One transfer: its outcome is counted once, or it is an error and only logged. */
    method ProcessOne(
      pt: ProviderTransaction, answers: map<string, ProviderTransaction>, env: Env, f: Faults, t: Tally, errors: nat,
      ghost st: Stores, ghost n: nat)
      returns (t': Tally, errors': nat)
      requires worker.Reads(env) && Truthful(t, errors, st, worker.Value(), n)
      modifies worker.txns, worker.suspense, worker.collections
      ensures worker.Value() == Absorb(old(worker.Value()), env, ItemOf(pt, answers), f)
      ensures Truthful(t', errors', st, worker.Value(), n + 1)
      ensures t'.pages == t.pages && t'.found == t.found
      ensures errors' == errors + 1 <==>
                || f.error
                || (Requeried(pt, answers).amount <= 0 && ProviderTx(Requeried(pt, answers).id) !in old(worker.txns.txns))
    {
      var payment := pt;
      if pt.accountNumber == "" && pt.accountRef == "" && pt.session != "" && pt.session in answers {
        payment := answers[pt.session];
      }
      var item := WorkItem(PaymentSuccess, payment.(raw := Marshalled), Source.Sweep);
      AbsorbCounts(worker.Value(), env, item, f);
      var res := worker.ProcessDirect(item, env, f);
      t', errors' := t, errors;
      if res.Err? {
        errors' := errors + 1;
      } else if res.value.skipped {
        t' := t.(skipped := t.skipped + 1);
      } else if res.value.suspensed {
        t' := t.(suspensed := t.suspensed + 1, posted := t.posted + 1);
      } else if res.value.posted {
        t' := t.(posted := t.posted + 1);
      }
    }

    /** The transfers of one page, after those `seen` before. */
    method ProcessPage(
      pts: seq<ProviderTransaction>, c: Circumstances, t: Tally, errors: nat, ghost st: Stores, ghost seen: seq<ProviderTransaction>)
      returns (t': Tally, errors': nat)
      requires worker.Reads(c.env) && t.found == |seen| && Truthful(t, errors, st, worker.Value(), t.found)
      requires worker.Value() == Swept(st, seen, c)
      modifies worker.txns, worker.suspense, worker.collections
      ensures worker.Value() == Swept(st, seen + pts, c)
      ensures Truthful(t', errors', st, worker.Value(), t'.found)
      ensures t'.pages == t.pages + 1 && t'.found == t.found + |pts|
    {
      hide *;
      t', errors' := t.(pages := t.pages + 1, found := t.found + |pts|), errors;
      var n := t.found;
      TruthfulAtPage(t, t', errors, st, worker.Value());
      ghost var done := seen;
      for i := 0 to |pts|
        invariant done == seen + pts[..i] && worker.Reads(c.env)
        invariant worker.Value() == Swept(st, done, c)
        invariant Truthful(t', errors', st, worker.Value(), n + i)
        invariant t'.pages == t.pages + 1 && t'.found == t.found + |pts|
      {
        ReadsAtAnyTime(worker, c, n + i);
        SweptNext(st, done, pts[i], c);
        t', errors' := ProcessOne(pts[i], c.answers, c.EnvAt(n + i), c.faults(n + i), t', errors', st, n + i);
        done := done + [pts[i]];
      }
      assert done == seen + pts;
    }

    /** The page loop. Whatever the paging, it ends; the stores are those of delivering the
        listing in order; with nobody else posting, the tallies are truthful; and the run
        counts as failed exactly when a page cannot be fetched, however many items failed. */
    method Run(fetches: seq<Fetch>, c: Circumstances)
      returns (t: Tally, errors: nat, failed: bool)
      requires worker.Reads(c.env) && Ends(fetches)
      modifies worker.txns, worker.suspense, worker.collections
      ensures failed == Fails(fetches)
      ensures worker.Value() == Swept(old(worker.Value()), Listed(fetches), c)
      ensures t.pages == PageCount(fetches) && t.found == |Listed(fetches)|
      ensures Truthful(t, errors, old(worker.Value()), worker.Value(), t.found)
    {
      hide *;
      t, errors, failed := NO_TALLY, 0, false;
      var p := 0;
      var more := true;
      ghost var seen: seq<ProviderTransaction> := [];
      ghost var st := worker.Value();
      BeforeTheFirstPage(fetches, st, c);
      while more
        invariant 0 <= p <= |fetches| && worker.Reads(c.env) && (more ==> p < |fetches| && Ends(fetches[p..]))
        invariant Listed(fetches) == seen + if more then Listed(fetches[p..]) else []
        invariant Fails(fetches) == if more then Fails(fetches[p..]) else failed
        invariant PageCount(fetches) == t.pages + if more then PageCount(fetches[p..]) else 0
        invariant !(more && failed) && t.found == |seen|
        invariant worker.Value() == Swept(st, seen, c)
        invariant Truthful(t, errors, st, worker.Value(), t.found)
        decreases |fetches| - p, more
      {
        var page := fetches[p];
        NextFetch(fetches, p);
        if page.FetchFailed? {
          failed, more := true, false;
        } else {
          t, errors := ProcessPage(page.txns, c, t, errors, st, seen);
          seen := seen + page.txns;
          more := page.more;
          p := p + 1;
        }
      }
      assert seen == Listed(fetches);
    }
  }

  /** Some delivery names the identifier with a positive amount. */
  predicate Lists(ds: seq<Delivery>, id: string) {
    exists i :: 0 <= i < |ds| && Postable(ds[i].item) && ds[i].item.payment.id == id
  }

  /** Some such delivery is processed without an error. */
  predicate Lands(ds: seq<Delivery>, id: string) {
    exists i :: 0 <= i < |ds| && Effective(ds[i]) && ds[i].item.payment.id == id
  }

  /** A transfer is in the ledger after some deliveries exactly when it was there before
      or one of them named it and was processed without an error. */
  lemma {:induction false} LandedIsPosted(st: Stores, ds: seq<Delivery>, id: string)
    ensures ProviderTx(id) in Deliver(st, ds).book.txns <==> ProviderTx(id) in st.book.txns || Lands(ds, id)
    decreases |ds|
  {
    hide Absorb;
    if ds != [] {
      var st' := Absorb(st, ds[0].env, ds[0].item, ds[0].faults);
      AbsorbRecords(st, ds[0].env, ds[0].item, ds[0].faults);
      LandedIsPosted(st', ds[1..], id);
      assert forall i :: 1 <= i < |ds| ==> ds[1..][i - 1] == ds[i];
    }
  }

  /** What a sweep posts it posts as a credit, so a reversal whose webhook was lost is never
      posted as one; a listed reversal is credited. */
  lemma {:induction false} SweepsPostCredits(st: Stores, pts: seq<ProviderTransaction>, c: Circumstances, id: TxID)
    requires id in Swept(st, pts, c).book.txns && id !in st.book.txns
    ensures Swept(st, pts, c).book.txns[id].direction == Credit
  {
    if pts != [] {
      var n := |pts| - 1;
      var was := Swept(st, pts[..n], c);
      AbsorbPostsCredit(was, c.EnvAt(n), ItemOf(pts[n], c.answers), c.faults(n), id);
      if id in was.book.txns { SweepsPostCredits(st, pts[..n], c, id); }
    }
  }

  lemma AbsorbPostsCredit(st: Stores, env: Env, item: WorkItem, f: Faults, id: TxID)
    requires item.event == PaymentSuccess && id in Absorb(st, env, item, f).book.txns
    ensures var now := Absorb(st, env, item, f).book;
            if id in st.book.txns then now.txns[id] == st.book.txns[id] else now.txns[id].direction == Credit
  {
    hide RouteOf;
  }
}
