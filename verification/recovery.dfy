/** What sweeping is for: a transfer whose webhook was lost still reaches the ledger. */
module Recovery {
  import opened Domain
  import opened Worker
  import opened Serialized
  import opened Sweeping
  import opened Coverage

  /** Everything delivered during each run of the log, in order: the run's own listing
      and whatever else was processed meanwhile. */
  function DeliverAll(st: Stores, batches: seq<seq<Delivery>>): Stores {
    if batches == [] then st else Deliver(DeliverAll(st, batches[..|batches| - 1]), batches[|batches| - 1])
  }

  /** The transfer is processed without an error during some run. */
  ghost predicate LandsSometime(batches: seq<seq<Delivery>>, id: string) {
    exists k :: 0 <= k < |batches| && Lands(batches[k], id)
  }

  lemma {:induction false} PostedIff(st: Stores, batches: seq<seq<Delivery>>, id: string)
    ensures ProviderTx(id) in DeliverAll(st, batches).book.txns
       <==> ProviderTx(id) in st.book.txns || LandsSometime(batches, id)
  {
    if batches != [] {
      var n := |batches| - 1;
      PostedIff(st, batches[..n], id);
      LandedIsPosted(DeliverAll(st, batches[..n]), batches[n], id);
      LandsStep(batches, id);
    }
  }

  lemma LandsStep(batches: seq<seq<Delivery>>, id: string)
    requires batches != []
    ensures var n := |batches| - 1;
            LandsSometime(batches, id) <==> LandsSometime(batches[..n], id) || Lands(batches[n], id)
  {
    hide Lands;
    var n := |batches| - 1;
    if k :| 0 <= k < n && Lands(batches[..n][k], id) { assert Lands(batches[k], id); }
    if k :| 0 <= k < |batches| && Lands(batches[k], id) { if k < n { assert Lands(batches[..n][k], id); } }
  }

  /** No processing of the transfer returns an error. */
  predicate NeverErrs(ds: seq<Delivery>, id: string) {
    forall d <- ds :: d.item.payment.id == id ==> !d.faults.error
  }

  /** Take serialized default-window sweeps whose successful runs, but the last, are short
      enough for the overlap, and let every run that cannot miss a transfer list it with a
      positive amount. Then every transfer of the covered span is listed; it is in the ledger
      at the end if and only if it was there before or some processing of it met no error;
      and so it is there if none did, whether or not its webhook arrived and however many
      runs failed in between. */
  lemma CoveredTransfersArePostedIff(
    log: seq<Sweep>, f: nat, l: nat, interval: real, overlap: real, d: real, t: real, v: real,
    st: Stores, batches: seq<seq<Delivery>>, id: string)
    requires InSequence(log) && DefaultWindows(log, interval, overlap)
    requires f <= l < |log| == |batches| && log[f].ok && log[l].ok
    requires ShortRuns(log, f, l, overlap, d) && InSpan(log, f, l, d, t, v)
    requires forall k :: 0 <= k < |log| && Sees(log[k], t, v) ==> Lists(batches[k], id)
    ensures exists k :: 0 <= k < |batches| && Lists(batches[k], id)
    ensures ProviderTx(id) in DeliverAll(st, batches).book.txns
       <==> ProviderTx(id) in st.book.txns || LandsSometime(batches, id)
    ensures (forall ds <- batches :: NeverErrs(ds, id)) ==> ProviderTx(id) in DeliverAll(st, batches).book.txns
  {
    hide Lists, Lands, DefaultWindows;
    ShortRunsOverlap(log, f, l, interval, overlap, d);
    OverlappingWindowsCover(log, f, l, d, t, v);
    var k :| 0 <= k < |log| && Sees(log[k], t, v);
    PostedIff(st, batches, id);
    if forall ds <- batches :: NeverErrs(ds, id) { ListedLands(batches[k], id); }
  }

  lemma ListedLands(ds: seq<Delivery>, id: string)
    requires Lists(ds, id) && NeverErrs(ds, id)
    ensures Lands(ds, id)
  {
    var i :| 0 <= i < |ds| && Postable(ds[i].item) && ds[i].item.payment.id == id;
    assert ds[i] in ds;
  }

  /** The losing run. A sweep logs success although items failed, and the windows move on: let
      every processing of a transfer up to the successful run k meet an error, and let the
      transfer have occurred more than the overlap before that run was logged. Then no later
      default window reaches back to it, and if nothing but the windows brings it, it never
      gets into the ledger. */
  lemma LoggedFailureIsLeftBehind(
    log: seq<Sweep>, k: nat, interval: real, overlap: real, t: real,
    st: Stores, batches: seq<seq<Delivery>>, id: string)
    requires InSequence(log) && DefaultWindows(log, interval, overlap) && k < |log| == |batches| && log[k].ok
    requires t < log[k].ranAt - overlap
    requires forall j :: 0 <= j < |batches| && Lists(batches[j], id) ==> log[j].from <= t < log[j].start
    requires forall j :: 0 <= j <= k ==> !Lands(batches[j], id)
    requires ProviderTx(id) !in st.book.txns
    ensures ProviderTx(id) !in DeliverAll(st, batches).book.txns
  {
    hide Lists, Lands, DefaultWindows;
    forall j | k < j < |log| ensures !Lands(batches[j], id) {
      LaterWindowsStartLater(log, k, j, interval, overlap);
      if Lands(batches[j], id) { LandedIsListed(batches[j], id); }
    }
    PostedIff(st, batches, id);
  }

  lemma LandedIsListed(ds: seq<Delivery>, id: string)
    requires Lands(ds, id)
    ensures Lists(ds, id)
  {
    var i :| 0 <= i < |ds| && Effective(ds[i]) && ds[i].item.payment.id == id;
  }
}
