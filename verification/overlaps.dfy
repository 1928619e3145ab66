/** Two credits at once: the caps are checked before the postings, so runs that overlap both
    pass, and together go over. */
module Overlaps {
  import opened Domain
  import opened Ledger
  import opened Books
  import opened Accounts
  import opened Matcher
  import opened Worker
  import opened Machine
  import opened Safety
  import opened Races
  import opened Traces

  /** The credit goes to the customer's wallet, as the ledger stands now. */
  predicate Passes(sh: Shared, item: WorkItem, customer: string, limit: TierLimit) {
    && item.event == PaymentSuccess && item.payment.amount > 0
    && ProviderTx(item.payment.id) !in sh.book.txns
    && LimitFor(sh.env, customer) == Some(limit)
    && RouteOf(sh.env, sh.book, item.payment).WalletRoute?
    && RouteOf(sh.env, sh.book, item.payment).customer == customer
  }

  /** The posting that such a run has decided on. */
  function Decided(sh: Shared, item: WorkItem): Run
    requires item.payment.amount > 0
  {
    PostingOf(item, Decision(RouteOf(sh.env, sh.book, item.payment), item.payment).value)
  }

  lemma DecidedIs(sh: Shared, item: WorkItem, customer: string, limit: TierLimit)
    requires Passes(sh, item, customer, limit)
    ensures var r := Decided(sh, item);
            && r.Posting? && IsPosting(r.tx, r.entries) && r.next.ThenFind? && OwnedBy(r) == None && RunOk(sh, r)
            && r.tx.id == ProviderTx(item.payment.id) && r.tx.amount == item.payment.amount
            && r.tx.occurredAt == item.payment.occurredAt
            && r.entries[0].account == Settlement && r.entries[1].account == Wallet(customer)
  {
    hide Sum, RowsOf, ScanRef, ScanNUBAN;
    var route := RouteOf(sh.env, sh.book, item.payment);
    DecisionPosts(route, item, TxOf(item, Some(route.va)));
  }

  /** The four reads: match, identity, balance and daily credits. */
  lemma FourReads(sh: Shared, item: WorkItem, customer: string, limit: TierLimit)
    returns (r1: Run, r2: Run, r3: Run)
    requires Passes(sh, item, customer, limit)
    ensures !Writes(r1) && !Writes(r2) && !Writes(r3)
    ensures r1 == ReadStep(sh, Matching(item)) && r2 == ReadStep(sh, r1) && r3 == ReadStep(sh, r2)
    ensures ReadStep(sh, r3) == Decided(sh, item)
  {
    hide Sum, RowsOf, ScanRef, ScanNUBAN, Effect;
    r1 := ReadStep(sh, Matching(item));
    r2 := ReadStep(sh, r1);
    r3 := ReadStep(sh, r2);
  }

  lemma ReadEvent(s: System, i: nat)
    requires i < |s.runs| && !Writes(s.runs[i])
    ensures Occur(s, Step(i, true)) == s.(runs := s.runs[i := ReadStep(s.sh, s.runs[i])])
  {
    hide ReadStep;
  }

  /** One run reads all it needs, and changes nothing. */
  lemma Reads(s: System, i: nat, item: WorkItem, customer: string, limit: TierLimit) returns (events: seq<Event>)
    requires i < |s.runs| && s.runs[i] == Matching(item) && Passes(s.sh, item, customer, limit)
    ensures Exec(s, events) == s.(runs := s.runs[i := Decided(s.sh, item)])
  {
    hide Occur, ReadStep, Passes, Decided, Fold;
    var e := Step(i, true);
    var r1, r2, r3 := FourReads(s.sh, item, customer, limit);
    ReadEvent(s, i);
    ReadEvent(s.(runs := s.runs[i := r1]), i);
    ReadEvent(s.(runs := s.runs[i := r2]), i);
    ReadEvent(s.(runs := s.runs[i := r3]), i);
    assert s.runs[i := r1][i := r2] == s.runs[i := r2];
    assert s.runs[i := r2][i := r3] == s.runs[i := r3];
    assert s.runs[i := r3][i := ReadStep(s.sh, r3)] == s.runs[i := ReadStep(s.sh, r3)];
    FoldOne(Occur, s, e);
    FoldSnoc(Occur, s, [e], e);
    FoldSnoc(Occur, s, [e] + [e], e);
    FoldSnoc(Occur, s, [e] + [e] + [e], e);
    events := [e] + [e] + [e] + [e];
  }

  /** What one credit's rows add to a sum. */
  function Share(m: Measure, customer: string, item: WorkItem): int {
    var id := ProviderTx(item.payment.id);
    Weight(m, Row(Entry(id, Settlement, Debit, item.payment.amount), item.payment.occurredAt))
    + Weight(m, Row(Entry(id, Wallet(customer), Credit, item.payment.amount), item.payment.occurredAt))
  }

  lemma PostShare(s: System, i: nat, sh0: Shared, item: WorkItem, customer: string, limit: TierLimit, m: Measure)
    requires Passes(sh0, item, customer, limit) && i < |s.runs| && s.runs[i] == Decided(sh0, item)
    requires ProviderTx(item.payment.id) !in s.sh.book.txns
    ensures var s' := Occur(s, Step(i, true));
            && SameRunsBut(s, s', i)
            && s'.sh.book.txns.Keys == s.sh.book.txns.Keys + {ProviderTx(item.payment.id)}
            && Sum(s'.sh.book.rows, m) == Sum(s.sh.book.rows, m) + Share(m, customer, item)
  {
    hide Sum, Passes, Decided, RunOk;
    DecidedIs(sh0, item, customer, limit);
    var r := s.runs[i];
    PostAdds(s.sh.book, r.tx, r.entries, m);
  }

  lemma PassesIsPositive(sh: Shared, item: WorkItem, customer: string, limit: TierLimit)
    requires Passes(sh, item, customer, limit)
    ensures item.payment.amount > 0
  {}

  /** The schedule: both read, then both post. It depends on the credits alone. */
  lemma OverlappingCredits(sh: Shared, i1: WorkItem, i2: WorkItem, customer: string, limit: TierLimit)
    returns (events: seq<Event>)
    requires Passes(sh, i1, customer, limit) && Passes(sh, i2, customer, limit) && i1.payment.id != i2.payment.id
    ensures forall m: Measure :: AddsBoth(sh, i1, i2, customer, events, m)
  {
    hide Occur, Passes, Decided, Fold, Sum, AddsBoth;
    var s := System(sh, [Matching(i1), Matching(i2)]);
    var reads1 := Reads(s, 0, i1, customer, limit);
    var s1 := Exec(s, reads1);
    var reads2 := Reads(s1, 1, i2, customer, limit);
    var s2 := Exec(s1, reads2);
    PassesIsPositive(sh, i1, customer, limit);
    PassesIsPositive(sh, i2, customer, limit);
    assert s2 == System(sh, [Decided(sh, i1), Decided(sh, i2)]);
    FoldAppend(Occur, s, reads1, reads2);
    FoldSnoc(Occur, s, reads1 + reads2, Step(0, true));
    FoldSnoc(Occur, s, reads1 + reads2 + [Step(0, true)], Step(1, true));
    events := reads1 + reads2 + [Step(0, true)] + [Step(1, true)];
    forall m: Measure ensures AddsBoth(sh, i1, i2, customer, events, m) {
      BothPost(sh, i1, i2, customer, limit, m);
      assert Exec(s, events) == Occur(Occur(s2, Step(0, true)), Step(1, true));
      SumsAdded(sh, i1, i2, customer, events, m);
    }
  }

  predicate AddsBoth(sh: Shared, i1: WorkItem, i2: WorkItem, customer: string, events: seq<Event>, m: Measure) {
    Sum(Exec(System(sh, [Matching(i1), Matching(i2)]), events).sh.book.rows, m)
    == Sum(sh.book.rows, m) + Share(m, customer, i1) + Share(m, customer, i2)
  }

  lemma SumsAdded(sh: Shared, i1: WorkItem, i2: WorkItem, customer: string, events: seq<Event>, m: Measure)
    requires i1.payment.amount > 0 && i2.payment.amount > 0
    requires Exec(System(sh, [Matching(i1), Matching(i2)]), events)
          == Occur(Occur(System(sh, [Decided(sh, i1), Decided(sh, i2)]), Step(0, true)), Step(1, true))
    requires Sum(Occur(Occur(System(sh, [Decided(sh, i1), Decided(sh, i2)]), Step(0, true)), Step(1, true)).sh.book.rows, m)
          == Sum(sh.book.rows, m) + Share(m, customer, i1) + Share(m, customer, i2)
    ensures AddsBoth(sh, i1, i2, customer, events, m)
  {
    hide Occur, Decided, Fold, Sum, Share;
  }

  lemma BothPost(sh: Shared, i1: WorkItem, i2: WorkItem, customer: string, limit: TierLimit, m: Measure)
    requires Passes(sh, i1, customer, limit) && Passes(sh, i2, customer, limit) && i1.payment.id != i2.payment.id
    ensures i1.payment.amount > 0 && i2.payment.amount > 0
    ensures var s2 := System(sh, [Decided(sh, i1), Decided(sh, i2)]);
            Sum(Occur(Occur(s2, Step(0, true)), Step(1, true)).sh.book.rows, m)
            == Sum(sh.book.rows, m) + Share(m, customer, i1) + Share(m, customer, i2)
  {
    hide Occur, Decided, Sum, Share;
    var s2 := System(sh, [Decided(sh, i1), Decided(sh, i2)]);
    PostShare(s2, 0, sh, i1, customer, limit, m);
    PostShare(Occur(s2, Step(0, true)), 1, sh, i2, customer, limit, m);
  }

  /** Two credits of one customer that both pass the caps when they read, and read before either
      posts, leave the wallet at its balance plus both amounts, and each day at its credits plus
      those of the two that occurred on it: over a cap exactly when together they exceed it, even
      where the customer store looks across tenants and both credits are on their own day. */
  lemma OverlappingCreditsBreakCaps(
    sh: Shared, i1: WorkItem, i2: WorkItem, customer: string, limit: TierLimit, day: int)
    returns (events: seq<Event>)
    requires Passes(sh, i1, customer, limit) && Passes(sh, i2, customer, limit) && i1.payment.id != i2.payment.id
    ensures var was, now := sh.book, Exec(System(sh, [Matching(i1), Matching(i2)]), events).sh.book;
            var amount1, amount2 := i1.payment.amount, i2.payment.amount;
            var wallet := Wallet(customer);
            var onDay := (if DayOf(i1.payment.occurredAt) == day then amount1 else 0)
                       + (if DayOf(i2.payment.occurredAt) == day then amount2 else 0);
            && BalanceOf(now, wallet) == BalanceOf(was, wallet) + amount1 + amount2
            && Sum(now.rows, CreditsOn(wallet, day)) == Sum(was.rows, CreditsOn(wallet, day)) + onDay
            && (BalanceOf(now, wallet) > limit.maxBalance <==> BalanceOf(was, wallet) + amount1 + amount2 > limit.maxBalance)
            && (Sum(now.rows, CreditsOn(wallet, day)) > limit.dailyCredit <==>
                  Sum(was.rows, CreditsOn(wallet, day)) + onDay > limit.dailyCredit)
  {
    hide Exec, Sum, Passes;
    events := OverlappingCredits(sh, i1, i2, customer, limit);
    var wallet := Wallet(customer);
    assert AddsBoth(sh, i1, i2, customer, events, Balance(wallet));
    assert AddsBoth(sh, i1, i2, customer, events, CreditsOn(wallet, day));
  }
}
