/** Races that the step system admits: each bounds a guarantee that holds for serialized
    calls only, for every state in which the race can start. */
module Races {
  import opened Domain
  import opened Ledger
  import opened Books
  import opened Accounts
  import opened Worker
  import opened Machine
  import opened Safety
  import opened Traces
  import SuspenseService
  import WithdrawalService

  predicate SameRunsBut(s: System, s': System, i: nat) {
    |s'.runs| == |s.runs| && forall j :: 0 <= j < |s.runs| && j != i ==> s'.runs[j] == s.runs[j]
  }

  lemma Records(s: System, i: nat, req: WithdrawalService.Request)
    requires Inv(s) && i < |s.runs| && s.runs[i] == Recording(req)
    ensures var s' := Occur(s, Step(i, true));
            && Inv(s') && SameRunsBut(s, s', i) && s'.sh.book == s.sh.book
            && s'.runs[i] == Transferring(|s.sh.withdrawals|, req)
  {
    hide Inv, StoresOk, RunOk, Sum;
    EventKeepsInv(s, Step(i, true));
  }

  lemma Transfers(s: System, i: nat, w: nat, req: WithdrawalService.Request)
    requires Inv(s) && i < |s.runs| && s.runs[i] == Transferring(w, req) && req.amount > 0
    ensures var s' := Occur(s, Step(i, true));
            && Inv(s') && SameRunsBut(s, s', i) && s'.sh.book == s.sh.book
            && s'.runs[i].Posting? && IsPosting(s'.runs[i].tx, s'.runs[i].entries)
            && s'.runs[i].tx.id !in s'.sh.book.txns && s'.runs[i].tx.amount == req.amount
            && s'.runs[i].entries[0].account == Wallet(req.customer) && s'.runs[i].entries[1].account == Settlement
  {
    hide StoresOk, Sum, RowsOf, Effect, ScanStatus;
    EventKeepsInv(s, Step(i, true));
    assert RunOk(s.sh, s.runs[i]);
    assert RunOk(Occur(s, Step(i, true)).sh, Occur(s, Step(i, true)).runs[i]);
  }

  lemma Posts(s: System, i: nat, a: Account)
    requires Inv(s) && i < |s.runs| && s.runs[i].Posting?
    requires IsPosting(s.runs[i].tx, s.runs[i].entries) && s.runs[i].tx.id !in s.sh.book.txns
    requires s.runs[i].entries[0].account == a && s.runs[i].entries[1].account == Settlement && a != Settlement
    ensures var s' := Occur(s, Step(i, true));
            && Inv(s') && SameRunsBut(s, s', i)
            && BalanceOf(s'.sh.book, a) == BalanceOf(s.sh.book, a) - s.runs[i].tx.amount
  {
    hide Inv, Sum, StoresOk, RunOk;
    EventKeepsInv(s, Step(i, true));
    PostAdds(s.sh.book, s.runs[i].tx, s.runs[i].entries, Balance(a));
  }

  /** A run past its funds check pays out, whatever the balance has become. */
  lemma PaysOut(s: System, i: nat, req: WithdrawalService.Request) returns (events: seq<Event>)
    requires Inv(s) && i < |s.runs| && s.runs[i] == Recording(req) && req.amount > 0
    ensures var s' := Exec(s, events);
            && Inv(s') && SameRunsBut(s, s', i)
            && BalanceOf(s'.sh.book, Wallet(req.customer)) == BalanceOf(s.sh.book, Wallet(req.customer)) - req.amount
  {
    hide Occur, Inv, Fold, Sum;
    var e := Step(i, true);
    Records(s, i, req);
    var s1 := Occur(s, e);
    Transfers(s1, i, |s.sh.withdrawals|, req);
    var s2 := Occur(s1, e);
    Posts(s2, i, Wallet(req.customer));
    FoldOne(Occur, s, e);
    FoldSnoc(Occur, s, [e], e);
    FoldSnoc(Occur, s, [e] + [e], e);
    events := [e] + [e] + [e];
  }

  lemma FundsAreRead(s: System, i: nat, r: WithdrawalService.Request)
    requires i < |s.runs| && s.runs[i] == CheckingFunds(r) && WithdrawalService.Accepts(s.sh.book, s.sh.env, r)
    ensures Occur(s, Step(i, true)) == s.(runs := s.runs[i := Recording(r)])
  {
    hide WithdrawalService.Accepts, Sum;
  }

  lemma BothRead(sh: Shared, r1: WithdrawalService.Request, r2: WithdrawalService.Request)
    requires WithdrawalService.Accepts(sh.book, sh.env, r1) && WithdrawalService.Accepts(sh.book, sh.env, r2)
    ensures Exec(System(sh, [CheckingFunds(r1), CheckingFunds(r2)]), [Step(0, true)] + [Step(1, true)])
         == System(sh, [Recording(r1), Recording(r2)])
  {
    hide WithdrawalService.Accepts, Occur;
    var s := System(sh, [CheckingFunds(r1), CheckingFunds(r2)]);
    FundsAreRead(s, 0, r1);
    assert s.runs[0 := Recording(r1)] == [Recording(r1), CheckingFunds(r2)];
    FundsAreRead(System(sh, [Recording(r1), CheckingFunds(r2)]), 1, r2);
    FoldOne(Occur, s, Step(0, true));
    FoldSnoc(Occur, s, [Step(0, true)], Step(1, true));
  }

  lemma BothPay(s: System, r1: WithdrawalService.Request, r2: WithdrawalService.Request) returns (events: seq<Event>)
    requires Inv(s) && s.runs == [Recording(r1), Recording(r2)]
    requires r1.customer == r2.customer && r1.amount > 0 && r2.amount > 0
    ensures BalanceOf(Exec(s, events).sh.book, Wallet(r1.customer))
         == BalanceOf(s.sh.book, Wallet(r1.customer)) - r1.amount - r2.amount
  {
    var first := PaysOut(s, 0, r1);
    var second := PaysOut(Exec(s, first), 1, r2);
    FoldAppend(Occur, s, first, second);
    events := first + second;
  }

  /** Two withdrawals that both read the balance before either posts leave the wallet at
      its balance less both amounts: overdrawn exactly when together they exceed it. */
  lemma RacingWithdrawalsOverdraw(sh: Shared, r1: WithdrawalService.Request, r2: WithdrawalService.Request)
    returns (events: seq<Event>)
    requires StoresOk(sh) && r1.customer == r2.customer
    requires WithdrawalService.Accepts(sh.book, sh.env, r1) && WithdrawalService.Accepts(sh.book, sh.env, r2)
    ensures var was, now := BalanceOf(sh.book, Wallet(r1.customer)),
              BalanceOf(Exec(System(sh, [CheckingFunds(r1), CheckingFunds(r2)]), events).sh.book, Wallet(r1.customer));
            now == was - r1.amount - r2.amount && (now < 0 <==> r1.amount + r2.amount > was)
  {
    hide StoresOk, Sum, RowsOf, Occur, Fold;
    BothRead(sh, r1, r2);
    var rest := BothPay(System(sh, [Recording(r1), Recording(r2)]), r1, r2);
    FoldAppend(Occur, System(sh, [CheckingFunds(r1), CheckingFunds(r2)]), [Step(0, true)] + [Step(1, true)], rest);
    events := [Step(0, true)] + [Step(1, true)] + rest;
  }

  /** Both resolvers read the open item; the flag is set; then the reassignment reads
      the original, posts, and finds nothing left to mark. */
  function RefundRace(sh: Shared, k: nat, target: string, tenant: string): Shared {
    var reassigning := ReadStep(sh, ReadingItem(k, SuspenseService.Reassign(target, tenant)));
    var flagging := ReadStep(sh, ReadingItem(k, SuspenseService.FlagRefund));
    var flagged := Advance(sh, flagging, true).0;
    var posted := Advance(flagged, ReadStep(flagged, reassigning), true);
    Advance(posted.0, posted.1, true).0
  }

  predicate CanReassign(sh: Shared, k: nat, target: string, tenant: string) {
    SuspenseService.Accepts(Stores(sh.book, sh.items, sh.collections), sh.env, k,
                            SuspenseService.Reassign(target, tenant))
  }

  function Reassigning(sh: Shared, k: nat, target: string): Transaction
    requires k < |sh.items| && sh.items[k].tx in sh.book.txns
  {
    SuspenseService.ResolutionOf(
      k, ScanStatus(sh.env.accounts, target, Active), sh.book.txns[sh.items[k].tx].amount, sh.env.now)
  }

  /** The money has moved to the target, and the item says it was kept for a refund. */
  function FlaggedButMoved(sh: Shared, k: nat, target: string): Shared
    requires k < |sh.items| && sh.items[k].tx in sh.book.txns
  {
    sh.(book := PostMove(sh.book, Reassigning(sh, k, target), Suspense, Wallet(target)),
        items := sh.items[k := sh.items[k].(status := RefundFlagged)])
  }

  function Flagged(sh: Shared, k: nat): Shared
    requires k < |sh.items|
  {
    sh.(items := sh.items[k := sh.items[k].(status := RefundFlagged)])
  }

  lemma BothResolversRead(sh: Shared, k: nat, target: string, tenant: string)
    requires CanReassign(sh, k, target, tenant)
    ensures ReadStep(sh, ReadingItem(k, SuspenseService.Reassign(target, tenant))) == ReadingOriginal(k, target)
    ensures ReadStep(sh, ReadingItem(k, SuspenseService.FlagRefund)) == MarkingItem(k, RefundFlagged)
  {}

  lemma FlagIsSet(sh: Shared, k: nat)
    requires k < |sh.items| && sh.items[k].status == Open
    ensures Advance(sh, MarkingItem(k, RefundFlagged), true).0 == Flagged(sh, k)
  {}

  /** A reassignment past its first read posts, although the item is no longer open, and
      marks nothing. */
  lemma LateReassignment(sh: Shared, k: nat, target: string)
    requires k < |sh.items| && sh.items[k].status != Open
    requires sh.items[k].tx in sh.book.txns && sh.book.txns[sh.items[k].tx].amount > 0
    ensures var posted := Advance(sh, ReadStep(sh, ReadingOriginal(k, target)), true);
            Advance(posted.0, posted.1, true).0 ==
            sh.(book := PostMove(sh.book, Reassigning(sh, k, target), Suspense, Wallet(target)))
  {
    hide Sum, RowsOf, Effect, ScanStatus;
    var posted := Advance(sh, ReadStep(sh, ReadingOriginal(k, target)), true);
    assert posted.1 == MarkingItem(k, Reassigned);
  }

  /** A refund flag promises that the funds stay in suspense. Raced with a reassignment
      that has read the item, it ends up on an item whose money has left. */
  lemma RefundFlagCanLoseToReassignment(sh: Shared, k: nat, target: string, tenant: string)
    requires CanReassign(sh, k, target, tenant)
    ensures RefundRace(sh, k, target, tenant) == FlaggedButMoved(sh, k, target)
  {
    hide ReadStep, Advance, Sum, RowsOf, Effect, ScanStatus;
    BothResolversRead(sh, k, target, tenant);
    FlagIsSet(sh, k);
    LateReassignment(Flagged(sh, k), k, target);
  }

  lemma FlaggedMoneyHasMoved(sh: Shared, k: nat, target: string, tenant: string)
    requires CanReassign(sh, k, target, tenant) && ResolutionTx(k) !in sh.book.txns
    ensures var was, now := sh.book, FlaggedButMoved(sh, k, target).book;
            && BalanceOf(now, Suspense) == BalanceOf(was, Suspense) - sh.book.txns[sh.items[k].tx].amount
            && BalanceOf(now, Wallet(target)) == BalanceOf(was, Wallet(target)) + sh.book.txns[sh.items[k].tx].amount
  {
    var tx := Reassigning(sh, k, target);
    var entries := Transfer(tx.id, Suspense, Wallet(target), tx.amount).value;
    TransferIsPosting(tx, Suspense, Wallet(target));
    PostAdds(sh.book, tx, entries, Balance(Suspense));
    PostAdds(sh.book, tx, entries, Balance(Wallet(target)));
  }
}
