/** What is lost when a store call fails after the money has moved: whether a transferred
    withdrawal ever gets its rows, and a credit on suspense its item. */
module Losses {
  import opened Domain
  import opened Books
  import opened Matcher
  import opened Machine
  import opened Safety
  import opened Guarantees
  import opened Traces

  /** Nobody acts for a transaction that exists or a withdrawal that is recorded. */
  predicate Unowned(s: System, id: TxID) {
    && (if id.WithdrawalTx? then id.withdrawal < |s.sh.withdrawals| else id.ProviderTx? && id in s.sh.book.txns)
    && forall r <- s.runs :: OwnedBy(r) != Some(id)
  }

  lemma StoresKeepExisting(sh: Shared, r: Run, ok: bool)
    ensures var sh' := Advance(sh, r, ok).0;
            |sh.withdrawals| <= |sh'.withdrawals| && forall id <- sh.book.txns :: id in sh'.book.txns
  {
    hide ReadStep, FailedRead;
  }

  /** Once nobody acts for it, nobody ever will again. */
  lemma EventKeepsUnowned(s: System, e: Event, id: TxID)
    requires Inv(s) && Unowned(s, id)
    ensures Unowned(Occur(s, e), id)
  {
    hide StoresOk, RunOk, ReadStep, FailedRead, Advance;
    if e.Step? && e.run < |s.runs| {
      assert s.runs[e.run] in s.runs;
      StoresKeepExisting(s.sh, s.runs[e.run], e.ok);
      InvOfRun(s, e.run);
      OwnershipAfter(s.sh, s.runs[e.run], e.ok);
    }
  }

  lemma InvOfRun(s: System, i: nat)
    requires Inv(s) && i < |s.runs|
    ensures StoresOk(s.sh) && RunOk(s.sh, s.runs[i])
  {
    hide StoresOk, RunOk;
  }

  // ── Withdrawals ───────────────────────────────────────────────────────────

  /** A withdrawal that stays recorded as processing and without a posting. */
  predicate Unpaid(s: System, w: nat) {
    && Unowned(s, WithdrawalTx(w)) && WithdrawalTx(w) !in s.sh.book.txns
    && s.sh.withdrawals[w].status == Processing
  }

  lemma StepKeepsUnpaid(sh: Shared, r: Run, ok: bool, w: nat)
    requires RunOk(sh, r) && OwnedBy(r) != Some(WithdrawalTx(w)) && w < |sh.withdrawals|
    requires WithdrawalTx(w) !in sh.book.txns && sh.withdrawals[w].status == Processing
    ensures var sh' := Advance(sh, r, ok).0;
            WithdrawalTx(w) !in sh'.book.txns && w < |sh'.withdrawals| && sh'.withdrawals[w].status == Processing
  {
    hide ReadStep, FailedRead, Sum, RowsOf;
  }

  lemma {:induction false} UnpaidForEver(s: System, w: nat, more: seq<Event>)
    requires Inv(s) && Unpaid(s, w)
    ensures Unpaid(Exec(s, more), w)
    ensures Inv(Exec(s, more))
  {
    hide Inv, Occur, Unowned, Advance;
    if more != [] {
      var was, e := Exec(s, more[..|more| - 1]), more[|more| - 1];
      UnpaidForEver(s, w, more[..|more| - 1]);
      EventKeepsInv(was, e);
      EventKeepsUnowned(was, e, WithdrawalTx(w));
      EventKeepsUnpaid(was, e, w);
    }
  }

  lemma EventKeepsUnpaid(s: System, e: Event, w: nat)
    requires Inv(s) && Unpaid(s, w)
    ensures var sh := Occur(s, e).sh;
            WithdrawalTx(w) !in sh.book.txns && w < |sh.withdrawals| && sh.withdrawals[w].status == Processing
  {
    hide StoresOk, RunOk, Advance;
    if e.Step? && e.run < |s.runs| {
      assert s.runs[e.run] in s.runs;
      InvOfRun(s, e.run);
      StepKeepsUnpaid(s.sh, s.runs[e.run], e.ok, w);
    }
  }

  /** The provider has transferred and the run is about to post. */
  predicate Transferred(s: System, i: nat, w: nat) {
    i < |s.runs| && s.runs[i].Posting? && s.runs[i].next == ThenComplete(w)
  }

  lemma FailedPostIsUnpaid(s: System, i: nat, w: nat)
    requires Inv(s) && Transferred(s, i, w)
    ensures Unpaid(Occur(s, Step(i, false)), w)
  {
    hide StoresOk;
    InvOfRun(s, i);
    assert OwnedBy(s.runs[i]) == Some(WithdrawalTx(w));
  }

  lemma PostIsPaid(s: System, i: nat, w: nat)
    requires Inv(s) && Transferred(s, i, w)
    ensures WithdrawalTx(w) in Occur(s, Step(i, true)).sh.book.txns
  {
    hide StoresOk, Sum, RowsOf;
    InvOfRun(s, i);
  }

  /** A withdrawal whose transfer the provider has made gets its pair of rows if and only if its
      posting succeeds. If that fails, then whatever happens later the wallet keeps money that
      has left, and the record says processing for ever. */
  lemma TransferredIsPostedIff(env: Env, events: seq<Event>, i: nat, w: nat, ok: bool, more: seq<Event>)
    requires Transferred(Exec(Boot(env), events), i, w)
    ensures var later := Exec(Occur(Exec(Boot(env), events), Step(i, ok)), more).sh;
            var rows := RowsOf(later.book.rows, WithdrawalTx(w));
            && w < |later.withdrawals|
            && (ok ==> IsPayout(rows, w, later.withdrawals[w]))
            && (!ok ==> rows == [] && later.withdrawals[w].status == Processing)
  {
    hide Inv, Occur, RowsOf, IsPayout;
    var s, e := Exec(Boot(env), events), Step(i, ok);
    ReachableInv(env, events);
    EventKeepsInv(s, e);
    FoldSnoc(Occur, Boot(env), events, e);
    FoldAppend(Occur, Boot(env), events + [e], more);
    if ok {
      PostIsPaid(s, i, w);
      PaidStays(env, events + [e], more, w);
    } else {
      FailedPostIsUnpaid(s, i, w);
      UnpaidForEver(Occur(s, e), w, more);
      WithdrawalsMatchTheirRows(env, events + [e] + more, w);
      UnpaidHasNoRows(Exec(Occur(s, e), more), w);
    }
  }

  lemma UnpaidHasNoRows(s: System, w: nat)
    requires Inv(s) && WithdrawalTx(w) !in s.sh.book.txns
    ensures RowsOf(s.sh.book.rows, WithdrawalTx(w)) == []
  {
    hide RowsOf;
    NoRowsOfUnknown(s.sh.book.rows, WithdrawalTx(w));
  }

  lemma PaidStays(env: Env, events: seq<Event>, more: seq<Event>, w: nat)
    requires WithdrawalTx(w) in Exec(Boot(env), events).sh.book.txns
    ensures var later := Exec(Boot(env), events + more).sh;
            w < |later.withdrawals| && IsPayout(RowsOf(later.book.rows, WithdrawalTx(w)), w, later.withdrawals[w])
  {
    hide Occur, RowsOf;
    FoldAppend(Occur, Boot(env), events, more);
    RunsExtend(Exec(Boot(env), events), more);
    ReachableInv(env, events + more);
    var later := Exec(Boot(env), events + more).sh;
    assert Balanced(later.book.txns[WithdrawalTx(w)], RowsOf(later.book.rows, WithdrawalTx(w)));
    WithdrawalsMatchTheirRows(env, events + more, w);
  }

  // ── Suspense items ────────────────────────────────────────────────────────

  predicate HasItem(sh: Shared, id: TxID) { exists it <- sh.items :: it.tx == id }

  lemma StepKeepsItemless(sh: Shared, r: Run, ok: bool, id: TxID)
    requires OwnedBy(r) != Some(id) && !HasItem(sh, id)
    ensures !HasItem(Advance(sh, r, ok).0, id)
  {
    hide ReadStep, FailedRead, Sum, RowsOf;
  }

  lemma EventKeepsItemless(s: System, e: Event, id: TxID)
    requires Unowned(s, id) && !HasItem(s.sh, id)
    ensures !HasItem(Occur(s, e).sh, id)
  {
    hide Advance;
    if e.Step? && e.run < |s.runs| {
      assert s.runs[e.run] in s.runs;
      StepKeepsItemless(s.sh, s.runs[e.run], e.ok, id);
    }
  }

  lemma {:induction false} ItemlessForEver(s: System, id: TxID, more: seq<Event>)
    requires Inv(s) && Unowned(s, id) && !HasItem(s.sh, id)
    ensures Inv(Exec(s, more)) && Unowned(Exec(s, more), id) && !HasItem(Exec(s, more).sh, id)
  {
    hide Inv, Occur, Unowned, HasItem;
    if more != [] {
      var was, e := Exec(s, more[..|more| - 1]), more[|more| - 1];
      ItemlessForEver(s, id, more[..|more| - 1]);
      EventKeepsInv(was, e);
      EventKeepsUnowned(was, e, id);
      EventKeepsItemless(was, e, id);
    }
  }

  lemma InsertStep(s: System, i: nat, ok: bool)
    requires Inv(s) && i < |s.runs| && s.runs[i].CreatingItem?
    ensures var s' := Occur(s, Step(i, ok));
            && (HasItem(s'.sh, s.runs[i].id) <==> ok)
            && Unowned(s', s.runs[i].id)
            && |s'.sh.items| == |s.sh.items| + (if ok then 1 else 0)
            && (ok ==> s'.sh.items[|s.sh.items|].tx == s.runs[i].id)
  {
    hide StoresOk, Sum, RowsOf;
    InvOfRun(s, i);
    var s' := Occur(s, Step(i, ok));
    if ok { assert s'.sh.items[|s.sh.items|] in s'.sh.items; }
    assert OwnedBy(s.runs[i]) == Some(s.runs[i].id);
  }

  /** A credit on suspense gets its item if and only if the insert of the run that posted it
      succeeds: if that is lost there is none for ever, since repeats are skipped. */
  lemma SuspensedHasItemIff(env: Env, events: seq<Event>, i: nat, ok: bool, more: seq<Event>)
    requires i < |Exec(Boot(env), events).runs| && Exec(Boot(env), events).runs[i].CreatingItem?
    ensures var s := Exec(Boot(env), events);
            HasItem(Exec(Occur(s, Step(i, ok)), more).sh, s.runs[i].id) <==> ok
  {
    hide Inv, Occur, Unowned;
    var s := Exec(Boot(env), events);
    ReachableInv(env, events);
    InsertStep(s, i, ok);
    EventKeepsInv(s, Step(i, ok));
    var s' := Occur(s, Step(i, ok));
    if ok {
      RunsExtend(s', more);
      assert Exec(s', more).sh.items[|s.sh.items|] in Exec(s', more).sh.items;
    } else {
      ItemlessForEver(s', s.runs[i].id, more);
    }
  }
}
