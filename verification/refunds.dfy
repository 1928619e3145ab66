/** What a refund flag is worth: exactly when the funds of a flagged item stay in suspense. */
module Refunds {
  import opened Domain
  import opened Books
  import opened Ledger
  import opened Accounts
  import opened Matcher
  import opened Worker
  import opened Machine
  import opened Safety
  import opened Guarantees
  import opened Races
  import opened Traces
  import SuspenseService

  /** The run is a reassignment of the item that has found it open, and has yet to post. */
  predicate Reassigns(r: Run, k: nat) {
    (r.ReadingOriginal? && r.sid == k) || (r.Posting? && r.next == ThenMark(k))
  }

  predicate FlaggedItem(sh: Shared, k: nat) { k < |sh.items| && sh.items[k].status == RefundFlagged }

  /** The item is flagged, its money has not moved, and nobody is about to move it. */
  predicate Kept(s: System, k: nat) {
    && FlaggedItem(s.sh, k)
    && ResolutionTx(k) !in s.sh.book.txns
    && forall r <- s.runs :: !Reassigns(r, k)
  }

  lemma ReadStaysAway(sh: Shared, r: Run, k: nat)
    requires FlaggedItem(sh, k) && !Reassigns(r, k) && !Writes(r)
    ensures !Reassigns(ReadStep(sh, r), k) && !Reassigns(FailedRead(r), k)
  {
    hide Sum, RowsOf, Effect, ScanStatus, ScanRef, ScanNUBAN;
  }

  lemma WriteStaysAway(sh: Shared, r: Run, ok: bool, k: nat)
    requires RunOk(sh, r) && FlaggedItem(sh, k) && !Reassigns(r, k) && Writes(r)
    requires ResolutionTx(k) !in sh.book.txns
    ensures var (sh', r') := Advance(sh, r, ok);
            FlaggedItem(sh', k) && ResolutionTx(k) !in sh'.book.txns && !Reassigns(r', k)
  {
    hide Sum, RowsOf, Effect, ScanStatus, Suspensed, Credited;
  }

  lemma EventKeepsKept(s: System, e: Event, k: nat)
    requires Inv(s) && Kept(s, k)
    ensures Kept(Occur(s, e), k)
  {
    hide StoresOk, RunOk, Reassigns, ReadStep, FailedRead;
    match e
    case Step(i, ok) =>
      if i < |s.runs| {
        assert s.runs[i] in s.runs;
        if Writes(s.runs[i]) { WriteStaysAway(s.sh, s.runs[i], ok, k); } else { ReadStaysAway(s.sh, s.runs[i], k); }
      }
    case Spawn(r) => FreshRunStaysAway(r, k);
    case SetEnv(_) =>
    case Collect(_, _, _) =>
  }

  lemma FreshRunStaysAway(r: Run, k: nat)
    ensures Initial(r) ==> !Reassigns(r, k)
  {}

  lemma {:induction false} RunsKeepKept(s: System, more: seq<Event>, k: nat)
    requires Inv(s) && Kept(s, k)
    ensures Inv(Exec(s, more)) && Kept(Exec(s, more), k)
  {
    hide Inv, Kept, Occur;
    if more != [] {
      RunsKeepKept(s, more[..|more| - 1], k);
      EventKeepsInv(Exec(s, more[..|more| - 1]), more[|more| - 1]);
      EventKeepsKept(Exec(s, more[..|more| - 1]), more[|more| - 1], k);
    }
  }

  /** The last step of such a reassignment moves the money, flag or no flag. */
  lemma PostingMoves(s: System, i: nat, k: nat)
    requires Inv(s) && i < |s.runs| && s.runs[i].Posting? && s.runs[i].next == ThenMark(k)
    ensures ResolutionTx(k) in Occur(s, Step(i, true)).sh.book.txns
  {
    hide StoresOk, IsPosting;
    assert RunOk(s.sh, s.runs[i]);
  }

  lemma OriginalIsFound(s: System, i: nat, k: nat)
    requires Inv(s) && i < |s.runs| && s.runs[i].ReadingOriginal? && s.runs[i].sid == k && k < |s.sh.items|
    ensures var s' := Occur(s, Step(i, true));
            Inv(s') && i < |s'.runs| && s'.runs[i].Posting? && s'.runs[i].next == ThenMark(k)
  {
    hide Inv, Sum, RowsOf, Effect, ScanStatus;
    EventKeepsInv(s, Step(i, true));
    ItemsHoldPostedAmounts(s, k);
  }

  lemma ItemsHoldPostedAmounts(s: System, k: nat)
    requires Inv(s) && k < |s.sh.items|
    ensures s.sh.items[k].tx in s.sh.book.txns && s.sh.book.txns[s.sh.items[k].tx].amount > 0
  {
    hide Sum, RowsOf, RunOk;
    assert Suspensed(s.sh.book, s.sh.items[k].tx);
    assert Balanced(s.sh.book.txns[s.sh.items[k].tx], RowsOf(s.sh.book.rows, s.sh.items[k].tx));
  }

  lemma ReassignmentMoves(s: System, i: nat, k: nat) returns (more: seq<Event>)
    requires Inv(s) && i < |s.runs| && Reassigns(s.runs[i], k) && k < |s.sh.items|
    ensures ResolutionTx(k) in Exec(s, more).sh.book.txns
  {
    hide Inv, Occur;
    var e := Step(i, true);
    FoldOne(Occur, s, e);
    if s.runs[i].Posting? {
      PostingMoves(s, i, k);
      more := [e];
    } else {
      OriginalIsFound(s, i, k);
      PostingMoves(Occur(s, e), i, k);
      FoldSnoc(Occur, s, [e], e);
      more := [e] + [e];
    }
  }

  /** A refund flag says that the funds stay in suspense. In every reachable state they stay
      there for ever, whatever happens next, if and only if the item's money has not been
      moved already and no reassignment is past its first read of the item. */
  lemma RefundKeepsFundsIff(env: Env, events: seq<Event>, k: nat)
    requires FlaggedItem(Exec(Boot(env), events).sh, k)
    ensures var s := Exec(Boot(env), events);
            (forall more: seq<Event> :: ResolutionTx(k) !in Exec(s, more).sh.book.txns)
            <==> ResolutionTx(k) !in s.sh.book.txns && forall r <- s.runs :: !Reassigns(r, k)
  {
    hide Inv, Occur, Reassigns;
    var s := Exec(Boot(env), events);
    ReachableInv(env, events);
    if ResolutionTx(k) in s.sh.book.txns {
      assert Exec(s, []) == s;
    } else if forall r <- s.runs :: !Reassigns(r, k) {
      forall more: seq<Event> ensures ResolutionTx(k) !in Exec(s, more).sh.book.txns { RunsKeepKept(s, more, k); }
    } else {
      var i :| 0 <= i < |s.runs| && Reassigns(s.runs[i], k);
      var more := ReassignmentMoves(s, i, k);
      assert ResolutionTx(k) in Exec(s, more).sh.book.txns;
    }
  }

  // ── A failing input without a race ────────────────────────────────────────

  /** The reassignment has posted, and crashes before it marks the item. */
  function Crashed(sh: Shared, k: nat, target: string): Shared
    requires k < |sh.items| && sh.items[k].tx in sh.book.txns
  {
    sh.(book := PostMove(sh.book, Reassigning(sh, k, target), Suspense, Wallet(target)))
  }

  /** After such a crash the item is still open, so a later refund flag is accepted, and
      marks an item whose money has left. */
  lemma CrashedReassignmentCanBeFlagged(sh: Shared, k: nat, target: string, tenant: string)
    requires CanReassign(sh, k, target, tenant)
    ensures var reading := ReadStep(sh, ReadingItem(k, SuspenseService.Reassign(target, tenant)));
            var crashed := Crashed(sh, k, target);
            var flagged := SuspenseService.ResolveEffect(StoresOf(crashed), sh.env, k, SuspenseService.FlagRefund);
            && Advance(sh, ReadStep(sh, reading), true).0 == crashed
            && SuspenseService.Accepts(StoresOf(crashed), sh.env, k, SuspenseService.FlagRefund)
            && flagged.items[k].status == RefundFlagged
            && ResolutionTx(k) in flagged.book.txns
  {
    hide Sum, RowsOf, Effect, ScanStatus;
    BothResolversRead(sh, k, target, tenant);
  }
}
