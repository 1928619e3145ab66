/** Lifecycle calls under concurrency: any number of them, each split between the read
    that chooses an account and the update by id that follows, in any interleaving. */
module Lifecycles {
  import opened Domain
  import opened Accounts
  import opened Traces

  datatype Mover =
    | Reading(op: Lifecycle)
    | Updating(id: nat, status: VAStatus)     // the status was checked before, not now
    | Storing(va: VirtualAccount)
    | Finished

  datatype System = System(table: Table, movers: seq<Mover>)

  datatype Event =
    | Call(op: Lifecycle)
    | Step(mover: nat, ok: bool)              // not ok: the store call fails

  function AfterRead(t: Table, id: Option<nat>, status: VAStatus): Mover
    requires id.Some? ==> id.value < |t|
  {
    if id.None? || !t[id.value].status.ValidTransition(status) then Finished else Updating(id.value, status)
  }

  function Read(t: Table, op: Lifecycle): Mover {
    match op
    case Provision(c, ref, nuban) =>
      if ScanStatus(t, c, Active).Some? then Finished else Storing(VirtualAccount(c, ref, nuban, Active))
    case Close(c) => AfterRead(t, ScanStatus(t, c, Active), VAStatus.Closed)
    case Suspend(c) => AfterRead(t, ScanStatus(t, c, Active), VAStatus.Suspended)
    case Unsuspend(c, pick) =>
      AfterRead(t, if Holds(t, pick, c, VAStatus.Suspended) then Some(pick) else None, Active)
  }

  /** The update by id: refused by the one-ACTIVE index alone. */
  function Update(t: Table, id: nat, status: VAStatus): Table {
    if id < |t| && Updatable(t, id, status) then t[id := t[id].(status := status)] else t
  }

  function Advance(t: Table, m: Mover, ok: bool): (Table, Mover) {
    if !ok then (t, Finished)
    else
      match m
      case Reading(op) => (t, Read(t, op))
      case Updating(id, status) => (Update(t, id, status), Finished)
      case Storing(va) => (if Admissible(t, va) then t + [va] else t, Finished)
      case Finished => (t, Finished)
  }

  function Occur(s: System, e: Event): System {
    match e
    case Call(op) => s.(movers := s.movers + [Reading(op)])
    case Step(m, ok) =>
      if m >= |s.movers| then s
      else
        var (t, next) := Advance(s.table, s.movers[m], ok);
        System(t, s.movers[m := next])
  }

  function Exec(s: System, events: seq<Event>): System { Fold(Occur, s, events) }

  /** A call left alone does what the serialized operation does. */
  lemma CallAloneApplies(t: Table, op: Lifecycle)
    ensures var read := Advance(t, Reading(op), true);
            read.0 == t && Advance(t, read.1, true).0 == Apply(t, op)
  {
    hide ScanNUBAN, ScanRef;
  }

  // ── Every interleaving keeps the schema's constraints ─────────────────────

  lemma UpdateKeepsConstraints(t: Table, id: nat, status: VAStatus)
    requires Constrained(t)
    ensures Constrained(Update(t, id, status))
  {}

  lemma EventKeepsConstraints(s: System, e: Event)
    requires Constrained(s.table)
    ensures Constrained(Occur(s, e).table)
    ensures |s.table| <= |Occur(s, e).table|
    ensures forall i :: 0 <= i < |s.table| ==> Occur(s, e).table[i] == s.table[i].(status := Occur(s, e).table[i].status)
  {
    if e.Step? && e.mover < |s.movers| && e.ok {
      match s.movers[e.mover]
      case Updating(id, status) => UpdateKeepsConstraints(s.table, id, status);
      case Storing(va) => if Admissible(s.table, va) { AppendKeepsConstraints(s.table, va); }
      case _ =>
    }
  }

  lemma {:induction false} RunsKeepConstraints(s: System, events: seq<Event>)
    requires Constrained(s.table)
    ensures Constrained(Exec(s, events).table)
    ensures |s.table| <= |Exec(s, events).table|
  {
    if events != [] {
      RunsKeepConstraints(s, events[..|events| - 1]);
      EventKeepsConstraints(Exec(s, events[..|events| - 1]), events[|events| - 1]);
    }
  }

  // ── When CLOSED is final ──────────────────────────────────────────────────

  /** The call has read account i and has yet to give it a status other than CLOSED. */
  predicate Reopens(m: Mover, i: nat) { m.Updating? && m.id == i && m.status != VAStatus.Closed }

  predicate ClosedAt(t: Table, i: nat) { i < |t| && t[i].status == VAStatus.Closed }

  predicate Sealed(s: System, i: nat) { ClosedAt(s.table, i) && forall m <- s.movers :: !Reopens(m, i) }

  /** A read never chooses a closed account. */
  lemma EventKeepsSealed(s: System, e: Event, i: nat)
    requires Sealed(s, i)
    ensures Sealed(Occur(s, e), i)
  {
    if e.Step? && e.mover < |s.movers| {
      var m := s.movers[e.mover];
      assert m in s.movers;
      assert !Reopens(Advance(s.table, m, e.ok).1, i);
    }
  }

  lemma {:induction false} RunsKeepSealed(s: System, events: seq<Event>, i: nat)
    requires Sealed(s, i)
    ensures Sealed(Exec(s, events), i)
  {
    if events != [] {
      RunsKeepSealed(s, events[..|events| - 1], i);
      EventKeepsSealed(Exec(s, events[..|events| - 1]), events[|events| - 1], i);
    }
  }

  /** The pending update lands, unless the index holds it back. */
  lemma UpdateLands(s: System, j: nat, i: nat)
    requires j < |s.movers| && Reopens(s.movers[j], i) && ClosedAt(s.table, i)
    requires Updatable(s.table, i, s.movers[j].status)
    ensures Occur(s, Step(j, true)).table[i].status == s.movers[j].status
  {}

  /** Suspending the customer's other account makes way. */
  lemma MakeWay(s: System, i: nat, c: string) returns (events: seq<Event>)
    requires Constrained(s.table) && ClosedAt(s.table, i) && s.table[i].customer == c
    ensures var s' := Exec(s, events);
            && ClosedAt(s'.table, i) && Updatable(s'.table, i, Active)
            && |s.movers| <= |s'.movers| && s'.movers[..|s.movers|] == s.movers
  {
    var active := ScanStatus(s.table, c, Active);
    events := [];
    if active.Some? {
      var n := |s.movers|;
      var s1 := Occur(s, Call(Suspend(c)));
      var s2 := Occur(s1, Step(n, true));
      assert s2.movers[n] == Updating(active.value, VAStatus.Suspended);
      var s3 := Occur(s2, Step(n, true));
      assert s3.table == s.table[active.value := s.table[active.value].(status := VAStatus.Suspended)];
      FoldOne(Occur, s, Call(Suspend(c)));
      FoldSnoc(Occur, s, [Call(Suspend(c))], Step(n, true));
      FoldSnoc(Occur, s, [Call(Suspend(c))] + [Step(n, true)], Step(n, true));
      events := [Call(Suspend(c))] + [Step(n, true)] + [Step(n, true)];
    }
  }

  /** A closed account that some call has read before can come back, with the very status
      that the call carries. */
  lemma ReopeningLands(s: System, j: nat, i: nat) returns (events: seq<Event>)
    requires Constrained(s.table) && ClosedAt(s.table, i) && j < |s.movers| && Reopens(s.movers[j], i)
    ensures i < |Exec(s, events).table| && Exec(s, events).table[i].status == s.movers[j].status
  {
    var way := [];
    if s.movers[j].status == Active { way := MakeWay(s, i, s.table[i].customer); }
    var s' := Exec(s, way);
    assert s'.movers[..|s.movers|][j] == s.movers[j];
    UpdateLands(s', j, i);
    FoldSnoc(Occur, s, way, Step(j, true));
    events := way + [Step(j, true)];
  }

  /** CLOSED is documented as terminal. In every reachable state a closed account stays
      closed for ever, whatever is called next and however it interleaves, if and only if
      no call is between its read of the account and an update to another status. */
  lemma ClosedIsFinalIff(t: Table, events: seq<Event>, i: nat)
    requires Constrained(t)
    requires ClosedAt(Exec(System(t, []), events).table, i)
    ensures var s := Exec(System(t, []), events);
            (forall more: seq<Event> :: ClosedAt(Exec(s, more).table, i))
            <==> (forall m <- s.movers :: !Reopens(m, i))
  {
    var s := Exec(System(t, []), events);
    RunsKeepConstraints(System(t, []), events);
    if forall m <- s.movers :: !Reopens(m, i) {
      forall more: seq<Event> ensures ClosedAt(Exec(s, more).table, i) { RunsKeepSealed(s, more, i); }
    } else {
      var j :| 0 <= j < |s.movers| && Reopens(s.movers[j], i);
      var more := ReopeningLands(s, j, i);
      assert !ClosedAt(Exec(s, more).table, i);
    }
  }

  // ── A run that reopens ────────────────────────────────────────────────────

  function Three(va: VirtualAccount, status: VAStatus, m0: Mover, m1: Mover, m2: Mover): System {
    System([va.(status := status)], [m0, m1, m2])
  }

  lemma Calls(va: VirtualAccount) returns (events: seq<Event>)
    ensures Exec(System([va], []), events)
         == Three(va, va.status, Reading(Unsuspend(va.customer, 0)), Reading(Unsuspend(va.customer, 0)),
                  Reading(Close(va.customer)))
  {
    var s := System([va], []);
    var u, c := Call(Unsuspend(va.customer, 0)), Call(Close(va.customer));
    FoldOne(Occur, s, u);
    FoldSnoc(Occur, s, [u], u);
    FoldSnoc(Occur, s, [u] + [u], c);
    events := [u] + [u] + [c];
  }

  /** Two calls reactivate the same suspended account; one is done before a closure, and the
      other, which had read the account before, lands after it. */
  lemma ClosedAccountComesBackActive(va: VirtualAccount) returns (closed: seq<Event>, reopened: seq<Event>)
    requires va.status == VAStatus.Suspended
    ensures ClosedAt(Exec(System([va], []), closed).table, 0)
    ensures closed <= reopened && Exec(System([va], []), reopened).table == [va.(status := Active)]
  {
    var s := System([va], []);
    var u, c := Reading(Unsuspend(va.customer, 0)), Reading(Close(va.customer));
    var calls := Calls(va);
    Steps(va, u, c);
    var e0, e1, e2 := Step(0, true), Step(1, true), Step(2, true);
    FoldSnoc(Occur, s, calls, e0);
    FoldSnoc(Occur, s, calls + [e0], e1);
    FoldSnoc(Occur, s, calls + [e0] + [e1], e1);
    FoldSnoc(Occur, s, calls + [e0] + [e1] + [e1], e2);
    FoldSnoc(Occur, s, calls + [e0] + [e1] + [e1] + [e2], e2);
    closed := calls + [e0] + [e1] + [e1] + [e2] + [e2];
    FoldSnoc(Occur, s, closed, e0);
    reopened := closed + [e0];
  }

  lemma Steps(va: VirtualAccount, u: Mover, c: Mover)
    requires va.status == VAStatus.Suspended
    requires u == Reading(Unsuspend(va.customer, 0)) && c == Reading(Close(va.customer))
    ensures var w := Updating(0, Active);
            && Occur(Three(va, VAStatus.Suspended, u, u, c), Step(0, true)) == Three(va, VAStatus.Suspended, w, u, c)
            && Occur(Three(va, VAStatus.Suspended, w, u, c), Step(1, true)) == Three(va, VAStatus.Suspended, w, w, c)
            && Occur(Three(va, VAStatus.Suspended, w, w, c), Step(1, true)) == Three(va, Active, w, Finished, c)
            && Occur(Three(va, Active, w, Finished, c), Step(2, true))
               == Three(va, Active, w, Finished, Updating(0, VAStatus.Closed))
            && Occur(Three(va, Active, w, Finished, Updating(0, VAStatus.Closed)), Step(2, true))
               == Three(va, VAStatus.Closed, w, Finished, Finished)
            && Occur(Three(va, VAStatus.Closed, w, Finished, Finished), Step(0, true))
               == Three(va, Active, Finished, Finished, Finished)
  {
    assert ScanStatus([va.(status := Active)], va.customer, Active) == Some(0);
  }
}
