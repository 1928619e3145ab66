/** Virtual accounts: the indexed store with the unique constraints of the schema, and
    the lifecycle operations of the provisioning service over it. */
module Accounts {
  import opened Domain

  type Table = seq<VirtualAccount>

  /** The constraints of the schema: NUBANs and references never repeat, and a
      customer has at most one ACTIVE account. */
  ghost predicate Constrained(t: Table) {
    && (forall i, j :: 0 <= i < j < |t| ==> t[i].nuban != t[j].nuban && t[i].ref != t[j].ref)
    && (forall i, j :: 0 <= i < j < |t| && t[i].status == Active && t[j].status == Active ==>
          t[i].customer != t[j].customer)
  }

  /** Linear scans: the meaning of the two indexes. */
  function ScanNUBAN(t: Table, nuban: string): (r: Option<nat>)
    ensures r.Some? ==> r.value < |t| && t[r.value].nuban == nuban
    ensures r.None? ==> forall va <- t :: va.nuban != nuban
  {
    if t == [] then None
    else if t[|t| - 1].nuban == nuban then Some(|t| - 1)
    else ScanNUBAN(t[..|t| - 1], nuban)
  }

  function ScanRef(t: Table, ref: string): (r: Option<nat>)
    ensures r.Some? ==> r.value < |t| && t[r.value].ref == ref
    ensures r.None? ==> forall va <- t :: va.ref != ref
  {
    if t == [] then None
    else if t[|t| - 1].ref == ref then Some(|t| - 1)
    else ScanRef(t[..|t| - 1], ref)
  }

  /** The first account of the customer with the given status. */
  function ScanStatus(t: Table, customer: string, status: VAStatus, from: nat := 0): (r: Option<nat>)
    requires from <= |t|
    ensures r.Some? ==> from <= r.value < |t| && t[r.value].customer == customer && t[r.value].status == status
    ensures r.None? ==> forall i :: from <= i < |t| ==> t[i].customer != customer || t[i].status != status
    decreases |t| - from
  {
    if from == |t| then None
    else if t[from].customer == customer && t[from].status == status then Some(from)
    else ScanStatus(t, customer, status, from + 1)
  }

  /** The account is one that a query by customer and status may return. */
  predicate Holds(t: Table, id: nat, customer: string, status: VAStatus) {
    id < |t| && t[id].customer == customer && t[id].status == status
  }

  predicate Admissible(t: Table, va: VirtualAccount) {
    && ScanNUBAN(t, va.nuban).None?
    && ScanRef(t, va.ref).None?
    && (va.status == Active ==> ScanStatus(t, va.customer, Active).None?)
  }

  /** A status update is refused when it would make a second ACTIVE account. */
  predicate Updatable(t: Table, id: nat, status: VAStatus)
    requires id < |t|
  {
    status == Active ==>
      forall j :: 0 <= j < |t| && j != id && t[j].status == Active ==> t[j].customer != t[id].customer
  }

  // ── Lifecycle operations, as functions of the table ───────────────────────

  datatype Lifecycle =
    | Provision(customer: string, ref: string, nuban: string)   // ref and nuban: the provider's answer
    | Close(customer: string)
    | Suspend(customer: string)
    | Unsuspend(customer: string, pick: nat)                    // pick: whichever the query returns

  function Apply(t: Table, op: Lifecycle): Table {
    match op
    case Provision(c, ref, nuban) =>
      var va := VirtualAccount(c, ref, nuban, Active);
      if ScanStatus(t, c, Active).Some? || !Admissible(t, va) then t else t + [va]
    case Close(c) => Move(t, ScanStatus(t, c, Active), VAStatus.Closed)
    case Suspend(c) => Move(t, ScanStatus(t, c, Active), VAStatus.Suspended)
    case Unsuspend(c, pick) => if Holds(t, pick, c, VAStatus.Suspended) then Move(t, Some(pick), Active) else t
  }

  function Move(t: Table, id: Option<nat>, status: VAStatus): Table
    requires id.Some? ==> id.value < |t|
  {
    if id.None? || !t[id.value].status.ValidTransition(status) || !Updatable(t, id.value, status) then t
    else t[id.value := t[id.value].(status := status)]
  }

  lemma MoveKeepsConstraints(t: Table, id: nat, status: VAStatus)
    requires Constrained(t) && id < |t|
    ensures Constrained(Move(t, Some(id), status))
  {}

  /** Every lifecycle operation keeps the schema's constraints. */
  lemma ApplyKeepsConstraints(t: Table, op: Lifecycle)
    requires Constrained(t)
    ensures Constrained(Apply(t, op))
  {
    match op
    case Provision(c, ref, nuban) =>
    case Close(c) =>
      if ScanStatus(t, c, Active).Some? { MoveKeepsConstraints(t, ScanStatus(t, c, Active).value, VAStatus.Closed); }
    case Suspend(c) =>
      if ScanStatus(t, c, Active).Some? { MoveKeepsConstraints(t, ScanStatus(t, c, Active).value, VAStatus.Suspended); }
    case Unsuspend(c, pick) => if pick < |t| { MoveKeepsConstraints(t, pick, Active); }
  }

  /** What closing and suspending do: they give the customer's ACTIVE account their status and
      change nothing else, and without one they do nothing. */
  lemma ActiveAccountMoves(t: Table, c: string, i: nat)
    requires Constrained(t)
    ensures Holds(t, i, c, Active) ==>
              && Apply(t, Suspend(c)) == t[i := t[i].(status := VAStatus.Suspended)]
              && Apply(t, Close(c)) == t[i := t[i].(status := VAStatus.Closed)]
    ensures (forall va <- t :: va.customer != c || va.status != Active) ==>
              Apply(t, Suspend(c)) == t && Apply(t, Close(c)) == t
  {
    var active := ScanStatus(t, c, Active);
    if Holds(t, i, c, Active) {
      assert t[i].customer == c && t[i].status == Active;
      assert active == Some(i);
    }
    if forall va <- t :: va.customer != c || va.status != Active { assert active.None?; }
  }

  /** What reactivating does: a suspended account of a customer without an ACTIVE one becomes
      ACTIVE and nothing else changes; in every other case nothing does. */
  lemma SuspendedAccountMoves(t: Table, c: string, i: nat)
    requires Constrained(t)
    ensures Apply(t, Unsuspend(c, i)) ==
              if Holds(t, i, c, VAStatus.Suspended) && forall va <- t :: va.customer != c || va.status != Active
              then t[i := t[i].(status := Active)] else t
  {
    if Holds(t, i, c, VAStatus.Suspended) {
      assert (forall va <- t :: va.customer != c || va.status != Active) <==>
             forall j :: 0 <= j < |t| ==> t[j].customer != c || t[j].status != Active;
    }
  }

  /** Suspending and then reactivating gives the table back. */
  lemma SuspensionIsUndone(t: Table, c: string, i: nat)
    requires Constrained(t) && Holds(t, i, c, Active)
    ensures Apply(Apply(t, Suspend(c)), Unsuspend(c, i)) == t
  {
    ActiveAccountMoves(t, c, i);
    ApplyKeepsConstraints(t, Suspend(c));
    SuspendedAccountMoves(Apply(t, Suspend(c)), c, i);
    var t' := Apply(t, Suspend(c));
    forall va <- t' ensures va.customer != c || va.status != Active {
      var j :| 0 <= j < |t'| && t'[j] == va;
      if j != i { assert t[j] == va; }
    }
    assert t'[i := t'[i].(status := Active)] == t;
  }

  /** What provisioning does: the provider's account is stored as the customer's ACTIVE one
      unless there is one already, or the NUBAN or the reference is taken. */
  lemma ProvisionStores(t: Table, c: string, ref: string, nuban: string)
    ensures Apply(t, Provision(c, ref, nuban)) ==
              if (exists va <- t :: (va.customer == c && va.status == Active) || va.nuban == nuban || va.ref == ref)
              then t else t + [VirtualAccount(c, ref, nuban, Active)]
  {
    var active := ScanStatus(t, c, Active);
    if active.Some? { assert t[active.value] in t; }
    if ScanNUBAN(t, nuban).Some? { assert t[ScanNUBAN(t, nuban).value] in t; }
    if ScanRef(t, ref).Some? { assert t[ScanRef(t, ref).value] in t; }
  }

  function Run(t: Table, ops: seq<Lifecycle>): Table {
    if ops == [] then t else Apply(Run(t, ops[..|ops| - 1]), ops[|ops| - 1])
  }

  /** One account's history along a run: it keeps its identity, never returns to
      PENDING, and once CLOSED it never changes again. */
  predicate Evolves(was: VirtualAccount, now: VirtualAccount) {
    && now.customer == was.customer && now.ref == was.ref && now.nuban == was.nuban
    && (was.status == VAStatus.Closed ==> now == was)
    && (now.status == VAStatus.Pending ==> was.status == VAStatus.Pending)
  }

  /** Over every serialized run of lifecycle operations the constraints hold, no account
      disappears or changes identity, and CLOSED is final. */
  lemma {:induction false} LifecycleRuns(t: Table, ops: seq<Lifecycle>)
    requires Constrained(t)
    ensures Constrained(Run(t, ops))
    ensures |Run(t, ops)| >= |t|
    ensures forall i :: 0 <= i < |t| ==> Evolves(t[i], Run(t, ops)[i])
  {
    if ops != [] {
      LifecycleRuns(t, ops[..|ops| - 1]);
      ApplyKeepsConstraints(Run(t, ops[..|ops| - 1]), ops[|ops| - 1]);
    }
  }

  lemma AppendKeepsConstraints(t: Table, va: VirtualAccount)
    requires Constrained(t) && Admissible(t, va)
    ensures Constrained(t + [va])
  {}

  lemma AppendScans(t: Table, va: VirtualAccount)
    ensures forall n: string :: ScanNUBAN(t + [va], n) == if va.nuban == n then Some(|t|) else ScanNUBAN(t, n)
    ensures forall r: string :: ScanRef(t + [va], r) == if va.ref == r then Some(|t|) else ScanRef(t, r)
  {
    assert (t + [va])[..|t|] == t;
  }

  // ── The store ─────────────────────────────────────────────────────────────

  class VirtualAccountStore {
    var accounts: Table
    var byNUBAN: map<string, nat>
    var byRef: map<string, nat>

    /** The constraints hold and each index finds exactly what a linear scan finds. */
    ghost predicate Valid()
      reads this
    {
      && Constrained(accounts)
      && (forall n: string :: ScanNUBAN(accounts, n) == if n in byNUBAN then Some(byNUBAN[n]) else None)
      && (forall r: string :: ScanRef(accounts, r) == if r in byRef then Some(byRef[r]) else None)
    }

    constructor ()
      ensures Valid() && accounts == []
    {
      accounts, byNUBAN, byRef := [], map[], map[];
    }

    /** Inserts the account unless a unique constraint refuses it. */
    method CreateVirtualAccount(va: VirtualAccount) returns (ok: bool)
      requires Valid()
      modifies this
      ensures Valid()
      ensures ok == Admissible(old(accounts), va)
      ensures accounts == if ok then old(accounts) + [va] else old(accounts)
    {
      hide ScanNUBAN, ScanRef, ScanStatus, Constrained;
      var active := GetActiveVA(va.customer);
      assert ScanNUBAN(accounts, va.nuban).None? <==> va.nuban !in byNUBAN;
      assert ScanRef(accounts, va.ref).None? <==> va.ref !in byRef;
      if va.nuban in byNUBAN || va.ref in byRef || (va.status == Active && active.Some?) { return false; }
      byNUBAN := byNUBAN[va.nuban := |accounts|];
      byRef := byRef[va.ref := |accounts|];
      AppendKeepsConstraints(accounts, va);
      AppendScans(accounts, va);
      accounts := accounts + [va];
      ok := true;
    }

    method GetVAByNUBAN(nuban: string) returns (id: Option<nat>)
      requires Valid()
      ensures id == ScanNUBAN(accounts, nuban)
    {
      id := if nuban in byNUBAN then Some(byNUBAN[nuban]) else None;
    }

    method GetVAByAccountRef(ref: string) returns (id: Option<nat>)
      requires Valid()
      ensures id == ScanRef(accounts, ref)
    {
      id := if ref in byRef then Some(byRef[ref]) else None;
    }

    /** The customer's ACTIVE account; the constraints leave no choice. */
    method GetActiveVA(customer: string) returns (id: Option<nat>)
      ensures id == ScanStatus(accounts, customer, Active)
    {
      for i := 0 to |accounts|
        invariant ScanStatus(accounts, customer, Active) == ScanStatus(accounts, customer, Active, i)
      {
        if accounts[i].customer == customer && accounts[i].status == Active { return Some(i); }
      }
      id := None;
    }

    /** Some account of the customer with the status, whichever the map or the database
        yields; nothing only if there is none. */
    method GetVAByCustomerAndStatus(customer: string, status: VAStatus) returns (id: Option<nat>)
      ensures id.Some? ==> Holds(accounts, id.value, customer, status)
      ensures id.None? ==> forall i: nat :: !Holds(accounts, i, customer, status)
    {
      if i: nat :| i < |accounts| && Holds(accounts, i, customer, status) {
        id := Some(i);
      } else {
        id := None;
      }
    }

    /** The unguarded update by id, refused only by the one-ACTIVE index. */
    method UpdateVAStatus(id: nat, status: VAStatus) returns (ok: bool)
      requires Valid() && id < |accounts|
      modifies this
      ensures Valid()
      ensures ok == Updatable(old(accounts), id, status)
      ensures accounts == if ok then old(accounts)[id := old(accounts)[id].(status := status)] else old(accounts)
    {
      ok := true;
      for j := 0 to |accounts|
        invariant Valid() && accounts == old(accounts)
        invariant ok <==> (status == Active ==> forall i :: 0 <= i < j && i != id && accounts[i].status == Active ==>
                                                  accounts[i].customer != accounts[id].customer)
      {
        if status == Active && j != id && accounts[j].status == Active && accounts[j].customer == accounts[id].customer {
          ok := false;
        }
      }
      if ok {
        ScansIgnoreStatus(accounts, id, status);
        accounts := accounts[id := accounts[id].(status := status)];
      }
    }

    // ── Provisioning service ────────────────────────────────────────────────

    /** An existing ACTIVE account is returned; otherwise the provider's account is stored and
        returned as created, or refused by a constraint, which is an error. */
    method ProvisionVA(customer: string, ref: string, nuban: string) returns (va: Option<nat>, created: bool)
      requires Valid()
      modifies this
      ensures Valid() && accounts == Apply(old(accounts), Provision(customer, ref, nuban))
      ensures created <==> |accounts| == |old(accounts)| + 1
      ensures va == if created then Some(|old(accounts)|) else ScanStatus(old(accounts), customer, Active)
      ensures va.None? <==> ScanStatus(accounts, customer, Active).None?
    {
      hide ScanNUBAN, ScanRef;
      var existing := GetActiveVA(customer);
      if existing.Some? { return existing, false; }
      va, created := None, false;
      var position := |accounts|;
      created := CreateVirtualAccount(VirtualAccount(customer, ref, nuban, Active));
      if created {
        va := Some(position);
        assert accounts[position].customer == customer && accounts[position].status == Active;
      }
    }

    method Transition(id: Option<nat>, status: VAStatus) returns (ok: bool)
      requires Valid() && (id.Some? ==> id.value < |accounts|)
      modifies this
      ensures Valid() && accounts == Move(old(accounts), id, status)
      ensures ok <==> id.None? || (old(accounts)[id.value].status.ValidTransition(status)
                                   && Updatable(old(accounts), id.value, status))
    {
      if id.None? { return true; }
      if !accounts[id.value].status.ValidTransition(status) { return false; }
      ok := UpdateVAStatus(id.value, status);
    }

    /** Closing and suspending cannot be refused. */
    method CloseVA(customer: string) returns (ok: bool)
      requires Valid()
      modifies this
      ensures Valid() && accounts == Apply(old(accounts), Close(customer)) && ok
    {
      var va := GetActiveVA(customer);
      ok := Transition(va, VAStatus.Closed);
    }

    method SuspendVA(customer: string) returns (ok: bool)
      requires Valid()
      modifies this
      ensures Valid() && accounts == Apply(old(accounts), Suspend(customer)) && ok
    {
      var va := GetActiveVA(customer);
      ok := Transition(va, VAStatus.Suspended);
    }

    /** Reactivates one of the customer's suspended accounts, whichever the query returns; an
        error exactly when another account is ACTIVE by then. */
    method UnsuspendVA(customer: string) returns (chosen: Option<nat>, ok: bool)
      requires Valid()
      modifies this
      ensures Valid()
      ensures chosen.Some? ==> Holds(old(accounts), chosen.value, customer, VAStatus.Suspended)
      ensures chosen.None? ==> forall i: nat :: !Holds(old(accounts), i, customer, VAStatus.Suspended)
      ensures accounts == if chosen.None? then old(accounts)
                          else Apply(old(accounts), Unsuspend(customer, chosen.value))
      ensures ok <==> chosen.None? || ScanStatus(old(accounts), customer, Active).None?
    {
      chosen := GetVAByCustomerAndStatus(customer, VAStatus.Suspended);
      ok := Transition(chosen, Active);
    }
  }

  lemma {:induction false} ScanIgnoresStatus(t: Table, id: nat, status: VAStatus, key: string)
    requires id < |t|
    ensures ScanNUBAN(t[id := t[id].(status := status)], key) == ScanNUBAN(t, key)
    ensures ScanRef(t[id := t[id].(status := status)], key) == ScanRef(t, key)
  {
    var t' := t[id := t[id].(status := status)];
    if id < |t| - 1 {
      ScanIgnoresStatus(t[..|t| - 1], id, status, key);
      assert t'[..|t| - 1] == t[..|t| - 1][id := t[id].(status := status)];
    } else {
      assert t'[..|t| - 1] == t[..|t| - 1];
    }
  }

  lemma ScansIgnoreStatus(t: Table, id: nat, status: VAStatus)
    requires id < |t|
    ensures forall key: string :: ScanNUBAN(t[id := t[id].(status := status)], key) == ScanNUBAN(t, key)
    ensures forall key: string :: ScanRef(t[id := t[id].(status := status)], key) == ScanRef(t, key)
  {
    forall key: string
      ensures ScanNUBAN(t[id := t[id].(status := status)], key) == ScanNUBAN(t, key)
      ensures ScanRef(t[id := t[id].(status := status)], key) == ScanRef(t, key)
    {
      ScanIgnoresStatus(t, id, status, key);
    }
  }
}
