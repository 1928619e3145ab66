/** The Idempotency-Key protocol over one Redis key: GET, SETNX with a lease, execute,
    SET with a record lifetime. Any number of requests, any interleaving, with time. */
module Idempotency {
  import opened Domain
  import opened Traces

  // ── Key space ─────────────────────────────────────────────────────────────

  function RedisKey(tenant: string, key: string): string { "idem:" + tenant + ":" + key }

  lemma KeySplits(tenant: string, key: string)
    ensures RedisKey(tenant, key)[5..] == tenant + ":" + key
  {}

  /** Two tenants can reach one Redis key exactly when they are the same or one identifier
      continues the other across a colon; UUIDs contain none, so there only when equal. */
  lemma TenantsShareAKeyIff(a: string, b: string)
    ensures (exists k, l :: RedisKey(a, k) == RedisKey(b, l)) <==> a == b || a + ":" <= b || b + ":" <= a
  {
    if k, l :| RedisKey(a, k) == RedisKey(b, l) {
      if |a| <= |b| { SharedKeyPrefix(a, k, b, l); } else { SharedKeyPrefix(b, l, a, k); }
    }
    if a == b { assert RedisKey(a, "") == RedisKey(b, ""); }
    if a + ":" <= b { ContinuedTenantShares(a, b); }
    if b + ":" <= a { ContinuedTenantShares(b, a); }
  }

  lemma SharedKeyPrefix(a: string, k: string, b: string, l: string)
    requires RedisKey(a, k) == RedisKey(b, l) && |a| <= |b|
    ensures a == b || a + ":" <= b
  {
    KeySplits(a, k);
    KeySplits(b, l);
    var s := a + ":" + k;
    assert s == b + ":" + l;
    if |a| == |b| {
      assert s[..|a|] == a && s[..|b|] == b;
    } else {
      assert s[..|a| + 1] == a + ":" && s[..|b|] == b;
      assert b[..|a| + 1] == s[..|a| + 1];
    }
  }

  lemma ContinuedTenantShares(a: string, b: string)
    requires a + ":" <= b
    ensures exists k, l :: RedisKey(a, k) == RedisKey(b, l)
    ensures exists k, l :: RedisKey(b, k) == RedisKey(a, l)
  {
    var rest := b[|a| + 1..];
    assert b == a + ":" + rest;
    assert RedisKey(a, rest + ":") == RedisKey(b, "");
  }

  /** Within one tenant, different idempotency keys are different Redis keys. */
  lemma KeysAreDistinct(tenant: string, k: string, l: string)
    requires RedisKey(tenant, k) == RedisKey(tenant, l)
    ensures k == l
  {
    var p := "idem:" + tenant + ":";
    assert (p + k)[|p|..] == k && (p + l)[|p|..] == l;
  }

  // ── One key ───────────────────────────────────────────────────────────────

  const SECOND: int := 1_000_000_000
  const LEASE: int := 30 * SECOND
  const RECORD: int := 24 * 3600 * SECOND

  datatype Value = InFlight | Response(status: int)

  datatype Slot = Slot(value: Value, expires: int)

  /** What GET returns: nothing once the entry has expired. */
  function Live(slot: Option<Slot>, now: int): Option<Value> {
    if slot.Some? && now < slot.value.expires then Some(slot.value.value) else None
  }

  datatype Reply = Conflict | Replayed(status: int) | Executed(status: int)

  datatype Request =
    | Arrived                       // before the GET
    | Missed                        // the GET found nothing, or failed
    | Executing(since: int)         // holds the lease; the handler runs
    | Storing(since: int, status: int)
    | Answered(reply: Reply, at: int)

  /** A finished execution: when its response was stored and what it was. */
  datatype Execution = Execution(since: int, stored: int, status: int)

  datatype Cell = Cell(now: int, slot: Option<Slot>)

  /** One Redis call or the handler's return. `ok` false is a Redis error; `status` is
      what the handler answers when this step is its return. */
  function Advance(c: Cell, r: Request, ok: bool, status: int): (Cell, Request) {
    match r
    case Arrived =>
      (c, if !ok then Missed
          else match Live(c.slot, c.now)
               case None => Missed
               case Some(InFlight) => Answered(Conflict, c.now)
               case Some(Response(s)) => Answered(Replayed(s), c.now))
    case Missed =>
      if !ok || Live(c.slot, c.now).Some? then (c, Answered(Conflict, c.now))
      else (c.(slot := Some(Slot(InFlight, c.now + LEASE))), Executing(c.now))
    case Executing(since) => (c, Storing(since, status))
    case Storing(_, s) =>
      (if ok then c.(slot := Some(Slot(Response(s), c.now + RECORD))) else c, Answered(Executed(s), c.now))
    case Answered(_, _) => (c, r)
  }

  datatype System = System(cell: Cell, requests: seq<Request>, history: seq<Execution>)

  datatype Event =
    | Arrive
    | Step(request: nat, ok: bool, status: int)
    | Tick(elapsed: nat)

  function Occur(s: System, e: Event): System {
    match e
    case Arrive => s.(requests := s.requests + [Arrived])
    case Tick(elapsed) => s.(cell := s.cell.(now := s.cell.now + elapsed))
    case Step(i, ok, status) =>
      if i >= |s.requests| then s
      else
        var (c, r) := Advance(s.cell, s.requests[i], ok, status);
        System(c, s.requests[i := r],
               if s.requests[i].Storing? && ok
               then s.history + [Execution(s.requests[i].since, s.cell.now, s.requests[i].status)] else s.history)
  }

  predicate Busy(r: Request) { r.Executing? || r.Storing? }

  /** Each handler finishes and stores its response before its lease expires: time does
      not pass a running request's lease, and its store call succeeds. */
  predicate Timely(s: System, e: Event) {
    match e
    case Arrive => true
    case Tick(elapsed) => forall r <- s.requests :: Busy(r) ==> s.cell.now + elapsed < r.since + LEASE
    case Step(i, ok, _) => i < |s.requests| && s.requests[i].Storing? ==> ok
  }

  function Exec(s: System, events: seq<Event>): System { Fold(Occur, s, events) }

  predicate TimelyRun(s: System, events: seq<Event>) {
    events == [] || (TimelyRun(s, events[..|events| - 1]) && Timely(Exec(s, events[..|events| - 1]), events[|events| - 1]))
  }

  function Boot(now: int): System { System(Cell(now, None), [], []) }

  // ── Invariant ─────────────────────────────────────────────────────────────

  /** At most one request is busy, and while one is, its lease is the live entry. */
  predicate LeaseHeld(s: System) {
    && (forall i, j :: 0 <= i < j < |s.requests| && Busy(s.requests[i]) ==> !Busy(s.requests[j]))
    && (forall r <- s.requests :: Busy(r) ==>
          s.cell.slot == Some(Slot(InFlight, r.since + LEASE)) && r.since <= s.cell.now < r.since + LEASE)
    && (forall r <- s.requests :: Busy(r) && s.history != [] ==> r.since >= s.history[|s.history| - 1].stored + RECORD)
    && (s.cell.slot.Some? && s.cell.slot.value.value.InFlight? ==> exists r <- s.requests :: Busy(r))
  }

  /** Without a lease, the entry is the record of the latest execution. */
  predicate RecordKept(s: System) {
    && (s.cell.slot.Some? && s.cell.slot.value.value.Response? ==>
          s.history != []
          && (var last := s.history[|s.history| - 1];
              s.cell.slot == Some(Slot(Response(last.status), last.stored + RECORD))))
    && (s.history != [] ==>
          s.cell.slot.Some? && s.history[|s.history| - 1].stored <= s.cell.now)
  }

  /** Executions are a record's lifetime apart. */
  predicate Apart(h: seq<Execution>) {
    && (forall i :: 0 <= i < |h| ==> h[i].since <= h[i].stored < h[i].since + LEASE)
    && (forall i, j :: 0 <= i < j < |h| ==> h[j].since >= h[i].stored + RECORD)
  }

  /** A request that got a response got that of an execution: its own, or the one whose
      record was live at the time. */
  predicate Truthful(h: seq<Execution>, r: Request) {
    r.Answered? ==>
      match r.reply
      case Conflict => true
      case Replayed(s) => exists e <- h :: e.status == s && e.stored <= r.at < e.stored + RECORD
      case Executed(s) => exists e <- h :: e.status == s && e.stored == r.at
  }

  ghost predicate Inv(s: System) {
    LeaseHeld(s) && RecordKept(s) && Apart(s.history) && forall r <- s.requests :: Truthful(s.history, r)
  }

  lemma TruthfulGrows(h: seq<Execution>, e: Execution, r: Request)
    requires Truthful(h, r)
    ensures Truthful(h + [e], r)
  {
    if r.Answered? && r.reply.Replayed? {
      var x :| x in h && x.status == r.reply.status && x.stored <= r.at < x.stored + RECORD;
      assert x in h + [e];
    }
    if r.Answered? && r.reply.Executed? {
      var x :| x in h && x.status == r.reply.status && x.stored == r.at;
      assert x in h + [e];
    }
  }

  lemma ReadKeepsInv(s: System, i: nat, ok: bool, status: int)
    requires Inv(s) && i < |s.requests| && (s.requests[i].Arrived? || s.requests[i].Answered?)
    ensures Inv(Occur(s, Step(i, ok, status)))
  {
    var s' := Occur(s, Step(i, ok, status));
    assert s'.cell == s.cell && s'.history == s.history;
    assert !Busy(s'.requests[i]) && forall j :: 0 <= j < |s.requests| && j != i ==> s'.requests[j] == s.requests[j];
    assert forall r <- s.requests :: Busy(r) ==> r in s'.requests;
    if s'.requests[i].Answered? && s'.requests[i].reply.Replayed? && s.requests[i].Arrived? {
      assert s.history[|s.history| - 1] in s.history;
    }
  }

  lemma AcquireKeepsInv(s: System, i: nat, ok: bool, status: int)
    requires Inv(s) && i < |s.requests| && s.requests[i].Missed?
    ensures Inv(Occur(s, Step(i, ok, status)))
  {
    var s' := Occur(s, Step(i, ok, status));
    assert s'.history == s.history && forall j :: 0 <= j < |s.requests| && j != i ==> s'.requests[j] == s.requests[j];
    if s'.requests[i].Executing? {
      assert forall j :: 0 <= j < |s.requests| ==> !Busy(s.requests[j]);
      assert s'.requests[i] in s'.requests;
    } else {
      assert forall r <- s.requests :: Busy(r) ==> r in s'.requests;
    }
  }

  lemma FinishKeepsInv(s: System, i: nat, ok: bool, status: int)
    requires Inv(s) && i < |s.requests| && s.requests[i].Executing?
    ensures Inv(Occur(s, Step(i, ok, status)))
  {
    var s' := Occur(s, Step(i, ok, status));
    assert s'.requests[i] in s'.requests;
    assert s'.history == s.history && forall j :: 0 <= j < |s.requests| && j != i ==> s'.requests[j] == s.requests[j];
  }

  lemma StoreKeepsInv(s: System, i: nat, status: int)
    requires Inv(s) && i < |s.requests| && s.requests[i].Storing?
    ensures Inv(Occur(s, Step(i, true, status)))
  {
    var s' := Occur(s, Step(i, true, status));
    var e := Execution(s.requests[i].since, s.cell.now, s.requests[i].status);
    assert s'.history == s.history + [e] && e in s'.history;
    assert forall j :: 0 <= j < |s.requests| && j != i ==> s'.requests[j] == s.requests[j] && !Busy(s.requests[j]);
    forall j | 0 <= j < |s'.requests| ensures Truthful(s'.history, s'.requests[j]) {
      if j != i { TruthfulGrows(s.history, e, s.requests[j]); }
    }
    forall k | 0 <= k < |s.history| ensures e.since >= s.history[k].stored + RECORD {
      var last := |s.history| - 1;
      if k < last { assert s.history[last].since >= s.history[k].stored + RECORD; }
    }
  }

  /** Every timely event keeps the invariant. */
  lemma EventKeepsInv(s: System, e: Event)
    requires Inv(s) && Timely(s, e)
    ensures Inv(Occur(s, e))
  {
    match e
    case Arrive =>
      assert forall r <- s.requests :: r in Occur(s, e).requests;
    case Tick(elapsed) =>
    case Step(i, ok, status) =>
      if i < |s.requests| {
        match s.requests[i]
        case Missed => AcquireKeepsInv(s, i, ok, status);
        case Executing(_) => FinishKeepsInv(s, i, ok, status);
        case Storing(_, _) => StoreKeepsInv(s, i, status);
        case _ => ReadKeepsInv(s, i, ok, status);
      }
  }

  lemma {:induction false} TimelyRunsKeepInv(now: int, events: seq<Event>)
    requires TimelyRun(Boot(now), events)
    ensures Inv(Exec(Boot(now), events))
  {
    if events != [] {
      TimelyRunsKeepInv(now, events[..|events| - 1]);
      EventKeepsInv(Exec(Boot(now), events[..|events| - 1]), events[|events| - 1]);
    }
  }

  /** For any number of requests in any interleaving, if every handler stores its response
      within its lease: no two requests are ever executing together, no execution starts
      during the lifetime of another's record, and every answer is a conflict, the
      request's own response, or the response whose record was live at that moment. */
  lemma AtMostOnce(now: int, events: seq<Event>)
    requires TimelyRun(Boot(now), events)
    ensures var s := Exec(Boot(now), events);
            && (forall i, j :: 0 <= i < j < |s.requests| ==> !(Busy(s.requests[i]) && Busy(s.requests[j])))
            && (forall i, j :: 0 <= i < j < |s.history| ==> s.history[j].since >= s.history[i].stored + RECORD)
            && (forall r <- s.requests, e <- s.history :: Busy(r) ==> r.since >= e.stored + RECORD)
            && (forall r <- s.requests :: r.Answered? && r.reply.Replayed? ==>
                  exists e <- s.history :: e.status == r.reply.status && e.stored <= r.at < e.stored + RECORD)
  {
    TimelyRunsKeepInv(now, events);
    var s := Exec(Boot(now), events);
    forall r <- s.requests, e <- s.history | Busy(r) ensures r.since >= e.stored + RECORD {
      var k :| 0 <= k < |s.history| && s.history[k] == e;
      var last := |s.history| - 1;
      if k < last { assert s.history[last].since >= s.history[k].stored + RECORD; }
    }
  }

  /** What a request's GET leads to, in every timely run: while a recorded response is live it is
      replayed with its status; while another request executes the answer is a conflict; and
      with no live entry, or when the GET itself fails, the request goes on to acquire. */
  lemma ArrivalIsAnswered(now: int, events: seq<Event>, i: nat)
    requires TimelyRun(Boot(now), events)
    requires var s := Exec(Boot(now), events); i < |s.requests| && s.requests[i] == Arrived
    ensures var s := Exec(Boot(now), events);
            var answered := Occur(s, Step(i, true, 0)).requests[i];
            if exists r <- s.requests :: Busy(r) then answered == Answered(Conflict, s.cell.now)
            else if s.history != [] && s.cell.now < s.history[|s.history| - 1].stored + RECORD
            then answered == Answered(Replayed(s.history[|s.history| - 1].status), s.cell.now)
            else answered == Missed
    ensures Occur(Exec(Boot(now), events), Step(i, false, 0)).requests[i] == Missed
  {
    TimelyRunsKeepInv(now, events);
    var s := Exec(Boot(now), events);
    hide Exec, Apart, Truthful;
  }

  /** What executing leads to: the handler's own status is answered, and once it is stored it is
      what later requests are answered with, as long as the record lives. */
  lemma ExecutionIsAnswered(c: Cell, since: int, status: int, later: nat)
    ensures var (c1, returned) := Advance(c, Executing(since), true, status);
            var (c2, answered) := Advance(c1, returned, true, 0);
            && Advance(c1, returned, false, 0) == (c, answered) && answered == Answered(Executed(status), c.now)
            && c2.now == c.now
            && Advance(c2.(now := c.now + later), Arrived, true, 0).1
               == (if later < RECORD then Answered(Replayed(status), c.now + later) else Missed)
  {}

  /** What acquiring leads to: the request executes exactly when its SETNX succeeds, for which
      there must be no live entry, and is in conflict otherwise. */
  lemma AcquisitionIsAnswered(c: Cell, ok: bool)
    ensures var (c', r) := Advance(c, Missed, ok, 0);
            if ok && (c.slot == None || c.slot.value.expires <= c.now)
            then c' == c.(slot := Some(Slot(InFlight, c.now + LEASE))) && r == Executing(c.now)
            else c' == c && r == Answered(Conflict, c.now)
  {}

  // ── Beyond the lease ──────────────────────────────────────────────────────

  /** A newcomer's two store calls, made at once. */
  function Newcomer(s: System, elapsed: nat): System {
    var n := |s.requests|;
    Occur(Occur(Occur(Occur(s, Tick(elapsed)), Arrive), Step(n, true, 0)), Step(n, true, 0))
  }

  /** The lease is what excludes a second execution. Take any timely run in which a request is
      busy, and let time pass, timely or not: a newcomer gets to execute beside it if and only
      if its lease has run out by then. */
  lemma SecondExecutionIff(now: int, events: seq<Event>, i: nat, elapsed: nat)
    requires TimelyRun(Boot(now), events)
    requires var s := Exec(Boot(now), events); i < |s.requests| && Busy(s.requests[i])
    ensures var s := Exec(Boot(now), events);
            var s' := Newcomer(s, elapsed);
            && s' == Exec(s, [Tick(elapsed)] + [Arrive] + [Step(|s.requests|, true, 0)] + [Step(|s.requests|, true, 0)])
            && s'.requests[i] == s.requests[i] && Busy(s'.requests[i])
            && (s'.requests[|s.requests|].Executing? <==> s.cell.now + elapsed >= s.requests[i].since + LEASE)
  {
    TimelyRunsKeepInv(now, events);
    var s := Exec(Boot(now), events);
    assert s.requests[i] in s.requests;
    FourSteps(s, Tick(elapsed), Arrive, Step(|s.requests|, true, 0));
  }

  lemma FourSteps(s: System, a: Event, b: Event, c: Event)
    ensures Exec(s, [a] + [b] + [c] + [c]) == Occur(Occur(Occur(Occur(s, a), b), c), c)
  {
    hide Occur;
    FoldOne(Occur, s, a);
    FoldSnoc(Occur, s, [a], b);
    FoldSnoc(Occur, s, [a] + [b], c);
    FoldSnoc(Occur, s, [a] + [b] + [c], c);
  }

  /** The middleware run without interleaving on its own key. */
  class Middleware {
    var slot: Option<Slot>

    constructor ()
      ensures slot == None
    {
      slot := None;
    }

    /** Serve one request that arrives at `now` and whose handler, if it runs, answers
        `status` at `finish`. Keyless requests bypass the protocol. */
    method Serve(hasKey: bool, now: int, finish: int, status: int) returns (reply: Reply)
      requires now <= finish
      modifies this
      ensures !hasKey ==> reply == Executed(status) && slot == old(slot)
      ensures hasKey && Live(old(slot), now).Some? ==>
                slot == old(slot)
                && reply == (match Live(old(slot), now).value case InFlight => Conflict case Response(s) => Replayed(s))
      ensures hasKey && Live(old(slot), now).None? ==>
                reply == Executed(status)
                && forall t :: finish <= t < finish + RECORD ==> Live(slot, t) == Some(Response(status))
      ensures hasKey && reply.Executed? ==> Live(slot, finish + RECORD) == None
    {
      if !hasKey { return Executed(status); }
      var existing := Live(slot, now);
      if existing == Some(InFlight) { return Conflict; }
      if existing.Some? { return Replayed(existing.value.status); }
      slot := Some(Slot(InFlight, now + LEASE));
      slot := Some(Slot(Response(status), finish + RECORD));
      reply := Executed(status);
    }
  }
}
