/** The single-flight access-token cache: a mutex-protected token, and a channel on which
    goroutines wait while one of them refreshes. */
module TokenCache {
  import opened Domain
  import opened Traces

  /** The fields under the mutex. Channels are numbered in order of creation. */
  datatype Cache = Cache(token: string, expiresAt: int, inflight: Option<nat>)

  datatype Answer = Token(value: string) | NoToken

  datatype Goroutine =
    | Calling                                  // about to lock
    | Waiting(channel: nat)                    // blocked on the refresher's channel
    | Rereading                                // woken; about to lock and read the token
    | Fetching(channel: nat)                   // refreshing: the request is in progress
    | Installing(channel: nat, got: Answer)    // the request has returned
    | Closing(channel: nat, got: Answer)       // inflight cleared; about to close
    | Returned(answer: Answer)

  /** `lastSuccess` is history: when a refresh last succeeded. */
  datatype System = System(
    now: int, cache: Cache, goroutines: seq<Goroutine>, created: nat, closed: seq<nat>, lastSuccess: Option<int>)

  const TTL: int := 28 * 60 * 1_000_000_000

  datatype Event =
    | Call
    | Lock(g: nat)                        // the first critical section
    | Fetch(g: nat, got: Answer)          // the provider answers the refresher
    | Install(g: nat)                     // the second critical section
    | Close(g: nat)
    | Wake(g: nat)                        // a closed channel is received from
    | Cancel(g: nat)                      // the waiter's context ends
    | Reread(g: nat)                      // the waiter's last critical section
    | Tick(elapsed: nat)

  predicate Fresh(c: Cache, now: int) { c.token != "" && now < c.expiresAt }

  /** The first critical section: return the token, wait, or become the refresher with a
      channel of one's own. */
  function EnterStep(c: Cache, now: int, created: nat): (Cache, Goroutine) {
    if Fresh(c, now) then (c, Returned(Token(c.token)))
    else if c.inflight.Some? then (c, Waiting(c.inflight.value))
    else (c.(inflight := Some(created)), Fetching(created))
  }

  /** The second one: a failed refresh leaves the old token and its expiry. */
  function InstallStep(c: Cache, now: int, got: Answer): Cache {
    if got.Token? then Cache(got.value, now + TTL, None) else c.(inflight := None)
  }

  function Enter(s: System, g: nat): System
    requires g < |s.goroutines|
  {
    var (c, r) := EnterStep(s.cache, s.now, s.created);
    s.(cache := c, created := if r.Fetching? then s.created + 1 else s.created, goroutines := s.goroutines[g := r])
  }

  /** A fetch that answers without a token is an error. */
  predicate Success(a: Answer) { a.Token? && a.value != "" }

  function Occur(s: System, e: Event): System {
    match e
    case Call => s.(goroutines := s.goroutines + [Calling])
    case Tick(elapsed) => s.(now := s.now + elapsed)
    case Lock(g) => if g < |s.goroutines| && s.goroutines[g] == Calling then Enter(s, g) else s
    case Fetch(g, got) =>
      if g < |s.goroutines| && s.goroutines[g].Fetching?
      then s.(goroutines := s.goroutines[g := Installing(s.goroutines[g].channel, if Success(got) then got else NoToken)])
      else s
    case Install(g) =>
      if g < |s.goroutines| && s.goroutines[g].Installing? then
        var r := s.goroutines[g];
        s.(cache := InstallStep(s.cache, s.now, r.got),
           lastSuccess := if r.got.Token? then Some(s.now) else s.lastSuccess,
           goroutines := s.goroutines[g := Closing(r.channel, r.got)])
      else s
    case Close(g) =>
      if g < |s.goroutines| && s.goroutines[g].Closing?
      then s.(closed := s.closed + [s.goroutines[g].channel],
              goroutines := s.goroutines[g := Returned(s.goroutines[g].got)])
      else s
    case Wake(g) =>
      if g < |s.goroutines| && s.goroutines[g].Waiting? && s.goroutines[g].channel in s.closed
      then s.(goroutines := s.goroutines[g := Rereading]) else s
    case Cancel(g) =>
      if g < |s.goroutines| && s.goroutines[g].Waiting?
      then s.(goroutines := s.goroutines[g := Returned(NoToken)]) else s
    case Reread(g) =>
      if g < |s.goroutines| && s.goroutines[g] == Rereading
      then s.(goroutines := s.goroutines[g := Returned(Token(s.cache.token))]) else s
  }

  function Exec(s: System, events: seq<Event>): System { Fold(Occur, s, events) }

  function Boot(now: int): System { System(now, Cache("", 0, None), [], 0, [], None) }

  // ── Invariant ─────────────────────────────────────────────────────────────

  predicate Refreshing(g: Goroutine) { g.Fetching? || g.Installing? }

  /** The channel that a goroutine created and has yet to close. */
  function Owned(g: Goroutine): Option<nat> {
    match g
    case Fetching(c) => Some(c)
    case Installing(c, _) => Some(c)
    case Closing(c, _) => Some(c)
    case _ => None
  }

  predicate OwnedBySome(s: System, c: nat) { exists g <- s.goroutines :: Owned(g) == Some(c) }

  ghost predicate Inv(s: System) {
    // inflight is set exactly while someone refreshes, and is that goroutine's channel
    && (forall g <- s.goroutines :: Refreshing(g) ==> s.cache.inflight == Owned(g))
    && (s.cache.inflight.Some? ==> exists g <- s.goroutines :: Refreshing(g) && Owned(g) == s.cache.inflight)
    // each channel has one owner until it is closed, once
    && (forall i, j :: 0 <= i < j < |s.goroutines| && Owned(s.goroutines[i]).Some? ==>
          Owned(s.goroutines[i]) != Owned(s.goroutines[j]))
    && (forall i, j :: 0 <= i < j < |s.closed| ==> s.closed[i] != s.closed[j])
    && (forall g <- s.goroutines :: Owned(g).Some? ==> Owned(g).value < s.created && Owned(g).value !in s.closed)
    && (forall c <- s.closed :: c < s.created)
    // a waiter's channel is closed, or owned by a goroutine that will close it
    && (forall g <- s.goroutines :: g.Waiting? ==> g.channel in s.closed || OwnedBySome(s, g.channel))
    // the token is empty until a refresh succeeds, and its expiry is that of the last success
    && (s.cache.token == "" <==> s.lastSuccess.None?)
    && (s.lastSuccess.Some? ==> s.cache.expiresAt == s.lastSuccess.value + TTL)
    && (forall g <- s.goroutines :: g.Installing? && g.got.Token? ==> g.got.value != "")
  }

  // ── Every event keeps the invariant ───────────────────────────────────────

  predicate OthersStay(s: System, s': System, g: nat) {
    g < |s.goroutines| == |s'.goroutines|
    && forall j :: 0 <= j < |s.goroutines| && j != g ==> s'.goroutines[j] == s.goroutines[j]
  }

  /** Channels stay owned when a goroutine moves on without giving its channel up. */
  lemma OwnersStay(s: System, s': System, g: nat)
    requires OthersStay(s, s', g) && Owned(s'.goroutines[g]) == Owned(s.goroutines[g])
    ensures forall c: nat :: OwnedBySome(s, c) ==> OwnedBySome(s', c)
  {
    forall c: nat | OwnedBySome(s, c) ensures OwnedBySome(s', c) {
      var j :| 0 <= j < |s.goroutines| && Owned(s.goroutines[j]) == Some(c);
      assert s'.goroutines[j] in s'.goroutines && Owned(s'.goroutines[j]) == Some(c);
    }
  }

  lemma InflightOwnerStays(s: System, s': System, g: nat)
    requires Inv(s) && OthersStay(s, s', g) && s'.cache.inflight == s.cache.inflight
    requires Refreshing(s.goroutines[g]) ==> Refreshing(s'.goroutines[g])
    requires Owned(s'.goroutines[g]) == Owned(s.goroutines[g])
    ensures s'.cache.inflight.Some? ==> exists x <- s'.goroutines :: Refreshing(x) && Owned(x) == s'.cache.inflight
  {
    if s.cache.inflight.Some? {
      var j :| 0 <= j < |s.goroutines| && Refreshing(s.goroutines[j]) && Owned(s.goroutines[j]) == s.cache.inflight;
      assert s'.goroutines[j] in s'.goroutines;
    }
  }

  lemma CallKeepsInv(s: System)
    requires Inv(s)
    ensures Inv(Occur(s, Call))
  {
    var s' := Occur(s, Call);
    assert forall g <- s.goroutines :: g in s'.goroutines;
    forall c: nat | OwnedBySome(s, c) ensures OwnedBySome(s', c) {
      var g :| g in s.goroutines && Owned(g) == Some(c);
      assert g in s'.goroutines;
    }
  }

  lemma LockKeepsInv(s: System, g: nat)
    requires Inv(s) && g < |s.goroutines| && s.goroutines[g] == Calling
    ensures Inv(Occur(s, Lock(g)))
  {
    var s' := Occur(s, Lock(g));
    if s'.goroutines[g].Fetching? {
      forall c: nat | OwnedBySome(s, c) ensures OwnedBySome(s', c) {
        var j :| 0 <= j < |s.goroutines| && Owned(s.goroutines[j]) == Some(c);
        assert s'.goroutines[j] in s'.goroutines;
      }
      assert s'.goroutines[g] in s'.goroutines;
      assert forall x <- s.goroutines :: !Refreshing(x);
    } else {
      OwnersStay(s, s', g);
      InflightOwnerStays(s, s', g);
    }
  }

  lemma FetchKeepsInv(s: System, g: nat, got: Answer)
    requires Inv(s) && g < |s.goroutines| && s.goroutines[g].Fetching?
    ensures Inv(Occur(s, Fetch(g, got)))
  {
    OwnersStay(s, Occur(s, Fetch(g, got)), g);
    InflightOwnerStays(s, Occur(s, Fetch(g, got)), g);
  }

  lemma InstallKeepsInv(s: System, g: nat)
    requires Inv(s) && g < |s.goroutines| && s.goroutines[g].Installing?
    ensures Inv(Occur(s, Install(g)))
  {
    var s' := Occur(s, Install(g));
    OwnersStay(s, s', g);
    forall j | 0 <= j < |s.goroutines| && j != g ensures !Refreshing(s.goroutines[j]) {
      assert Owned(s.goroutines[g]).Some? && Owned(s.goroutines[j]) != Owned(s.goroutines[g]);
    }
  }

  lemma CloseKeepsInv(s: System, g: nat)
    requires Inv(s) && g < |s.goroutines| && s.goroutines[g].Closing?
    ensures Inv(Occur(s, Close(g)))
  {
    var s' := Occur(s, Close(g));
    forall c: nat | OwnedBySome(s, c) ensures c in s'.closed || OwnedBySome(s', c) {
      var j :| 0 <= j < |s.goroutines| && Owned(s.goroutines[j]) == Some(c);
      if j != g { assert s'.goroutines[j] in s'.goroutines; }
    }
    if s.cache.inflight.Some? {
      var j :| 0 <= j < |s.goroutines| && Refreshing(s.goroutines[j]) && Owned(s.goroutines[j]) == s.cache.inflight;
      assert s'.goroutines[j] in s'.goroutines;
    }
  }

  lemma WaiterKeepsInv(s: System, g: nat, e: Event)
    requires Inv(s) && g < |s.goroutines| && (e == Wake(g) || e == Cancel(g) || e == Reread(g))
    requires s.goroutines[g].Waiting? || s.goroutines[g] == Rereading
    ensures Inv(Occur(s, e))
  {
    OwnersStay(s, Occur(s, e), g);
    InflightOwnerStays(s, Occur(s, e), g);
  }

  lemma EventKeepsInv(s: System, e: Event)
    requires Inv(s)
    ensures Inv(Occur(s, e))
  {
    if Occur(s, e) != s {
      match e
      case Call => CallKeepsInv(s);
      case Tick(_) => assert forall c: nat :: OwnedBySome(s, c) ==> OwnedBySome(Occur(s, e), c);
      case Lock(g) => LockKeepsInv(s, g);
      case Fetch(g, got) => FetchKeepsInv(s, g, got);
      case Install(g) => InstallKeepsInv(s, g);
      case Close(g) => CloseKeepsInv(s, g);
      case Wake(g) => WaiterKeepsInv(s, g, e);
      case Cancel(g) => WaiterKeepsInv(s, g, e);
      case Reread(g) => WaiterKeepsInv(s, g, e);
    }
  }

  lemma {:induction false} ReachableInv(now: int, events: seq<Event>)
    ensures Inv(Exec(Boot(now), events))
  {
    if events != [] {
      ReachableInv(now, events[..|events| - 1]);
      EventKeepsInv(Exec(Boot(now), events[..|events| - 1]), events[|events| - 1]);
    }
  }

  // ── Guarantees ────────────────────────────────────────────────────────────

  /** For any number of goroutines in any interleaving: at most one refresh is in progress;
      `inflight` is set exactly while one is; no channel is closed twice; and each channel
      being waited on is closed or has a goroutine that will close it. */
  lemma SingleFlight(now: int, events: seq<Event>)
    ensures var s := Exec(Boot(now), events);
            && (forall i, j :: 0 <= i < j < |s.goroutines| ==>
                  !(Refreshing(s.goroutines[i]) && Refreshing(s.goroutines[j])))
            && (s.cache.inflight.Some? <==> exists g <- s.goroutines :: Refreshing(g))
            && (forall i, j :: 0 <= i < j < |s.closed| ==> s.closed[i] != s.closed[j])
            && (forall g <- s.goroutines :: g.Waiting? ==> g.channel in s.closed || OwnedBySome(s, g.channel))
  {
    ReachableInv(now, events);
    var s := Exec(Boot(now), events);
    forall i, j | 0 <= i < j < |s.goroutines|
      ensures !(Refreshing(s.goroutines[i]) && Refreshing(s.goroutines[j]))
    {
      assert Owned(s.goroutines[i]).Some? ==> Owned(s.goroutines[i]) != Owned(s.goroutines[j]);
    }
  }

  /** The owner's next step towards closing its channel. */
  function NextOf(s: System, o: nat, got: Answer): Event
    requires o < |s.goroutines|
  {
    if s.goroutines[o].Fetching? then Fetch(o, got)
    else if s.goroutines[o].Installing? then Install(o) else Close(o)
  }

  lemma OwnerMoves(s: System, o: nat, c: nat, got: Answer)
    requires o < |s.goroutines| && Owned(s.goroutines[o]) == Some(c)
    ensures var s' := Occur(s, NextOf(s, o, got));
            OthersStay(s, s', o) && if s.goroutines[o].Closing? then c in s'.closed
                                    else Owned(s'.goroutines[o]) == Some(c) && StepsLeft(s', o) < StepsLeft(s, o)
  {}

  function StepsLeft(s: System, o: nat): nat
    requires o < |s.goroutines|
  {
    if s.goroutines[o].Fetching? then 3 else if s.goroutines[o].Installing? then 2 else 1
  }

  lemma {:induction false} OwnerCloses(s: System, o: nat, c: nat, got: Answer) returns (events: seq<Event>)
    requires o < |s.goroutines| && Owned(s.goroutines[o]) == Some(c)
    ensures |events| <= StepsLeft(s, o) && c in Exec(s, events).closed
    ensures OthersStay(s, Exec(s, events), o)
    decreases StepsLeft(s, o)
  {
    var e := NextOf(s, o, got);
    var s' := Occur(s, e);
    OwnerMoves(s, o, c, got);
    FoldOne(Occur, s, e);
    events := [e];
    if !s.goroutines[o].Closing? {
      var rest := OwnerCloses(s', o, c, got);
      FoldAppend(Occur, s, [e], rest);
      events := [e] + rest;
    }
  }

  /** No waiter is stranded: in every reachable state the goroutine that owns the waiter's
      channel can close it in three steps, whatever the provider answers, and then the
      waiter goes on; nobody else need move. */
  lemma WaiterCanProceed(s: System, g: nat, got: Answer) returns (events: seq<Event>)
    requires Inv(s) && g < |s.goroutines| && s.goroutines[g].Waiting?
    ensures |events| <= 4 && |Exec(s, events).goroutines| == |s.goroutines|
    ensures Exec(s, events).goroutines[g] == Rereading
  {
    var c := s.goroutines[g].channel;
    var closing := [];
    if c !in s.closed {
      var o :| 0 <= o < |s.goroutines| && Owned(s.goroutines[o]) == Some(c);
      closing := OwnerCloses(s, o, c, got);
    }
    FoldSnoc(Occur, s, closing, Wake(g));
    events := closing + [Wake(g)];
  }

  /** The promise is a valid token. A waiter takes whatever is cached and reports no error,
      although the refresh it waited for may have failed: its token is fresh if and only if a
      refresh succeeded less than the token's lifetime ago. It is empty if and only if none
      ever did, and otherwise it can have expired. */
  lemma WaiterGetsFreshTokenIff(now: int, events: seq<Event>, g: nat)
    requires var s := Exec(Boot(now), events); g < |s.goroutines| && s.goroutines[g] == Rereading
    ensures var s := Exec(Boot(now), events);
            && Occur(s, Reread(g)).goroutines[g] == Returned(Token(s.cache.token))
            && (Fresh(s.cache, s.now) <==> s.lastSuccess.Some? && s.now < s.lastSuccess.value + TTL)
            && (s.cache.token == "" <==> s.lastSuccess.None?)
  {
    ReachableInv(now, events);
  }

  /** What a caller gets from the first critical section, in every reachable state. A cached
      token that has not expired is returned and nothing changes. Otherwise, if nobody is
      refreshing, the caller becomes the refresher on a channel of its own; and if somebody is,
      it waits on that goroutine's channel, and nothing else changes. */
  lemma CallerGoesOn(now: int, events: seq<Event>, g: nat)
    requires var s := Exec(Boot(now), events); g < |s.goroutines| && s.goroutines[g] == Calling
    ensures var s := Exec(Boot(now), events);
            s.cache.token != "" && s.now < s.cache.expiresAt ==>
              Occur(s, Lock(g)) == s.(goroutines := s.goroutines[g := Returned(Token(s.cache.token))])
    ensures var s := Exec(Boot(now), events);
            (s.cache.token == "" || s.cache.expiresAt <= s.now) && (forall r <- s.goroutines :: !Refreshing(r)) ==>
              Occur(s, Lock(g)) == s.(cache := s.cache.(inflight := Some(s.created)), created := s.created + 1,
                                      goroutines := s.goroutines[g := Fetching(s.created)])
    ensures var s := Exec(Boot(now), events);
            forall r <- s.goroutines ::
              (s.cache.token == "" || s.cache.expiresAt <= s.now) && Refreshing(r) ==>
                Occur(s, Lock(g)) == s.(goroutines := s.goroutines[g := Waiting(r.channel)])
    ensures var s := Exec(Boot(now), events);
            Occur(s, Lock(g)).goroutines[g].Fetching? <==>
              (s.cache.token == "" || s.cache.expiresAt <= s.now) && forall r <- s.goroutines :: !Refreshing(r)
  {
    ReachableInv(now, events);
    var s := Exec(Boot(now), events);
    hide Exec;
    assert forall r <- s.goroutines :: Refreshing(r) ==> s.cache.inflight == Some(r.channel);
  }

  /** How long a waiter waits, in every reachable state: until its context ends, which is an
      error, or its channel has been closed; and then the refresh that it waited for is over. */
  lemma WaiterWaits(now: int, events: seq<Event>, g: nat, e: Event)
    requires var s := Exec(Boot(now), events); g < |s.goroutines| && s.goroutines[g].Waiting?
    ensures var s := Exec(Boot(now), events);
            var c := s.goroutines[g].channel;
            && Occur(s, e).goroutines[g] == (if e == Cancel(g) then Returned(NoToken)
                                             else if e == Wake(g) && c in s.closed then Rereading else Waiting(c))
            && (c in s.closed ==> forall r <- s.goroutines :: Refreshing(r) || r.Closing? ==> r.channel != c)
  {
    ReachableInv(now, events);
    hide Exec;
  }

  /** The provider's answer without a token is an error, and so is a waiter's cancellation; a
      failed refresh keeps the old token and its expiry. */
  lemma FailuresAreErrors(s: System, g: nat)
    requires g < |s.goroutines|
    ensures s.goroutines[g].Fetching? ==>
              && Occur(s, Fetch(g, NoToken)).goroutines[g] == Installing(s.goroutines[g].channel, NoToken)
              && Occur(s, Fetch(g, Token(""))).goroutines[g] == Installing(s.goroutines[g].channel, NoToken)
    ensures s.goroutines[g].Waiting? ==> Occur(s, Cancel(g)).goroutines[g] == Returned(NoToken)
    ensures s.goroutines[g].Installing? && s.goroutines[g].got == NoToken ==>
              Occur(s, Install(g)).cache == s.cache.(inflight := None)
  {}

  /** The callers that do not wait keep the promise. In every reachable state what the first
      critical section returns is fresh; and a refresher that is answered with a token keeps it,
      installs that very token, fresh from then on for its whole lifetime, and returns it. */
  lemma RefresherGetsFreshToken(now: int, events: seq<Event>, g: nat, later: nat)
    requires g < |Exec(Boot(now), events).goroutines|
    ensures var s := Exec(Boot(now), events);
            s.goroutines[g] == Calling && Occur(s, Lock(g)).goroutines[g].Returned? ==>
              Fresh(s.cache, s.now) && Occur(s, Lock(g)).goroutines[g] == Returned(Token(s.cache.token))
    ensures var s := Exec(Boot(now), events);
            s.goroutines[g].Installing? && s.goroutines[g].got.Token? ==>
              var installed := Occur(s, Install(g));
              var got := s.goroutines[g].got;
              && installed.cache.token == got.value
              && (later < TTL <==> Fresh(installed.cache, installed.now + later))
              && Occur(installed, Close(g)).goroutines[g] == Returned(got)
    ensures var s := Exec(Boot(now), events);
            s.goroutines[g].Fetching? ==>
              forall v: string | v != "" ::
                Occur(s, Fetch(g, Token(v))).goroutines[g] == Installing(s.goroutines[g].channel, Token(v))
  {
    ReachableInv(now, events);
    var s := Exec(Boot(now), events);
    assert s.goroutines[g] in s.goroutines;
  }

  /** Two callers, the first of whom refreshes and fails. */
  function Pair(s: System, a: Goroutine, b: Goroutine): System {
    s.(goroutines := s.goroutines + [a, b])
  }

  lemma PairStarts(s: System) returns (events: seq<Event>)
    requires Inv(s) && !Fresh(s.cache, s.now) && s.cache.inflight.None?
    ensures var n, c := |s.goroutines|, s.created;
            Exec(s, events) == Pair(s.(cache := s.cache.(inflight := Some(c)), created := c + 1), Fetching(c), Waiting(c))
  {
    hide Inv;
    var n, c := |s.goroutines|, s.created;
    var s1 := Occur(s, Call);
    var s2 := Occur(s1, Call);
    assert s2 == Pair(s, Calling, Calling);
    var s3 := Occur(s2, Lock(n));
    var t := s.(cache := s.cache.(inflight := Some(c)), created := c + 1);
    assert s3 == Pair(t, Fetching(c), Calling);
    assert Occur(s3, Lock(n + 1)) == Pair(t, Fetching(c), Waiting(c));
    FoldOne(Occur, s, Call);
    FoldSnoc(Occur, s, [Call], Call);
    FoldSnoc(Occur, s, [Call] + [Call], Lock(n));
    FoldSnoc(Occur, s, [Call] + [Call] + [Lock(n)], Lock(n + 1));
    events := [Call] + [Call] + [Lock(n)] + [Lock(n + 1)];
  }

  lemma PairFails(s: System, c: nat) returns (events: seq<Event>)
    requires s.cache.inflight == Some(c)
    ensures var s' := Exec(Pair(s, Fetching(c), Waiting(c)), events);
            && s'.goroutines == s.goroutines + [Returned(NoToken), Returned(Token(s.cache.token))]
            && s'.cache == s.cache.(inflight := None) && s'.now == s.now
  {
    var n := |s.goroutines|;
    var p := Pair(s, Fetching(c), Waiting(c));
    var free := s.(cache := s.cache.(inflight := None));
    var shut := free.(closed := s.closed + [c]);
    assert Occur(p, Fetch(n, NoToken)) == Pair(s, Installing(c, NoToken), Waiting(c));
    assert Occur(Pair(s, Installing(c, NoToken), Waiting(c)), Install(n)) == Pair(free, Closing(c, NoToken), Waiting(c));
    assert Occur(Pair(free, Closing(c, NoToken), Waiting(c)), Close(n)) == Pair(shut, Returned(NoToken), Waiting(c));
    assert Occur(Pair(shut, Returned(NoToken), Waiting(c)), Wake(n + 1)) == Pair(shut, Returned(NoToken), Rereading);
    assert Occur(Pair(shut, Returned(NoToken), Rereading), Reread(n + 1))
        == Pair(shut, Returned(NoToken), Returned(Token(s.cache.token)));
    FoldOne(Occur, p, Fetch(n, NoToken));
    FoldSnoc(Occur, p, [Fetch(n, NoToken)], Install(n));
    FoldSnoc(Occur, p, [Fetch(n, NoToken)] + [Install(n)], Close(n));
    FoldSnoc(Occur, p, [Fetch(n, NoToken)] + [Install(n)] + [Close(n)], Wake(n + 1));
    FoldSnoc(Occur, p, [Fetch(n, NoToken)] + [Install(n)] + [Close(n)] + [Wake(n + 1)], Reread(n + 1));
    events := [Fetch(n, NoToken)] + [Install(n)] + [Close(n)] + [Wake(n + 1)] + [Reread(n + 1)];
  }

  /** The failing run: from every reachable state whose token has expired and which nobody is
      refreshing, two new callers and one failed fetch hand the expired token to a waiter. */
  lemma ExpiredTokenCanBeReturned(s: System) returns (events: seq<Event>)
    requires Inv(s) && !Fresh(s.cache, s.now) && s.cache.inflight.None?
    ensures var s' := Exec(s, events);
            && |s'.goroutines| == |s.goroutines| + 2
            && s'.goroutines[|s.goroutines| + 1] == Returned(Token(s.cache.token))
            && !Fresh(s'.cache, s'.now) && s'.cache.token == s.cache.token
  {
    hide Inv, Occur, Fold;
    var start := PairStarts(s);
    var t := s.(cache := s.cache.(inflight := Some(s.created)), created := s.created + 1);
    var rest := PairFails(t, s.created);
    FoldAppend(Occur, s, start, rest);
    events := start + rest;
  }

  // ── The cache itself ──────────────────────────────────────────────────────

  /** The fields that the mutex protects; each method is one critical section. */
  class TokenFields {
    var accessToken: string
    var expiresAt: int
    var inflight: Option<nat>
    var channels: nat

    function Value(): Cache
      reads this
    {
      Cache(accessToken, expiresAt, inflight)
    }

    constructor ()
      ensures Value() == Cache("", 0, None) && channels == 0
    {
      accessToken, expiresAt, inflight, channels := "", 0, None, 0;
    }

    method Acquire(now: int) returns (next: Goroutine)
      modifies this
      ensures (Value(), next) == EnterStep(old(Value()), now, old(channels))
      ensures channels == if next.Fetching? then old(channels) + 1 else old(channels)
    {
      if accessToken != "" && now < expiresAt { return Returned(Token(accessToken)); }
      if inflight.Some? { return Waiting(inflight.value); }
      inflight := Some(channels);
      next := Fetching(channels);
      channels := channels + 1;
    }

    /** Returns the channel for the caller to close. */
    method Finish(now: int, got: Answer) returns (channel: Option<nat>)
      modifies this
      ensures Value() == InstallStep(old(Value()), now, got) && channels == old(channels)
      ensures channel == old(inflight)
    {
      channel := inflight;
      inflight := None;
      if got.Token? {
        accessToken := got.value;
        expiresAt := now + TTL;
      }
    }
  }

  /** The channel that the refresher reads from the field when it finishes is the one it
      created: nobody has replaced it meanwhile. */
  lemma RefresherClosesItsOwn(now: int, events: seq<Event>, g: nat)
    requires var s := Exec(Boot(now), events); g < |s.goroutines| && s.goroutines[g].Installing?
    ensures var s := Exec(Boot(now), events); s.cache.inflight == Some(s.goroutines[g].channel)
  {
    ReachableInv(now, events);
    var s := Exec(Boot(now), events);
    assert Refreshing(s.goroutines[g]);
  }
}
