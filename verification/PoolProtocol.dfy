/**
 * `src/server.rs`: the pool under concurrency. Clients running `handle_client` and `get`, the
 * importer, the re-checker's `add`/`remove` and `wait_ready` callers interleave in atomic steps:
 * one step per critical section, per atomic access, and per `Notify` call.
 *
 * `notify_waiters` is a generation counter. A `notified()` future remembers the generation in which
 * it was created and completes once the counter has moved on.
 */
module PoolProtocol {
  import opened Prelude
  import opened Proxies
  import opened Selection
  import opened PoolModel
  import Relay

  const VERIFY_MAX_ATTEMPTS := 8

  /** What `handle_client` or `get` does after a proxy has gone back. */
  datatype Next = Redraw(draws: nat) | NextAttempt | Finished

  datatype Pc =
    | Idle                                  // head of the attempt loop
    | Top(draws: nat)                       // head of `get`'s loop, before `notified()`
    | Looking(gen: nat, draws: nat)         // future created, pool not inspected yet
    | Missed(gen: nat, draws: nat)          // nothing found, `exhausted` not read yet
    | LastLook(draws: nat)                  // exhausted: one more selection
    | Parked(gen: nat, draws: nat)          // awaiting the future
    | Probing(proxy: Proxy, draws: nat)     // verify-on-lease
    | Leased(proxy: Proxy)                  // `get` has returned
    | Relaying(proxy: Proxy)
    | Returning(proxy: Proxy, blockedUntil: Option<real>, next: Next)  // inside `put_inner`, before its lock
    | Announcing(next: Next)                // pushed, `notify_waiters` not called yet
    | Done                                  // answered through a proxy, or the client is gone
    | Refused                               // terminal failure

  /** `leases` and `returned` count what `handle_client` took from `get` and gave back. */
  datatype Client = Client(scheme: Scheme, attempt: nat, leases: nat, returned: nat, pc: Pc)

  datatype Importer = Importing | ImportPushed | SourceEnded | ImporterDone

  datatype WaiterPc = WaitTop | WaitLooking(gen: nat) | WaitMissed(gen: nat) | WaitParked(gen: nat) | WaitOver

  datatype Waiter = Waiter(n: nat, pc: WaiterPc)

  datatype Sys = Sys(
    cfg: PoolConfig, pool: PoolState,
    adding: bool,                           // `add` holds the pool lock between its push and its notify
    importer: Importer, clients: seq<Client>, waiters: seq<Waiter>,
    admitted: set<nat>, evicted: set<nat>, removed: set<nat>)

  datatype Event =
    | Connect(scheme: Scheme)
    | ClientMoves(i: nat, choice: Choice)
    | Import(proxy: Proxy)
    | ImporterNotifies
    | ImportEnds
    | AddPush(proxy: Proxy)
    | AddNotifies
    | RemoveAt(addr: Addr)
    | StartWaiting(n: nat)
    | WaiterMoves(i: nat)

  /** What the environment decides in a client's step: clock, pin, cursor, draw, probe and relay results. */
  datatype Choice = Choice(ctx: SelectCtx, alive: bool, outcome: Relay.Outcome)

  // ----- the steps -----

  function After(c: Client, next: Next): Client
  {
    match next
    case Redraw(draws) => c.(pc := if draws >= VERIFY_MAX_ATTEMPTS then Refused else Top(draws))
    case NextAttempt => c.(attempt := c.attempt + 1, pc := Idle)
    case Finished => c.(pc := Done)
  }

  /** The relayed proxy on its way back, recorded and benched as `handle_client` does. */
  function Settle(p: Proxy, outcome: Relay.Outcome, until: real): Pc
  {
    var put := Relay.PutBack(p, outcome);
    Returning(put.proxy, if put.benched then Some(until) else None,
              if outcome.RetryableFailure? then NextAttempt else Finished)
  }

  datatype Effect = Effect(pool: PoolState, client: Client, evicted: set<nat>)

  /** A selection under the pool lock: the first look of a `get` round, or its last one. */
  function SelectStep(s: Sys, c: Client, ctx: SelectCtx): Option<Effect>
    requires c.pc.Looking? || c.pc.LastLook?
  {
    if s.adding then None
    else
      var chosen := Selected(s.pool.items, ctx);
      var pool := s.pool.(items := AfterSelection(s.pool.items, ctx));
      Some(Effect(pool, c.(pc := Drawn(s.cfg, c.pc, chosen)), s.evicted))
  }

  /** Where a selection leads: a miss on the last look is final, a hit may have to be probed first. */
  function Drawn(cfg: PoolConfig, pc: Pc, chosen: Option<Proxy>): Pc
    requires pc.Looking? || pc.LastLook?
  {
    match chosen
    case None => if pc.Looking? then Missed(pc.gen, pc.draws) else Refused
    case Some(p) => if pc.Looking? && cfg.verifyOnLease then Probing(p, pc.draws) else Leased(p)
  }

  /** `put_inner`: evict without the lock, or push under it. */
  function ReturnStep(s: Sys, c: Client): Option<Effect>
    requires c.pc.Returning?
  {
    var Returning(p, blockedUntil, next) := c.pc;
    var back := if next.Redraw? then c else c.(returned := c.returned + 1);
    if Unhealthy(s.cfg, p) then Some(Effect(Evict(s.pool), After(back, next), s.evicted + {p.id}))
    else if s.adding then None
    else Some(Effect(Push(s.pool, p, blockedUntil), back.(pc := Announcing(next)), s.evicted))
  }

  /** A step that takes nothing from the pool and puts nothing into it. */
  function OwnStep(s: Sys, c: Client, choice: Choice): Option<(PoolState, Client)>
  {
    var until := choice.ctx.now + s.cfg.failTimeout;
    match c.pc
    case Idle => Some((s.pool, c.(pc := if c.attempt < s.cfg.maxTries then Top(0) else Refused)))
    case Top(draws) => Some((s.pool, c.(pc := Looking(s.pool.wakeups, draws))))
    case Missed(gen, draws) =>
      Some((s.pool, c.(pc := if s.pool.exhausted then LastLook(draws) else Parked(gen, draws))))
    case Parked(gen, draws) =>
      if gen == s.pool.wakeups then None else Some((s.pool, c.(pc := Top(draws))))
    case Probing(p, draws) =>
      Some((s.pool, c.(pc := if choice.alive then Leased(p) else Returning(p, Some(until), Redraw(draws + 1)))))
    case Leased(p) =>
      Some((if c.attempt > 0 then s.pool.(rotations := s.pool.rotations + 1) else s.pool,
            c.(leases := c.leases + 1, pc := Relaying(p))))
    case Relaying(p) => Some((s.pool, c.(pc := Settle(p, choice.outcome, until))))
    case Announcing(next) => Some((Notify(s.pool), After(c, next)))
    case _ => None
  }

  /** One step of one client; `None` when it cannot move. */
  function ClientStep(s: Sys, c: Client, choice: Choice): Option<Effect>
  {
    if c.pc.Looking? || c.pc.LastLook? then SelectStep(s, c, choice.ctx.(scheme := c.scheme))
    else if c.pc.Returning? then ReturnStep(s, c)
    else
      match OwnStep(s, c, choice)
      case None => None
      case Some((pool, client)) => Some(Effect(pool, client, s.evicted))
  }

  function WaiterStep(s: Sys, w: Waiter): Option<Waiter>
  {
    match w.pc
    case WaitTop => Some(w.(pc := if w.n == 0 then WaitOver else WaitLooking(s.pool.wakeups)))
    case WaitLooking(gen) =>
      if s.adding then None
      else Some(w.(pc := if |s.pool.items| >= w.n then WaitOver else WaitMissed(gen)))
    case WaitMissed(gen) => Some(w.(pc := if s.pool.exhausted then WaitOver else WaitParked(gen)))
    case WaitParked(gen) => if gen == s.pool.wakeups then None else Some(w.(pc := WaitTop))
    case WaitOver => None
  }

  function Apply(s: Sys, e: Event): Option<Sys>
  {
    match e
    case Connect(scheme) => Some(s.(clients := s.clients + [Client(scheme, 0, 0, 0, Idle)]))
    case ClientMoves(i, choice) =>
      if i >= |s.clients| then None
      else
        var r := ClientStep(s, s.clients[i], choice);
        if r.None? then None
        else Some(s.(pool := r.value.pool, clients := s.clients[i := r.value.client], evicted := r.value.evicted))
    case Import(p) =>
      if s.importer != Importing || s.adding || p.id in s.admitted then None
      else if !CountryOk(p, s.cfg.countries) then Some(s)
      else Some(s.(pool := Push(s.pool, p, None), importer := ImportPushed, admitted := s.admitted + {p.id}))
    case ImporterNotifies =>
      if s.importer == ImportPushed then Some(s.(pool := Notify(s.pool), importer := Importing))
      else if s.importer == SourceEnded then Some(s.(pool := Notify(s.pool), importer := ImporterDone))
      else None
    case ImportEnds =>
      if s.importer != Importing then None
      else Some(s.(pool := s.pool.(exhausted := true), importer := SourceEnded))
    case AddPush(p) =>
      if s.adding || p.id in s.admitted then None
      else if Holds(s.pool.items, p.Address()) then Some(s)
      else Some(s.(pool := Push(s.pool, p, None), adding := true, admitted := s.admitted + {p.id}))
    case AddNotifies => if s.adding then Some(s.(pool := Notify(s.pool), adding := false)) else None
    case RemoveAt(addr) =>
      if s.adding then None
      else
        var kept := Without(s.pool.items, addr);
        Some(s.(pool := s.pool.(items := kept), removed := s.removed + (Ids(s.pool.items) - Ids(kept))))
    case StartWaiting(n) => Some(s.(waiters := s.waiters + [Waiter(n, WaitTop)]))
    case WaiterMoves(i) =>
      if i >= |s.waiters| then None
      else
        var r := WaiterStep(s, s.waiters[i]);
        if r.None? then None else Some(s.(waiters := s.waiters[i := r.value]))
  }

  /** A run: every event must be enabled where it happens. */
  function Run(s: Sys, events: seq<Event>): Option<Sys>
  {
    if events == [] then Some(s)
    else
      var before := Run(s, events[..|events| - 1]);
      if before.None? then None else Apply(before.value, events[|events| - 1])
  }

  /** `Pool::spawn`: empty, with a live importer. */
  function Spawned(cfg: PoolConfig): Sys
  {
    Sys(cfg, PoolState([], false, 0, 0, 0), false, Importing, [], [], {}, {}, {})
  }

  /** `Pool::from_proxies`: filled and exhausted from the start. */
  function FromItems(cfg: PoolConfig, items: seq<Pooled>): Sys
  {
    Sys(cfg, PoolState(items, true, 0, 0, 0), false, ImporterDone, [], [], Ids(items), {}, {})
  }

  // ----- lease conservation -----

  function Ids(items: seq<Pooled>): set<nat>
  {
    set x | x in items :: x.proxy.id
  }

  predicate NoDup(items: seq<Pooled>)
  {
    forall i, j :: 0 <= i < j < |items| ==> items[i].proxy.id != items[j].proxy.id
  }

  /** The proxy a client owns, if any. */
  function Held(pc: Pc): set<nat>
  {
    match pc
    case Probing(p, _) => {p.id}
    case Leased(p) => {p.id}
    case Relaying(p) => {p.id}
    case Returning(p, _, _) => {p.id}
    case _ => {}
  }

  function HeldIds(clients: seq<Client>): set<nat>
  {
    set c, id | c in clients && id in Held(c.pc) :: id
  }

  ghost predicate HeldApart(clients: seq<Client>)
  {
    forall i, j :: 0 <= i < j < |clients| ==> Held(clients[i].pc) !! Held(clients[j].pc)
  }

  ghost predicate Apart(a: set<nat>, b: set<nat>, c: set<nat>, d: set<nat>)
  {
    a !! b && a !! c && a !! d && b !! c && b !! d && c !! d
  }

  /** Every admitted proxy is in exactly one place: pooled, held by one client, evicted or removed. */
  ghost predicate Conserved(s: Sys)
  {
    && NoDup(s.pool.items)
    && HeldApart(s.clients)
    && Apart(Ids(s.pool.items), HeldIds(s.clients), s.evicted, s.removed)
    && s.admitted == Ids(s.pool.items) + HeldIds(s.clients) + s.evicted + s.removed
  }

  lemma SwapRemoveIds(items: seq<Pooled>, i: nat)
    requires i < |items| && NoDup(items)
    ensures NoDup(SwapRemove(items, i))
    ensures Ids(SwapRemove(items, i)) == Ids(items) - {items[i].proxy.id}
    ensures items[i].proxy.id in Ids(items)
  {
    var n := |items| - 1;
    var r := SwapRemove(items, i);
    forall j | 0 <= j < n
      ensures r[j] == if j == i then items[n] else items[j]
    {
    }
    forall x | x in items && x.proxy.id != items[i].proxy.id
      ensures x in r
    {
      var j :| 0 <= j < |items| && items[j] == x;
      assert x == r[if j == n then i else j];
    }
    assert items[i] in items;
  }

  lemma PushIds(items: seq<Pooled>, p: Proxy, blockedUntil: Option<real>)
    requires NoDup(items) && p.id !in Ids(items)
    ensures NoDup(items + [Pooled(p, blockedUntil)])
    ensures Ids(items + [Pooled(p, blockedUntil)]) == Ids(items) + {p.id}
  {
    var r := items + [Pooled(p, blockedUntil)];
    assert r[|items|] in r;
    forall x | x in items
      ensures x in r && x.proxy.id in Ids(items)
    {
    }
    forall i | 0 <= i < |items|
      ensures items[i].proxy.id != p.id
    {
      assert items[i] in items;
    }
  }

  lemma HeadIds(items: seq<Pooled>)
    requires items != [] && NoDup(items)
    ensures NoDup(items[1..]) && items[0].proxy.id !in Ids(items[1..])
    ensures Ids(items) == {items[0].proxy.id} + Ids(items[1..])
  {
    var tail := items[1..];
    assert forall j :: 0 <= j < |tail| ==> tail[j] == items[j + 1];
    assert items == [items[0]] + tail;
    assert forall x :: x in items <==> x == items[0] || x in tail;
  }

  lemma ConsIds(x: Pooled, rest: seq<Pooled>)
    requires NoDup(rest) && x.proxy.id !in Ids(rest)
    ensures NoDup([x] + rest)
  {
    var all := [x] + rest;
    forall j | 0 <= j < |rest| ensures all[j + 1] == rest[j] && rest[j].proxy.id != x.proxy.id {
      assert rest[j] in rest;
    }
  }

  lemma {:induction false} WithoutIds(items: seq<Pooled>, addr: Addr)
    requires NoDup(items)
    ensures NoDup(Without(items, addr))
    ensures Ids(Without(items, addr)) <= Ids(items)
  {
    if items != [] {
      HeadIds(items);
      WithoutIds(items[1..], addr);
      ConsIds(items[0], Without(items[1..], addr));
    }
  }

  function OthersHeld(clients: seq<Client>, i: nat): set<nat>
    requires i < |clients|
  {
    HeldIds(clients[..i]) + HeldIds(clients[i + 1..])
  }

  lemma SplitHeld(clients: seq<Client>, i: nat)
    requires i < |clients|
    ensures HeldIds(clients) == OthersHeld(clients, i) + Held(clients[i].pc)
    ensures HeldApart(clients) ==> OthersHeld(clients, i) !! Held(clients[i].pc)
  {
    assert clients == clients[..i] + [clients[i]] + clients[i + 1..];
    forall id | id in OthersHeld(clients, i)
      ensures exists j :: 0 <= j < |clients| && j != i && id in Held(clients[j].pc)
    {
      if id in HeldIds(clients[..i]) {
        var c :| c in clients[..i] && id in Held(c.pc);
        var j :| 0 <= j < i && clients[..i][j] == c;
        assert id in Held(clients[j].pc);
      } else {
        var c :| c in clients[i + 1..] && id in Held(c.pc);
        var j :| 0 <= j < |clients[i + 1..]| && clients[i + 1..][j] == c;
        assert id in Held(clients[i + 1 + j].pc);
      }
    }
  }

  lemma ReplaceHeld(clients: seq<Client>, i: nat, c: Client)
    requires i < |clients| && HeldApart(clients)
    requires Held(c.pc) !! OthersHeld(clients, i)
    ensures HeldApart(clients[i := c])
    ensures HeldIds(clients[i := c]) == OthersHeld(clients, i) + Held(c.pc)
  {
    var after := clients[i := c];
    assert after[..i] == clients[..i] && after[i + 1..] == clients[i + 1..];
    SplitHeld(after, i);
    forall j | 0 <= j < |clients| && j != i
      ensures Held(clients[j].pc) <= OthersHeld(clients, i)
    {
      if j < i { assert clients[..i][j] == clients[j]; } else { assert clients[i + 1..][j - i - 1] == clients[j]; }
    }
  }

  lemma SelectionIds(items: seq<Pooled>, ctx: SelectCtx)
    requires NoDup(items)
    ensures var (p, left) := (Selected(items, ctx), AfterSelection(items, ctx));
            if p.None? then left == items
            else NoDup(left) && Ids(left) == Ids(items) - {p.value.id} && p.value.id in Ids(items)
  {
    var best := BestFor(items, ctx);
    if best.Some? { SwapRemoveIds(items, best.value); }
  }

  /** The ids a client's step can see: pooled, held by it, evicted. */
  ghost predicate LocallyApart(items: seq<Pooled>, pc: Pc, evicted: set<nat>)
  {
    NoDup(items) && Held(pc) !! Ids(items) && Held(pc) !! evicted && Ids(items) !! evicted
  }

  function LocalIds(items: seq<Pooled>, pc: Pc, evicted: set<nat>): set<nat>
  {
    Ids(items) + Held(pc) + evicted
  }

  /** Taking one id out of a set into one's hands. */
  lemma TakenApart(pooled: set<nat>, id: nat, evicted: set<nat>)
    requires id in pooled && pooled !! evicted
    ensures {id} !! pooled - {id} && {id} !! evicted && pooled - {id} !! evicted
    ensures (pooled - {id}) + {id} + evicted == pooled + {} + evicted
  {
  }

  lemma SelectStepConserves(s: Sys, c: Client, ctx: SelectCtx)
    requires (c.pc.Looking? || c.pc.LastLook?) && SelectStep(s, c, ctx).Some?
    requires LocallyApart(s.pool.items, c.pc, s.evicted)
    ensures var r := SelectStep(s, c, ctx).value;
            && LocallyApart(r.pool.items, r.client.pc, r.evicted)
            && LocalIds(r.pool.items, r.client.pc, r.evicted) == LocalIds(s.pool.items, c.pc, s.evicted)
  {
    SelectionIds(s.pool.items, ctx);
    var r := SelectStep(s, c, ctx).value;
    var chosen := Selected(s.pool.items, ctx);
    assert Held(r.client.pc) == if chosen.None? then {} else {chosen.value.id};
    if chosen.Some? { TakenApart(Ids(s.pool.items), chosen.value.id, s.evicted); }
  }

  lemma AfterHeld(c: Client, next: Next)
    ensures Held(After(c, next).pc) == {}
  {
  }

  lemma ReturnStepConserves(s: Sys, c: Client)
    requires c.pc.Returning? && ReturnStep(s, c).Some?
    requires LocallyApart(s.pool.items, c.pc, s.evicted)
    ensures var r := ReturnStep(s, c).value;
            && LocallyApart(r.pool.items, r.client.pc, r.evicted)
            && LocalIds(r.pool.items, r.client.pc, r.evicted) == LocalIds(s.pool.items, c.pc, s.evicted)
  {
    var Returning(p, blockedUntil, next) := c.pc;
    if !Unhealthy(s.cfg, p) { PushIds(s.pool.items, p, blockedUntil); }
    AfterHeld(c.(returned := c.returned + 1), next);
    AfterHeld(c, next);
  }

  lemma OwnStepKeepsHands(s: Sys, c: Client, choice: Choice)
    requires !c.pc.Looking? && !c.pc.LastLook? && !c.pc.Returning? && OwnStep(s, c, choice).Some?
    ensures var (pool, client) := OwnStep(s, c, choice).value;
            pool.items == s.pool.items && Held(client.pc) == Held(c.pc)
  {
  }

  /** A client's own step moves ids between the pool, its hands and the evicted set, and loses none. */
  lemma ClientStepConserves(s: Sys, c: Client, choice: Choice)
    requires ClientStep(s, c, choice).Some?
    requires LocallyApart(s.pool.items, c.pc, s.evicted)
    ensures var r := ClientStep(s, c, choice).value;
            && LocallyApart(r.pool.items, r.client.pc, r.evicted)
            && LocalIds(r.pool.items, r.client.pc, r.evicted) == LocalIds(s.pool.items, c.pc, s.evicted)
  {
    if c.pc.Looking? || c.pc.LastLook? {
      SelectStepConserves(s, c, choice.ctx.(scheme := c.scheme));
    } else if c.pc.Returning? {
      ReturnStepConserves(s, c);
    } else {
      OwnStepKeepsHands(s, c, choice);
    }
  }

  lemma ConservedClient(s: Sys, i: nat, choice: Choice)
    requires Conserved(s) && Apply(s, ClientMoves(i, choice)).Some?
    ensures Conserved(Apply(s, ClientMoves(i, choice)).value)
  {
    var c := s.clients[i];
    var r := ClientStep(s, c, choice).value;
    SplitHeld(s.clients, i);
    ClientStepConserves(s, c, choice);
    var others := OthersHeld(s.clients, i);
    assert Held(r.client.pc) !! others by {
      assert Held(r.client.pc) <= Ids(s.pool.items) + Held(c.pc) + s.evicted;
    }
    ReplaceHeld(s.clients, i, r.client);
  }

  /** A new connection holds nothing. */
  lemma ConservedConnect(s: Sys, scheme: Scheme)
    requires Conserved(s)
    ensures Conserved(Apply(s, Connect(scheme)).value)
  {
    var newcomer := Client(scheme, 0, 0, 0, Idle);
    var after := s.clients + [newcomer];
    assert forall c :: c in after <==> c in s.clients || c == newcomer;
    assert HeldIds(after) == HeldIds(s.clients);
  }

  lemma ConservedRemove(s: Sys, addr: Addr)
    requires Conserved(s) && Apply(s, RemoveAt(addr)).Some?
    ensures Conserved(Apply(s, RemoveAt(addr)).value)
  {
    WithoutIds(s.pool.items, addr);
  }

  lemma ConservedStep(s: Sys, e: Event)
    requires Conserved(s) && Apply(s, e).Some?
    ensures Conserved(Apply(s, e).value)
  {
    match e
    case Connect(scheme) => ConservedConnect(s, scheme);
    case ClientMoves(i, choice) => ConservedClient(s, i, choice);
    case Import(p) => PushIds(s.pool.items, p, None);
    case AddPush(p) => PushIds(s.pool.items, p, None);
    case RemoveAt(addr) => ConservedRemove(s, addr);
    case _ =>
  }

  // ----- counters and bounds -----

  /** Where each counter of one client stands at each program point. */
  predicate Counted(c: Client, maxTries: nat)
  {
    match c.pc
    case Idle => c.attempt == c.leases == c.returned && c.attempt <= maxTries
    case Top(d) => c.attempt == c.leases == c.returned < maxTries && d < VERIFY_MAX_ATTEMPTS
    case Looking(_, d) => c.attempt == c.leases == c.returned < maxTries && d < VERIFY_MAX_ATTEMPTS
    case Missed(_, d) => c.attempt == c.leases == c.returned < maxTries && d < VERIFY_MAX_ATTEMPTS
    case LastLook(d) => c.attempt == c.leases == c.returned < maxTries && d < VERIFY_MAX_ATTEMPTS
    case Parked(_, d) => c.attempt == c.leases == c.returned < maxTries && d < VERIFY_MAX_ATTEMPTS
    case Probing(_, d) => c.attempt == c.leases == c.returned < maxTries && d < VERIFY_MAX_ATTEMPTS
    case Leased(_) => c.attempt == c.leases == c.returned < maxTries
    case Relaying(_) => c.attempt + 1 == c.leases == c.returned + 1 <= maxTries
    case Returning(_, _, Redraw(d)) => c.attempt == c.leases == c.returned < maxTries && d <= VERIFY_MAX_ATTEMPTS
    case Returning(_, _, _) => c.attempt + 1 == c.leases == c.returned + 1 <= maxTries
    case Announcing(Redraw(d)) => c.attempt == c.leases == c.returned < maxTries && d <= VERIFY_MAX_ATTEMPTS
    case Announcing(_) => c.attempt + 1 == c.leases == c.returned <= maxTries
    case Done => c.leases == c.returned && 1 <= c.leases <= maxTries
    case Refused => c.leases == c.returned <= maxTries
  }

  /** Switches to another proxy that a client has made: one fewer than its leases. */
  function Switches(c: Client): nat
  {
    if c.leases == 0 then 0 else c.leases - 1
  }

  function TotalSwitches(clients: seq<Client>): nat
  {
    if clients == [] then 0 else TotalSwitches(clients[..|clients| - 1]) + Switches(clients[|clients| - 1])
  }

  predicate AllCounted(clients: seq<Client>, maxTries: nat)
  {
    forall i :: 0 <= i < |clients| ==> Counted(clients[i], maxTries)
  }

  predicate Tallied(s: Sys)
  {
    && AllCounted(s.clients, s.cfg.maxTries)
    && s.pool.evictions == |s.evicted|
    && s.pool.rotations == TotalSwitches(s.clients)
  }

  lemma {:induction false} SwitchesUpdate(clients: seq<Client>, i: nat, c: Client)
    requires i < |clients|
    ensures TotalSwitches(clients[i := c]) == TotalSwitches(clients) - Switches(clients[i]) + Switches(c)
  {
    var n := |clients| - 1;
    if i == n {
      assert clients[i := c][..n] == clients[..n];
    } else {
      assert clients[i := c][..n] == clients[..n][i := c];
      SwitchesUpdate(clients[..n], i, c);
    }
  }

  /** What one step adds to the counters is what it adds to the sets and tallies they count. */
  ghost predicate CountsKept(s: Sys, c: Client, r: Effect)
  {
    && Counted(r.client, s.cfg.maxTries)
    && r.pool.rotations - s.pool.rotations == Switches(r.client) - Switches(c)
    && r.pool.evictions - s.pool.evictions == |r.evicted| - |s.evicted|
  }

  lemma SelectStepCounts(s: Sys, c: Client, ctx: SelectCtx)
    requires (c.pc.Looking? || c.pc.LastLook?) && SelectStep(s, c, ctx).Some? && Counted(c, s.cfg.maxTries)
    ensures CountsKept(s, c, SelectStep(s, c, ctx).value)
  {
    var chosen := Selected(s.pool.items, ctx);
    assert Counted(c.(pc := Drawn(s.cfg, c.pc, chosen)), s.cfg.maxTries);
  }

  lemma AfterCounts(c: Client, next: Next, maxTries: nat)
    requires next.Redraw? ==> c.attempt == c.leases == c.returned < maxTries && next.draws <= VERIFY_MAX_ATTEMPTS
    requires !next.Redraw? ==> c.attempt + 1 == c.leases == c.returned <= maxTries
    ensures Counted(After(c, next), maxTries) && Switches(After(c, next)) == Switches(c)
  {
  }

  lemma ReturnStepCounts(s: Sys, c: Client)
    requires c.pc.Returning? && ReturnStep(s, c).Some? && Counted(c, s.cfg.maxTries)
    requires c.pc.proxy.id !in s.evicted
    ensures CountsKept(s, c, ReturnStep(s, c).value)
  {
    var next := c.pc.next;
    AfterCounts(if next.Redraw? then c else c.(returned := c.returned + 1), next, s.cfg.maxTries);
  }

  lemma OwnStepCounts(s: Sys, c: Client, choice: Choice)
    requires !c.pc.Looking? && !c.pc.LastLook? && !c.pc.Returning? && OwnStep(s, c, choice).Some?
    requires Counted(c, s.cfg.maxTries)
    ensures var (pool, client) := OwnStep(s, c, choice).value;
            CountsKept(s, c, Effect(pool, client, s.evicted))
  {
    match c.pc
    case Announcing(next) => AfterCounts(c, next, s.cfg.maxTries);
    case _ =>
  }

  lemma ClientStepCounts(s: Sys, c: Client, choice: Choice)
    requires ClientStep(s, c, choice).Some? && Counted(c, s.cfg.maxTries)
    requires Held(c.pc) !! s.evicted
    ensures CountsKept(s, c, ClientStep(s, c, choice).value)
  {
    if c.pc.Looking? || c.pc.LastLook? {
      SelectStepCounts(s, c, choice.ctx.(scheme := c.scheme));
    } else if c.pc.Returning? {
      ReturnStepCounts(s, c);
    } else {
      OwnStepCounts(s, c, choice);
    }
  }

  lemma AllCountedUpdate(clients: seq<Client>, i: nat, c: Client, maxTries: nat)
    requires i < |clients| && AllCounted(clients, maxTries) && Counted(c, maxTries)
    ensures AllCounted(clients[i := c], maxTries)
  {
    var after := clients[i := c];
    forall j | 0 <= j < |after|
      ensures Counted(after[j], maxTries)
    {
      assert after[j] == if j == i then c else clients[j];
    }
  }

  lemma TalliedUpdate(s: Sys, i: nat, r: Effect)
    requires Tallied(s) && i < |s.clients| && CountsKept(s, s.clients[i], r)
    ensures Tallied(s.(pool := r.pool, clients := s.clients[i := r.client], evicted := r.evicted))
  {
    SwitchesUpdate(s.clients, i, r.client);
    AllCountedUpdate(s.clients, i, r.client, s.cfg.maxTries);
  }

  lemma TalliedClient(s: Sys, i: nat, choice: Choice)
    requires Conserved(s) && Tallied(s) && Apply(s, ClientMoves(i, choice)).Some?
    ensures Tallied(Apply(s, ClientMoves(i, choice)).value)
  {
    var c := s.clients[i];
    assert Counted(c, s.cfg.maxTries);
    SplitHeld(s.clients, i);
    ClientStepCounts(s, c, choice);
    TalliedUpdate(s, i, ClientStep(s, c, choice).value);
  }

  lemma TalliedConnect(s: Sys, scheme: Scheme)
    requires Tallied(s)
    ensures Tallied(Apply(s, Connect(scheme)).value)
  {
    var newcomer := Client(scheme, 0, 0, 0, Idle);
    assert (s.clients + [newcomer])[..|s.clients|] == s.clients;
    assert Counted(newcomer, s.cfg.maxTries);
    var t := s.(clients := s.clients + [newcomer]);
    forall i | 0 <= i < |t.clients|
      ensures Counted(t.clients[i], s.cfg.maxTries)
    {
      if i < |s.clients| { assert t.clients[i] == s.clients[i]; }
    }
  }

  /** The importer, the re-checker and `wait_ready` touch no client and no counter. */
  lemma OthersTallyNothing(s: Sys, e: Event)
    requires !e.ClientMoves? && !e.Connect? && Apply(s, e).Some?
    ensures var t := Apply(s, e).value;
            && t.clients == s.clients && t.cfg == s.cfg && t.evicted == s.evicted
            && t.pool.evictions == s.pool.evictions && t.pool.rotations == s.pool.rotations
  {
  }

  lemma TalliedStep(s: Sys, e: Event)
    requires Conserved(s) && Tallied(s) && Apply(s, e).Some?
    ensures Tallied(Apply(s, e).value)
  {
    match e
    case ClientMoves(i, choice) => TalliedClient(s, i, choice);
    case Connect(scheme) => TalliedConnect(s, scheme);
    case _ => OthersTallyNothing(s, e);
  }

  // ----- no lost wakeup -----

  /** No task is between a store the waiters care about and its `notify_waiters`. */
  predicate Quiet(s: Sys)
  {
    && !s.adding
    && !s.importer.ImportPushed? && !s.importer.SourceEnded?
    && forall i :: 0 <= i < |s.clients| ==> !s.clients[i].pc.Announcing?
  }

  /** What a client parked in `get` waits for: a serving proxy, benched included, or the end of the source. */
  predicate WorthWaking(s: Sys, scheme: Scheme)
  {
    s.pool.exhausted || !NoneServes(s.pool.items, scheme)
  }

  predicate ClientAwake(s: Sys, c: Client)
  {
    match c.pc
    case Looking(gen, _) => gen <= s.pool.wakeups
    case Missed(gen, _) =>
      gen <= s.pool.wakeups && (gen == s.pool.wakeups && Quiet(s) ==> NoneServes(s.pool.items, c.scheme))
    case Parked(gen, _) =>
      gen <= s.pool.wakeups && (gen == s.pool.wakeups && Quiet(s) ==> !WorthWaking(s, c.scheme))
    case _ => true
  }

  predicate WaiterAwake(s: Sys, w: Waiter)
  {
    match w.pc
    case WaitLooking(gen) => gen <= s.pool.wakeups
    case WaitMissed(gen) => gen <= s.pool.wakeups && (gen == s.pool.wakeups && Quiet(s) ==> |s.pool.items| < w.n)
    case WaitParked(gen) =>
      gen <= s.pool.wakeups && (gen == s.pool.wakeups && Quiet(s) ==> |s.pool.items| < w.n && !s.pool.exhausted)
    case _ => true
  }

  predicate Awake(s: Sys)
  {
    && (forall i :: 0 <= i < |s.clients| ==> ClientAwake(s, s.clients[i]))
    && (forall i :: 0 <= i < |s.waiters| ==> WaiterAwake(s, s.waiters[i]))
  }

  /**
   * How one step may change what waiters watch: the generation moved on, or the step left someone
   * about to notify, or nothing became available and quiet was not regained.
   */
  predicate Harmless(s: Sys, t: Sys)
  {
    || t.pool.wakeups > s.pool.wakeups
    || (t.pool.wakeups == s.pool.wakeups &&
        (!Quiet(t) ||
         (Quiet(s)
          && (forall x :: x in t.pool.items ==> x in s.pool.items)
          && |t.pool.items| <= |s.pool.items|
          && t.pool.exhausted == s.pool.exhausted)))
  }

  lemma NoneServesCarries(s: Sys, t: Sys, scheme: Scheme)
    requires NoneServes(s.pool.items, scheme) && forall x :: x in t.pool.items ==> x in s.pool.items
    ensures NoneServes(t.pool.items, scheme)
  {
    forall i | 0 <= i < |t.pool.items|
      ensures !t.pool.items[i].proxy.Serves(scheme)
    {
      assert t.pool.items[i] in s.pool.items;
    }
  }

  /** A bystander stays awake across any harmless step. */
  lemma BystanderAwake(s: Sys, t: Sys, c: Client)
    requires ClientAwake(s, c) && Harmless(s, t)
    ensures ClientAwake(t, c)
  {
    if t.pool.wakeups == s.pool.wakeups && Quiet(t) && NoneServes(s.pool.items, c.scheme) {
      NoneServesCarries(s, t, c.scheme);
    }
  }

  lemma BystanderWaiterAwake(s: Sys, t: Sys, w: Waiter)
    requires WaiterAwake(s, w) && Harmless(s, t)
    ensures WaiterAwake(t, w)
  {
  }

  lemma SelectionShrinks(items: seq<Pooled>, ctx: SelectCtx)
    ensures var r := AfterSelection(items, ctx);
            |r| <= |items| && forall x :: x in r ==> x in items
  {
    var best := BestFor(items, ctx);
    if best.Some? {
      var r := SwapRemove(items, best.value);
      forall x | x in r
        ensures x in items
      {
        assert x in multiset(r) + multiset{items[best.value]};
        assert x in multiset(items);
      }
    }
  }

  /** What a client's step does to the pool, as far as sleepers can tell. */
  lemma ClientStepHarmless(s: Sys, c: Client, choice: Choice)
    requires ClientStep(s, c, choice).Some?
    ensures var r := ClientStep(s, c, choice).value;
            if c.pc.Announcing? then r.pool.wakeups > s.pool.wakeups
            else
              && r.pool.wakeups == s.pool.wakeups
              && r.pool.exhausted == s.pool.exhausted
              && (r.client.pc.Announcing? ||
                  ((forall x :: x in r.pool.items ==> x in s.pool.items) && |r.pool.items| <= |s.pool.items|))
  {
    if c.pc.Looking? || c.pc.LastLook? {
      SelectionShrinks(s.pool.items, choice.ctx.(scheme := c.scheme));
    }
  }

  lemma ClientHarmless(s: Sys, i: nat, choice: Choice)
    requires Apply(s, ClientMoves(i, choice)).Some?
    ensures Harmless(s, Apply(s, ClientMoves(i, choice)).value)
  {
    var c := s.clients[i];
    var r := ClientStep(s, c, choice).value;
    var t := s.(pool := r.pool, clients := s.clients[i := r.client], evicted := r.evicted);
    ClientStepHarmless(s, c, choice);
    assert t.clients[i] == r.client;
    if !c.pc.Announcing? && Quiet(t) {
      forall j | 0 <= j < |s.clients|
        ensures !s.clients[j].pc.Announcing?
      {
        assert j != i ==> t.clients[j] == s.clients[j];
      }
    }
  }

  lemma MoverAwake(s: Sys, i: nat, choice: Choice)
    requires Apply(s, ClientMoves(i, choice)).Some? && ClientAwake(s, s.clients[i])
    ensures var t := Apply(s, ClientMoves(i, choice)).value;
            ClientAwake(t, t.clients[i])
  {
    var c := s.clients[i];
    if c.pc.Looking? {
      var ctx := choice.ctx.(scheme := c.scheme);
      BestForNoneIff(s.pool.items, ctx);
      assert Selected(s.pool.items, ctx).None? ==> NoneServes(s.pool.items, c.scheme);
    } else if c.pc.Missed? {
      MissedAwake(s, i, choice);
    }
  }

  lemma MissedAwake(s: Sys, i: nat, choice: Choice)
    requires i < |s.clients| && s.clients[i].pc.Missed? && ClientAwake(s, s.clients[i])
    requires Apply(s, ClientMoves(i, choice)).Some?
    ensures var t := Apply(s, ClientMoves(i, choice)).value;
            ClientAwake(t, t.clients[i])
  {
    var c := s.clients[i];
    var t := Apply(s, ClientMoves(i, choice)).value;
    ClientHarmless(s, i, choice);
    if Quiet(t) && c.pc.gen == t.pool.wakeups {
      assert t.pool == s.pool;
      assert NoneServes(s.pool.items, c.scheme);
    }
  }

  lemma WithoutHarmless(s: Sys, addr: Addr)
    requires Apply(s, RemoveAt(addr)).Some?
    ensures Harmless(s, Apply(s, RemoveAt(addr)).value)
  {
    var t := Apply(s, RemoveAt(addr)).value;
    assert Quiet(t) ==> Quiet(s);
  }

  lemma AwakeStep(s: Sys, e: Event)
    requires Awake(s) && Apply(s, e).Some?
    ensures Awake(Apply(s, e).value)
  {
    var t := Apply(s, e).value;
    assert Harmless(s, t) by {
      match e
      case ClientMoves(i, choice) => ClientHarmless(s, i, choice);
      case RemoveAt(addr) => WithoutHarmless(s, addr);
      case Connect(scheme) =>
        if Quiet(t) {
          forall i | 0 <= i < |s.clients|
            ensures !s.clients[i].pc.Announcing?
          {
            assert t.clients[i] == s.clients[i];
          }
        }
      case _ =>
    }
    forall j | 0 <= j < |t.clients|
      ensures ClientAwake(t, t.clients[j])
    {
      if e.ClientMoves? && e.i == j {
        MoverAwake(s, j, e.choice);
      } else if j < |s.clients| {
        BystanderAwake(s, t, s.clients[j]);
      }
    }
    forall j | 0 <= j < |t.waiters|
      ensures WaiterAwake(t, t.waiters[j])
    {
      if j < |s.waiters| {
        BystanderWaiterAwake(s, t, s.waiters[j]);
      }
    }
  }

  // ----- over whole runs -----

  ghost predicate Inv(s: Sys)
  {
    Conserved(s) && Tallied(s) && Awake(s)
  }

  lemma {:induction false} InvAlways(s: Sys, events: seq<Event>)
    requires Inv(s) && Run(s, events).Some?
    ensures Inv(Run(s, events).value)
  {
    if events != [] {
      var n := |events| - 1;
      InvAlways(s, events[..n]);
      var before := Run(s, events[..n]).value;
      ConservedStep(before, events[n]);
      TalliedStep(before, events[n]);
      AwakeStep(before, events[n]);
    }
  }

  /** A system the server can start from: a spawned pool or a prefilled one. */
  predicate Initial(s: Sys)
  {
    || s == Spawned(s.cfg)
    || (NoDup(s.pool.items) && s == FromItems(s.cfg, s.pool.items))
  }

  lemma InitialInv(s: Sys)
    requires Initial(s)
    ensures Inv(s)
  {
    assert HeldIds([]) == {};
  }

  /** Lease conservation in every reachable state. */
  lemma LeasesConserved(s: Sys, events: seq<Event>)
    requires Initial(s) && Run(s, events).Some?
    ensures var t := Run(s, events).value;
            && t.admitted == Ids(t.pool.items) + HeldIds(t.clients) + t.evicted + t.removed
            && Apart(Ids(t.pool.items), HeldIds(t.clients), t.evicted, t.removed)
            && |t.admitted| == |t.pool.items| + |HeldIds(t.clients)| + |t.evicted| + |t.removed|
            && t.pool.evictions == |t.evicted|
  {
    InitialInv(s);
    InvAlways(s, events);
    var t := Run(s, events).value;
    IdsSize(t.pool.items);
  }

  lemma {:induction false} IdsSize(items: seq<Pooled>)
    requires NoDup(items)
    ensures |Ids(items)| == |items|
  {
    if items != [] {
      var n := |items| - 1;
      IdsSize(items[..n]);
      var last := items[n];
      assert items == items[..n] + [last];
      forall x | x in items[..n]
        ensures x.proxy.id != last.proxy.id
      {
        var j :| 0 <= j < n && items[..n][j] == x;
        assert items[j] == x;
      }
      PushIds(items[..n], last.proxy, last.blockedUntil);
    }
  }

  /**
   * Every lease `handle_client` takes is given back exactly once before it takes the next one or
   * returns; it takes at most `max_tries`; and the rotation counter is the number of switches.
   */
  lemma LeasesReturned(s: Sys, events: seq<Event>, i: nat)
    requires Initial(s) && Run(s, events).Some? && i < |Run(s, events).value.clients|
    ensures var t := Run(s, events).value;
            var c := t.clients[i];
            && c.leases <= t.cfg.maxTries
            && c.returned <= c.leases <= c.returned + 1
            && ((c.pc.Idle? || c.pc.Top? || c.pc.Looking? || c.pc.Missed? || c.pc.LastLook? || c.pc.Parked?
                 || c.pc.Done? || c.pc.Refused?) ==> c.returned == c.leases && Held(c.pc) == {})
            && (c.leases == c.returned + 1 ==> Held(c.pc) != {})
            && (c.pc.Probing? ==> c.pc.draws < VERIFY_MAX_ATTEMPTS)
            && t.pool.rotations == TotalSwitches(t.clients)
  {
    InitialInv(s);
    InvAlways(s, events);
    assert Counted(Run(s, events).value.clients[i], Run(s, events).value.cfg.maxTries);
  }

  /**
   * No lost wakeup: in any reachable state where no notification is owed, a client that awaits the
   * current generation has nothing to take, benched proxies included, and the source is still live.
   */
  lemma NoLostWakeup(s: Sys, events: seq<Event>, i: nat)
    requires Initial(s) && Run(s, events).Some? && i < |Run(s, events).value.clients|
    requires var t := Run(s, events).value;
             Quiet(t) && t.clients[i].pc.Parked? && t.clients[i].pc.gen == t.pool.wakeups
    ensures var t := Run(s, events).value;
            !t.pool.exhausted && forall x :: x in t.pool.items ==> !x.proxy.Serves(t.clients[i].scheme)
  {
    InitialInv(s);
    InvAlways(s, events);
    assert ClientAwake(Run(s, events).value, Run(s, events).value.clients[i]);
  }

  /** The same for `wait_ready`: it sleeps only below its threshold with a live source. */
  lemma NoLostReadiness(s: Sys, events: seq<Event>, i: nat)
    requires Initial(s) && Run(s, events).Some? && i < |Run(s, events).value.waiters|
    requires var t := Run(s, events).value;
             Quiet(t) && t.waiters[i].pc.WaitParked? && t.waiters[i].pc.gen == t.pool.wakeups
    ensures var t := Run(s, events).value;
            !t.pool.exhausted && |t.pool.items| < t.waiters[i].n
  {
    InitialInv(s);
    InvAlways(s, events);
    assert WaiterAwake(Run(s, events).value, Run(s, events).value.waiters[i]);
  }

  // ----- a sleeper with something to take is always woken -----

  lemma Extend(s: Sys, events: seq<Event>, e: Event)
    requires Run(s, events).Some?
    ensures Run(s, events + [e]) == Apply(Run(s, events).value, e)
  {
    assert (events + [e])[..|events|] == events;
  }

  /** The steps that call `notify_waiters`. */
  predicate Notifies(s: Sys, e: Event)
  {
    e.AddNotifies? || e.ImporterNotifies? || (e.ClientMoves? && e.i < |s.clients| && s.clients[e.i].pc.Announcing?)
  }

  /** An owed notification can be made at once, and lets go of `add`'s lock. */
  lemma OwedNotification(s: Sys, choice: Choice) returns (e: Event)
    requires !Quiet(s)
    ensures Notifies(s, e)
    ensures Apply(s, e).Some?
    ensures var t := Apply(s, e).value;
            && t.pool == Notify(s.pool) && !t.adding && t.waiters == s.waiters && |t.clients| == |s.clients|
            && forall i :: 0 <= i < |s.clients| && !s.clients[i].pc.Announcing? ==> t.clients[i] == s.clients[i]
  {
    if s.adding {
      e := AddNotifies;
    } else if s.importer.ImportPushed? || s.importer.SourceEnded? {
      e := ImporterNotifies;
    } else {
      var i :| 0 <= i < |s.clients| && s.clients[i].pc.Announcing?;
      e := ClientMoves(i, choice);
    }
  }

  /** A client that sleeps on the current generation next to something to take is owed a notification. */
  lemma OwedWakeup(s: Sys, events: seq<Event>, i: nat, choice: Choice) returns (e: Event)
    requires Initial(s) && Run(s, events).Some? && i < |Run(s, events).value.clients|
    requires var t := Run(s, events).value;
             t.clients[i].pc.Parked? && t.clients[i].pc.gen == t.pool.wakeups && WorthWaking(t, t.clients[i].scheme)
    ensures var t := Run(s, events).value;
            Notifies(t, e) && Apply(t, e).Some? && Apply(t, e).value.pool.wakeups > t.pool.wakeups
  {
    InitialInv(s);
    InvAlways(s, events);
    var t := Run(s, events).value;
    assert ClientAwake(t, t.clients[i]);
    e := OwedNotification(t, choice);
  }

  /** The same for `wait_ready`. */
  lemma OwedReadiness(s: Sys, events: seq<Event>, i: nat, choice: Choice) returns (e: Event)
    requires Initial(s) && Run(s, events).Some? && i < |Run(s, events).value.waiters|
    requires var t := Run(s, events).value;
             && t.waiters[i].pc.WaitParked? && t.waiters[i].pc.gen == t.pool.wakeups
             && (t.pool.exhausted || |t.pool.items| >= t.waiters[i].n)
    ensures var t := Run(s, events).value;
            Notifies(t, e) && Apply(t, e).Some? && Apply(t, e).value.pool.wakeups > t.pool.wakeups
  {
    InitialInv(s);
    InvAlways(s, events);
    var t := Run(s, events).value;
    assert WaiterAwake(t, t.waiters[i]);
    e := OwedNotification(t, choice);
  }

  /** At most one notification lets a parked client go on. */
  lemma Woken(s: Sys, events: seq<Event>, i: nat, choice: Choice) returns (longer: seq<Event>)
    requires Initial(s) && Run(s, events).Some? && i < |Run(s, events).value.clients|
    requires var t := Run(s, events).value;
             t.clients[i].pc.Parked? && WorthWaking(t, t.clients[i].scheme)
    ensures events <= longer && |longer| <= |events| + 1 && Run(s, longer).Some?
    ensures var (t, u) := (Run(s, events).value, Run(s, longer).value);
            && |u.clients| == |t.clients| && u.clients[i] == t.clients[i] && !u.adding
            && u.clients[i].pc.gen != u.pool.wakeups
            && u.pool.items == t.pool.items && u.pool.exhausted == t.pool.exhausted
  {
    InitialInv(s);
    InvAlways(s, events);
    var t := Run(s, events).value;
    assert ClientAwake(t, t.clients[i]);
    longer := events;
    if t.adding || t.clients[i].pc.gen == t.pool.wakeups {
      var e := OwedNotification(t, choice);
      Extend(s, events, e);
      longer := events + [e];
    }
  }

  /** A client's own step that leaves the pool as it is. */
  lemma OwnMove(s: Sys, events: seq<Event>, i: nat, choice: Choice)
    requires Run(s, events).Some? && i < |Run(s, events).value.clients|
    requires var c := Run(s, events).value.clients[i];
             !c.pc.Looking? && !c.pc.LastLook? && !c.pc.Returning?
             && OwnStep(Run(s, events).value, c, choice).Some?
    ensures var t := Run(s, events).value;
            var (pool, client) := OwnStep(t, t.clients[i], choice).value;
            Run(s, events + [ClientMoves(i, choice)]) == Some(t.(pool := pool, clients := t.clients[i := client]))
  {
    Extend(s, events, ClientMoves(i, choice));
  }

  /** Where a look at the pool leads a client. */
  lemma LookMove(s: Sys, events: seq<Event>, i: nat, choice: Choice)
    requires Run(s, events).Some? && i < |Run(s, events).value.clients| && !Run(s, events).value.adding
    requires var c := Run(s, events).value.clients[i]; c.pc.Looking? || c.pc.LastLook?
    ensures var r := Run(s, events + [ClientMoves(i, choice)]);
            var t := Run(s, events).value;
            var c := t.clients[i];
            && r.Some? && |r.value.clients| == |t.clients|
            && if NoneServes(t.pool.items, c.scheme)
               then r == Some(t.(clients := t.clients[i := c.(pc := Drawn(t.cfg, c.pc, None))]))
               else HoldsServing(r.value.clients[i])
  {
    Extend(s, events, ClientMoves(i, choice));
    var t := Run(s, events).value;
    LookFinds(t, t.clients[i], choice.ctx.(scheme := t.clients[i].scheme));
  }

  /** A selection hands out a serving proxy whenever there is one. */
  lemma LookFinds(t: Sys, c: Client, ctx: SelectCtx)
    requires !t.adding && (c.pc.Looking? || c.pc.LastLook?) && ctx.scheme == c.scheme
    ensures SelectStep(t, c, ctx).Some?
    ensures var r := SelectStep(t, c, ctx).value;
            if NoneServes(t.pool.items, c.scheme)
            then r == Effect(t.pool, c.(pc := Drawn(t.cfg, c.pc, None)), t.evicted)
            else HoldsServing(r.client)
  {
    BestForNoneIff(t.pool.items, ctx);
    var best := BestFor(t.pool.items, ctx);
    if best.Some? { RankedTierMembers(t.pool.items, ctx, best.value); }
  }

  /** The client has been handed a proxy that serves its request, to probe first or to use. */
  predicate HoldsServing(c: Client)
  {
    match c.pc
    case Probing(p, _) => p.Serves(c.scheme)
    case Leased(p) => p.Serves(c.scheme)
    case _ => false
  }

  /** A client whose generation is over looks at the same pool again in two steps. */
  lemma LooksAgain(s: Sys, events: seq<Event>, i: nat, choice: Choice) returns (longer: seq<Event>)
    requires Run(s, events).Some? && i < |Run(s, events).value.clients|
    requires var t := Run(s, events).value;
             t.clients[i].pc.Parked? && t.clients[i].pc.gen != t.pool.wakeups
    ensures events <= longer && |longer| == |events| + 2 && Run(s, longer).Some?
    ensures var (t, u) := (Run(s, events).value, Run(s, longer).value);
            && |u.clients| == |t.clients| && u.pool == t.pool && u.adding == t.adding
            && u.clients[i].pc.Looking? && u.clients[i].scheme == t.clients[i].scheme
  {
    var c := Run(s, events).value.clients[i];
    OwnMove(s, events, i, choice);
    longer := events + [ClientMoves(i, choice)];
    assert Run(s, longer).value.clients[i] == c.(pc := Top(c.pc.draws));
    OwnMove(s, longer, i, choice);
    longer := longer + [ClientMoves(i, choice)];
  }

  /** A client that found nothing after the end of the source takes its last look and is refused. */
  lemma LooksLast(s: Sys, events: seq<Event>, i: nat, choice: Choice) returns (longer: seq<Event>)
    requires Run(s, events).Some? && i < |Run(s, events).value.clients| && !Run(s, events).value.adding
    requires var t := Run(s, events).value;
             t.clients[i].pc.Missed? && t.pool.exhausted && NoneServes(t.pool.items, t.clients[i].scheme)
    ensures events <= longer && |longer| == |events| + 2 && Run(s, longer).Some?
    ensures var u := Run(s, longer).value; i < |u.clients| && u.clients[i].pc.Refused?
  {
    OwnMove(s, events, i, choice);
    LookMove(s, events + [ClientMoves(i, choice)], i, choice);
    longer := events + [ClientMoves(i, choice)] + [ClientMoves(i, choice)];
  }

  /**
   * No client has to sleep next to something to take: from every reachable state there is a way on,
   * of at most six steps, on which the parked client draws a serving proxy if one is pooled and is
   * refused if none is and the source has ended, whatever the clock, the pin and the draw are.
   */
  lemma ParkedMovesOn(s: Sys, events: seq<Event>, i: nat, choice: Choice) returns (longer: seq<Event>)
    requires Initial(s) && Run(s, events).Some? && i < |Run(s, events).value.clients|
    requires var t := Run(s, events).value;
             t.clients[i].pc.Parked? && WorthWaking(t, t.clients[i].scheme)
    ensures events <= longer && |longer| <= |events| + 6 && Run(s, longer).Some?
    ensures var (t, u) := (Run(s, events).value, Run(s, longer).value);
            && i < |u.clients|
            && if NoneServes(t.pool.items, t.clients[i].scheme) then u.clients[i].pc.Refused?
               else HoldsServing(u.clients[i])
  {
    var woken := Woken(s, events, i, choice);
    longer := LooksAgain(s, woken, i, choice);
    LookMove(s, longer, i, choice);
    longer := longer + [ClientMoves(i, choice)];
    if NoneServes(Run(s, events).value.pool.items, Run(s, events).value.clients[i].scheme) {
      longer := LooksLast(s, longer, i, choice);
    }
  }

  /** A step of `wait_ready`. */
  lemma WaiterMove(s: Sys, events: seq<Event>, i: nat)
    requires Run(s, events).Some? && i < |Run(s, events).value.waiters|
    requires WaiterStep(Run(s, events).value, Run(s, events).value.waiters[i]).Some?
    ensures var t := Run(s, events).value;
            var r := Run(s, events + [WaiterMoves(i)]);
            r == Some(t.(waiters := t.waiters[i := WaiterStep(t, t.waiters[i]).value]))
  {
    Extend(s, events, WaiterMoves(i));
  }

  /** How many steps an awake `wait_ready` is from its return. */
  function StepsLeft(pc: WaiterPc): nat
  {
    match pc case WaitTop => 3 case WaitLooking(_) => 2 case WaitMissed(_) => 1 case _ => 0
  }

  /** An awake `wait_ready` whose condition holds returns. */
  lemma {:induction false} WaiterReturns(s: Sys, events: seq<Event>, i: nat) returns (longer: seq<Event>)
    requires Run(s, events).Some? && i < |Run(s, events).value.waiters| && !Run(s, events).value.adding
    requires var t := Run(s, events).value;
             var w := t.waiters[i];
             !w.pc.WaitParked? && (t.pool.exhausted || (!w.pc.WaitMissed? && |t.pool.items| >= w.n))
    ensures events <= longer && |longer| <= |events| + StepsLeft(Run(s, events).value.waiters[i].pc)
    ensures Run(s, longer).Some?
    ensures var u := Run(s, longer).value; i < |u.waiters| && u.waiters[i].pc.WaitOver?
    decreases StepsLeft(Run(s, events).value.waiters[i].pc)
  {
    longer := events;
    if !Run(s, events).value.waiters[i].pc.WaitOver? {
      WaiterMove(s, events, i);
      longer := WaiterReturns(s, events + [WaiterMoves(i)], i);
    }
  }

  /** A parked `wait_ready` whose condition holds has a way to its return, of at most five steps. */
  lemma WaiterMovesOn(s: Sys, events: seq<Event>, i: nat, choice: Choice) returns (longer: seq<Event>)
    requires Initial(s) && Run(s, events).Some? && i < |Run(s, events).value.waiters|
    requires var t := Run(s, events).value;
             t.waiters[i].pc.WaitParked? && (t.pool.exhausted || |t.pool.items| >= t.waiters[i].n)
    ensures events <= longer && |longer| <= |events| + 5 && Run(s, longer).Some?
    ensures var u := Run(s, longer).value; i < |u.waiters| && u.waiters[i].pc.WaitOver?
  {
    var woken := WaiterWoken(s, events, i, choice);
    WaiterMove(s, woken, i);
    longer := WaiterReturns(s, woken + [WaiterMoves(i)], i);
  }

  /** At most one notification lets a parked `wait_ready` go on. */
  lemma WaiterWoken(s: Sys, events: seq<Event>, i: nat, choice: Choice) returns (longer: seq<Event>)
    requires Initial(s) && Run(s, events).Some? && i < |Run(s, events).value.waiters|
    requires var t := Run(s, events).value;
             t.waiters[i].pc.WaitParked? && (t.pool.exhausted || |t.pool.items| >= t.waiters[i].n)
    ensures events <= longer && |longer| <= |events| + 1 && Run(s, longer).Some?
    ensures var (t, u) := (Run(s, events).value, Run(s, longer).value);
            && u.waiters == t.waiters && !u.adding && u.waiters[i].pc.gen != u.pool.wakeups
            && u.pool.items == t.pool.items && u.pool.exhausted == t.pool.exhausted
  {
    InitialInv(s);
    InvAlways(s, events);
    var t := Run(s, events).value;
    assert WaiterAwake(t, t.waiters[i]);
    longer := events;
    if t.adding || t.waiters[i].pc.gen == t.pool.wakeups {
      var e := OwedNotification(t, choice);
      Extend(s, events, e);
      longer := events + [e];
    }
  }

  // ----- such states are reached -----

  /** A client of a freshly spawned pool parks in five steps, with no notification owed. */
  lemma ParkedReached(cfg: PoolConfig, scheme: Scheme, choice: Choice) returns (events: seq<Event>)
    requires cfg.maxTries > 0
    ensures |events| == 5 && Run(Spawned(cfg), events).Some?
    ensures var t := Run(Spawned(cfg), events).value;
            Quiet(t) && t.clients == [Client(scheme, 0, 0, 0, Parked(t.pool.wakeups, 0))]
  {
    var (s, move) := (Spawned(cfg), ClientMoves(0, choice));
    Extend(s, [], Connect(scheme));
    var connected := [] + [Connect(scheme)];
    OwnMove(s, connected, 0, choice);
    OwnMove(s, connected + [move], 0, choice);
    LookMove(s, connected + [move] + [move], 0, choice);
    OwnMove(s, connected + [move] + [move] + [move], 0, choice);
    events := connected + [move] + [move] + [move] + [move];
  }

  lemma OnlyWaiterMoves(t: Sys, w: Waiter)
    requires t.waiters == [w] && WaiterStep(t, w).Some?
    ensures Apply(t, WaiterMoves(0)) == Some(t.(waiters := [WaiterStep(t, w).value]))
  {
    assert [w][0 := WaiterStep(t, w).value] == [WaiterStep(t, w).value];
  }

  /** Three moves park the only `wait_ready` of a system without enough proxies. */
  lemma WaiterParks(s: Sys, events: seq<Event>, n: nat) returns (longer: seq<Event>)
    requires Run(s, events).Some? && Run(s, events).value.waiters == [Waiter(n, WaitTop)]
    requires var t := Run(s, events).value; !t.adding && !t.pool.exhausted && |t.pool.items| < n
    ensures |longer| == |events| + 3
    ensures var t := Run(s, events).value;
            Run(s, longer) == Some(t.(waiters := [Waiter(n, WaitParked(t.pool.wakeups))]))
  {
    var t := Run(s, events).value;
    var gen := t.pool.wakeups;
    OnlyWaiterMoves(t, Waiter(n, WaitTop));
    Extend(s, events, WaiterMoves(0));
    longer := events + [WaiterMoves(0)];
    OnlyWaiterMoves(t.(waiters := [Waiter(n, WaitLooking(gen))]), Waiter(n, WaitLooking(gen)));
    Extend(s, longer, WaiterMoves(0));
    longer := longer + [WaiterMoves(0)];
    OnlyWaiterMoves(t.(waiters := [Waiter(n, WaitMissed(gen))]), Waiter(n, WaitMissed(gen)));
    Extend(s, longer, WaiterMoves(0));
    longer := longer + [WaiterMoves(0)];
  }

  lemma SpawnedWaits(cfg: PoolConfig, n: nat)
    ensures Apply(Spawned(cfg), StartWaiting(n)) == Some(Spawned(cfg).(waiters := [Waiter(n, WaitTop)]))
  {
    assert Spawned(cfg).waiters + [Waiter(n, WaitTop)] == [Waiter(n, WaitTop)];
  }

  /** So does a `wait_ready` for any number of proxies, in four. */
  lemma WaitReached(cfg: PoolConfig, n: nat) returns (events: seq<Event>)
    requires n > 0
    ensures |events| == 4 && Run(Spawned(cfg), events).Some?
    ensures var t := Run(Spawned(cfg), events).value;
            Quiet(t) && t.waiters == [Waiter(n, WaitParked(t.pool.wakeups))]
  {
    Extend(Spawned(cfg), [], StartWaiting(n));
    SpawnedWaits(cfg, n);
    events := WaiterParks(Spawned(cfg), [] + [StartWaiting(n)], n);
  }
}
