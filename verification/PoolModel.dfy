/** `src/server.rs`: the shared pool, its transitions as functions and the object that performs them. */
module PoolModel {
  import opened Prelude
  import opened Proxies
  import opened Selection

  datatype PoolConfig = PoolConfig(
    maxTries: nat,
    maxErrorRate: real,
    maxRespTime: real,
    minReq: nat,
    countries: Option<set<string>>,
    strategy: Strategy,
    maxSessions: nat,
    failTimeout: real,
    preferConnect: bool,
    allowedCodes: Option<seq<int>>,
    verifyOnLease: bool)

  datatype ClientKey = PeerIp(ip: Host) | HeaderKey(value: string)

  /** The part of the pool that is shared between tasks. `wakeups` counts `notify_waiters` calls. */
  datatype PoolState = PoolState(
    items: seq<Pooled>, exhausted: bool, evictions: nat, rotations: nat, wakeups: nat)

  function UpperChar(c: char): char
  {
    if 'a' <= c <= 'z' then (c as int - 'a' as int + 'A' as int) as char else c
  }

  function Upper(s: string): string
  {
    seq(|s|, i requires 0 <= i < |s| => UpperChar(s[i]))
  }

  /** `country_ok`: no filter admits all; a filter rejects a proxy without a country. */
  predicate CountryOk(p: Proxy, countries: Option<set<string>>)
  {
    countries.None? || (p.country.Some? && Upper(p.country.value) in countries.value)
  }

  /** `Vec::swap_remove`: the last element takes the removed one's place. */
  function SwapRemove(s: seq<Pooled>, i: nat): (r: seq<Pooled>)
    requires i < |s|
    ensures |r| == |s| - 1 && forall j :: 0 <= j < |r| ==> r[j] == if j == i then s[|s| - 1] else s[j]
    ensures multiset(r) + multiset{s[i]} == multiset(s)
  {
    var n := |s| - 1;
    assert s == s[..n] + [s[n]];
    if i == n then s[..n]
    else
      assert s[..n] == s[..i] + [s[i]] + s[i + 1..n];
      s[..i] + [s[n]] + s[i + 1..n]
  }

  /** The proxy a selection hands out, and the pool it leaves behind. */
  function Selected(items: seq<Pooled>, ctx: SelectCtx): Option<Proxy>
  {
    var best := BestFor(items, ctx);
    if best.None? then None else Some(items[best.value].proxy)
  }

  function AfterSelection(items: seq<Pooled>, ctx: SelectCtx): seq<Pooled>
  {
    var best := BestFor(items, ctx);
    if best.None? then items else SwapRemove(items, best.value)
  }

  /** Dropped rather than pooled: past the grace count and too error-prone or too slow. */
  predicate Unhealthy(cfg: PoolConfig, p: Proxy)
  {
    p.requests >= cfg.minReq && (p.ErrorRate() > cfg.maxErrorRate || p.AvgRespTime() > cfg.maxRespTime)
  }

  function Push(s: PoolState, p: Proxy, blockedUntil: Option<real>): PoolState
  {
    s.(items := s.items + [Pooled(p, blockedUntil)])
  }

  function Notify(s: PoolState): PoolState
  {
    s.(wakeups := s.wakeups + 1)
  }

  function Evict(s: PoolState): PoolState
  {
    s.(evictions := s.evictions + 1)
  }

  function Without(items: seq<Pooled>, addr: Addr): (r: seq<Pooled>)
    ensures forall x :: x in r <==> x in items && x.proxy.Address() != addr
    ensures |r| <= |items|
    ensures |r| == |items| <==> forall x :: x in items ==> x.proxy.Address() != addr
  {
    if items == [] then []
    else
      var rest := Without(items[1..], addr);
      assert items == [items[0]] + items[1..];
      if items[0].proxy.Address() == addr then rest else [items[0]] + rest
  }

  predicate Holds(items: seq<Pooled>, addr: Addr)
  {
    exists i :: 0 <= i < |items| && items[i].proxy.Address() == addr
  }

  /** The proxies that pass the country filter, in order and ready. */
  function Screened(proxies: seq<Proxy>, countries: Option<set<string>>): seq<Pooled>
  {
    if proxies == [] then []
    else
      var p := proxies[|proxies| - 1];
      Screened(proxies[..|proxies| - 1], countries) + (if CountryOk(p, countries) then [Pooled(p, None)] else [])
  }

  predicate NoneServes(items: seq<Pooled>, scheme: Scheme)
  {
    forall i :: 0 <= i < |items| ==> !items[i].proxy.Serves(scheme)
  }

  function Addresses(items: seq<Pooled>): set<Addr>
  {
    set x | x in items :: x.proxy.Address()
  }

  /**
   * The session map after pinning `key`: the pin is there, every other pin is an old one, and an
   * old pin is missing only when a full map had to admit a new client, at the cost of exactly one.
   */
  ghost predicate Pinned(before: map<ClientKey, Addr>, key: ClientKey, addr: Addr, maxSessions: nat,
                         after: map<ClientKey, Addr>)
  {
    && key in after && after[key] == addr
    && (forall k :: k in after && k != key ==> k in before && after[k] == before[k])
    && (if key in before || |before| < maxSessions || before == map[]
        then after == before[key := addr]
        else |after| == |before|)
  }

  /** `Pool`: the vector behind its mutex, the sticky sessions, the cursor and the counters. */
  class Pool {
    const config: PoolConfig
    var state: seq<Pooled>
    var sessions: map<ClientKey, Addr>
    var roundRobin: nat
    var exhausted: bool
    var evictions: nat
    var rotations: nat
    var wakeups: nat
    /** Every (client, address) pair for which a proxy has left the pool. */
    ghost var leasedTo: set<(ClientKey, Addr)>

    /** The session map is bounded and every pin is an address once leased to that client. */
    ghost predicate Valid()
      reads this`sessions, this`leasedTo
    {
      && |sessions| <= (if config.maxSessions > 1 then config.maxSessions else 1)
      && forall k :: k in sessions ==> (k, sessions[k]) in leasedTo
    }

    function Abs(): PoolState
      reads this`state, this`exhausted, this`evictions, this`rotations, this`wakeups
    {
      PoolState(state, exhausted, evictions, rotations, wakeups)
    }

    /** The context of one selection, read from the current cursor and pin. */
    function Context(scheme: Scheme, key: ClientKey, now: real, random: nat): SelectCtx
      reads this`sessions, this`roundRobin
    {
      SelectCtx(scheme, config.strategy,
                if config.strategy == Sticky && key in sessions then Some(sessions[key]) else None,
                roundRobin, now, config.preferConnect, random)
    }

    /** `from_proxies`: a fixed set, screened by country, with no importer behind it. */
    constructor FromProxies(proxies: seq<Proxy>, cfg: PoolConfig)
      ensures Valid() && config == cfg
      ensures exhausted && evictions == rotations == 0 && sessions == map[]
      ensures state == Screened(proxies, cfg.countries)
      ensures forall p :: p in proxies && CountryOk(p, cfg.countries) <==> Pooled(p, None) in state
      ensures forall x :: x in state ==> x.blockedUntil.None?
    {
      config := cfg;
      sessions, roundRobin := map[], 0;
      exhausted, evictions, rotations, wakeups := true, 0, 0, 0;
      leasedTo := {};
      state := [];
      new;
      var i := 0;
      while i < |proxies|
        invariant 0 <= i <= |proxies|
        invariant Valid() && exhausted && evictions == rotations == 0 && sessions == map[]
        invariant state == Screened(proxies[..i], cfg.countries)
        invariant forall p :: p in proxies[..i] && CountryOk(p, cfg.countries) <==> Pooled(p, None) in state
        invariant forall x :: x in state ==> x.blockedUntil.None?
      {
        assert proxies[..i + 1][..i] == proxies[..i];
        if CountryOk(proxies[i], cfg.countries) {
          state := state + [Pooled(proxies[i], None)];
        }
        i := i + 1;
      }
      assert proxies[..i] == proxies;
    }

    /** The critical section of a selection: rank, and take the chosen one out for this client. */
    method TakeBest(ctx: SelectCtx, key: ClientKey) returns (chosen: Option<Proxy>)
      modifies this`state, this`leasedTo
      ensures leasedTo == old(leasedTo) + (if chosen.Some? then {(key, chosen.value.Address())} else {})
      ensures chosen.None? <==> NoneServes(old(state), ctx.scheme)
      ensures chosen == Selected(old(state), ctx) && state == AfterSelection(old(state), ctx)
    {
      var idx := BestFor(state, ctx);
      BestForNoneIff(state, ctx);
      if idx.None? {
        return None;
      }
      chosen := Some(state[idx.value].proxy);
      state := SwapRemove(state, idx.value);
      leasedTo := leasedTo + {(key, chosen.value.Address())};
    }

    /** One selection: pick by `BestFor`, take it out, advance the cursor or record the pin. */
    method TrySelect(scheme: Scheme, key: ClientKey, now: real, random: nat) returns (chosen: Option<Proxy>)
      requires Valid()
      modifies this`state, this`roundRobin, this`sessions, this`leasedTo
      ensures Valid()
      ensures chosen.None? <==> NoneServes(old(state), scheme)
      ensures var ctx := old(Context(scheme, key, now, random));
              chosen == Selected(old(state), ctx) && state == AfterSelection(old(state), ctx)
      ensures roundRobin == old(roundRobin) + (if chosen.Some? && config.strategy == RoundRobin then 1 else 0)
      ensures if chosen.Some? && config.strategy == Sticky
              then Pinned(old(sessions), key, chosen.value.Address(), config.maxSessions, sessions)
              else sessions == old(sessions)
      ensures leasedTo == old(leasedTo) + (if chosen.Some? then {(key, chosen.value.Address())} else {})
    {
      var ctx := Context(scheme, key, now, random);
      chosen := TakeBest(ctx, key);
      if chosen.Some? {
        Account(key, chosen.value.Address());
      }
    }

    /** What a successful selection leaves behind besides the proxy: the cursor and the pin. */
    method Account(key: ClientKey, addr: Addr)
      requires Valid() && (key, addr) in leasedTo
      modifies this`roundRobin, this`sessions
      ensures Valid()
      ensures roundRobin == old(roundRobin) + (if config.strategy == RoundRobin then 1 else 0)
      ensures if config.strategy == Sticky then Pinned(old(sessions), key, addr, config.maxSessions, sessions)
              else sessions == old(sessions)
    {
      if config.strategy == RoundRobin {
        roundRobin := roundRobin + 1;
      }
      if config.strategy == Sticky {
        RecordSession(key, addr);
      }
    }

    /** Record a pin; a full map drops one arbitrary other pin to admit a new client. */
    method RecordSession(key: ClientKey, addr: Addr)
      requires Valid() && (key, addr) in leasedTo
      modifies this`sessions
      ensures Valid()
      ensures Pinned(old(sessions), key, addr, config.maxSessions, sessions)
    {
      if |sessions| >= config.maxSessions && key !in sessions {
        if |sessions| > 0 {
          assert sessions.Keys != {};
          var k :| k in sessions;
          SizeWithout(sessions, k);
          sessions := sessions - {k};
        }
      }
      SizeWith(sessions, key, addr);
      sessions := sessions[key := addr];
    }

    /** Return a proxy with a bench state, or drop it when it has become unhealthy. */
    method PutInner(proxy: Proxy, blockedUntil: Option<real>)
      requires Valid()
      modifies this`state, this`evictions, this`wakeups
      ensures Valid()
      ensures Abs() == if Unhealthy(config, proxy) then Evict(old(Abs()))
                       else Notify(Push(old(Abs()), proxy, blockedUntil))
    {
      var unhealthy := proxy.requests >= config.minReq
        && (proxy.ErrorRate() > config.maxErrorRate || proxy.AvgRespTime() > config.maxRespTime);
      if unhealthy {
        evictions := evictions + 1;
        return;
      }
      state := state + [Pooled(proxy, blockedUntil)];
      wakeups := wakeups + 1;
    }

    method PutOk(proxy: Proxy)
      requires Valid()
      modifies this`state, this`evictions, this`wakeups
      ensures Valid()
      ensures !Unhealthy(config, proxy) ==> forall now :: Ready(Pooled(proxy, None), now) && Pooled(proxy, None) in state
      ensures Abs() == if Unhealthy(config, proxy) then Evict(old(Abs()))
                       else Notify(Push(old(Abs()), proxy, None))
    {
      PutInner(proxy, None);
    }

    method PutFailed(proxy: Proxy, now: real)
      requires Valid()
      modifies this`state, this`evictions, this`wakeups
      ensures Valid()
      ensures Abs() == if Unhealthy(config, proxy) then Evict(old(Abs()))
                       else Notify(Push(old(Abs()), proxy, Some(now + config.failTimeout)))
    {
      var until := now + config.failTimeout;
      PutInner(proxy, Some(until));
    }

    /** Drop every proxy at an address; tells whether any was there. */
    method Remove(addr: Addr) returns (removed: bool)
      requires Valid()
      modifies this`state
      ensures Valid()
      ensures removed <==> Holds(old(state), addr)
      ensures state == Without(old(state), addr) && !Holds(state, addr)
    {
      var before := |state|;
      state := Without(state, addr);
      removed := before != |state|;
      assert !Holds(state, addr);
      assert Holds(old(state), addr) <==> exists x :: x in old(state) && x.proxy.Address() == addr;
    }

    /** Add a checked proxy unless its address is already pooled. No country filter stands here. */
    method Add(proxy: Proxy)
      requires Valid()
      modifies this`state, this`wakeups
      ensures Valid()
      ensures Abs() == if Holds(old(state), proxy.Address()) then old(Abs())
                       else Notify(Push(old(Abs()), proxy, None))
      ensures Addresses(state) == Addresses(old(state)) + {proxy.Address()}
    {
      var i := 0;
      while i < |state|
        invariant 0 <= i <= |state|
        invariant forall j :: 0 <= j < i ==> state[j].proxy.Address() != proxy.Address()
        invariant Abs() == old(Abs())
      {
        if state[i].proxy.Address() == proxy.Address() {
          assert Holds(state, proxy.Address());
          return;
        }
        i := i + 1;
      }
      state := state + [Pooled(proxy, None)];
      wakeups := wakeups + 1;
    }

    /** One import: screened by country, pushed ready, then announced. */
    method Import(proxy: Proxy)
      requires Valid()
      modifies this`state, this`wakeups
      ensures Valid()
      ensures Abs() == if CountryOk(proxy, config.countries) then Notify(Push(old(Abs()), proxy, None)) else old(Abs())
    {
      if !CountryOk(proxy, config.countries) {
        return;
      }
      state := state + [Pooled(proxy, None)];
      wakeups := wakeups + 1;
    }
  }

  lemma SizeWith<K, V>(m: map<K, V>, k: K, v: V)
    ensures |m[k := v]| == if k in m then |m| else |m| + 1
  {
    assert m[k := v].Keys == m.Keys + {k};
    assert |m[k := v]| == |m[k := v].Keys|;
  }

  lemma SizeWithout<K, V>(m: map<K, V>, k: K)
    requires k in m
    ensures |m - {k}| == |m| - 1
  {
    assert (m - {k}).Keys == m.Keys - {k};
    assert |m - {k}| == |(m - {k}).Keys|;
  }
}
