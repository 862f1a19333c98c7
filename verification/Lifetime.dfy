/** One proxy's accounts over any sequence of checks, relayed requests, upserts and warm starts. */
module Lifetime {
  import opened Prelude
  import opened Proxies
  import opened TypesJson
  import Checking
  import Relay
  import Stores

  datatype Event =
    | Check(requested: seq<Checking.TypeSpec>, strict: bool, world: Checking.World, policy: Checking.RetryPolicy)
    | Serve(outcome: Relay.Outcome)
    | Upsert
    | Load(backend: Stores.Backend)

  /** The proxy in hand, and everything upserted so far. */
  datatype Life = Life(proxy: Proxy, samples: seq<Stores.Sample>)
  {
    /** Errors within requests, here and in everything upserted. */
    predicate InOrder()
    {
      proxy.Accounted() && forall i :: 0 <= i < |samples| ==> samples[i].errors <= samples[i].requests
    }
  }

  function Step(l: Life, e: Event): Life
    requires Possible(l, e)
  {
    match e
    case Check(requested, strict, world, policy) =>
      l.(proxy := Checking.CheckedAll(l.proxy, requested, strict, world, policy).0)
    case Serve(outcome) => l.(proxy := Relay.PutBack(l.proxy, outcome).proxy)
    case Upsert => l.(samples := l.samples + [Stores.SampleOf(l.proxy)])
    case Load(b) => l.(proxy := Stores.View(b, l.samples)[l.proxy.Address()].Proxy(l.proxy.id))
  }

  /** Round trips take no negative time, an upsert reads `u32` counters, and a load finds the address. */
  ghost predicate Possible(l: Life, e: Event)
  {
    match e
    case Check(_, _, world, _) => Checking.RealTimes(world)
    case Serve(_) => true
    case Upsert => Stores.Countable(l.proxy)
    case Load(_) => l.proxy.Address() in Stores.Seen(l.samples)
  }

  /** A load whose store hands the address's totals back in order; every other event is harmless. */
  predicate Harmless(l: Life, e: Event)
  {
    e.Load? && l.proxy.Address() in Stores.Seen(l.samples) ==>
      var a := Stores.AccountOf(l.samples, l.proxy.Address());
      Stores.KeepsOrder(e.backend, a.requests, a.errors)
  }

  ghost predicate Run(lives: seq<Life>, events: seq<Event>)
  {
    && |lives| == |events| + 1
    && forall i :: 0 <= i < |events| ==> Possible(lives[i], events[i]) && lives[i + 1] == Step(lives[i], events[i])
  }

  lemma RecordKeepsAccounts(p: Proxy, runtime: Option<real>, error: Option<ProxyError>)
    requires p.Accounted() && (runtime.Some? ==> 0.0 <= runtime.value)
    ensures p.RecordAttempt(runtime, error).Accounted()
  {
  }

  /** From accounts in order, an event leaves them in order if and only if it is harmless. */
  lemma StepKeepsIff(l: Life, e: Event)
    requires Possible(l, e) && l.InOrder()
    ensures Step(l, e).InOrder() <==> Harmless(l, e)
    ensures Step(l, e).proxy.Accounted() <==> Harmless(l, e)
  {
    match e
    case Check(requested, strict, world, policy) =>
      Checking.CheckAccounts(l.proxy, requested, world, policy, |ALL|);
    case Serve(outcome) =>
      RecordKeepsAccounts(l.proxy, Some(0.0), None);
      if outcome.RetryableFailure? || outcome.ClientCommitted? {
        RecordKeepsAccounts(l.proxy, None, Some(outcome.error));
      }
    case Upsert =>
    case Load(b) => Stores.LoadedAccountedIff(b, l.samples, l.proxy.Address(), l.proxy.id);
  }

  lemma {:induction false} Kept(lives: seq<Life>, events: seq<Event>, k: nat)
    requires Run(lives, events) && k < |lives| && lives[0].InOrder()
    requires forall i :: 0 <= i < k ==> Harmless(lives[i], events[i])
    ensures lives[k].InOrder()
  {
    if k != 0 {
      Kept(lives, events, k - 1);
      assert Harmless(lives[k - 1], events[k - 1]);
      StepKeepsIff(lives[k - 1], events[k - 1]);
      assert lives[(k - 1) + 1] == Step(lives[k - 1], events[k - 1]);
    }
  }

  lemma {:induction false} WasHarmless(lives: seq<Life>, events: seq<Event>, k: nat)
    requires Run(lives, events) && k <= |events| && lives[0].InOrder()
    requires forall i :: 0 <= i <= k ==> lives[i].proxy.Accounted()
    ensures forall i :: 0 <= i < k ==> Harmless(lives[i], events[i])
  {
    if k != 0 {
      WasHarmless(lives, events, k - 1);
      Kept(lives, events, k - 1);
      StepKeepsIff(lives[k - 1], events[k - 1]);
      assert lives[(k - 1) + 1] == Step(lives[k - 1], events[k - 1]);
      assert lives[k].proxy.Accounted();
    }
  }

  /** A proxy stays accounted through a whole life if and only if every load in it is harmless. */
  lemma AccountsForLifeIff(lives: seq<Life>, events: seq<Event>)
    requires Run(lives, events) && lives[0].InOrder()
    ensures (forall k :: 0 <= k < |lives| ==> lives[k].proxy.Accounted())
      <==> forall k :: 0 <= k < |events| ==> Harmless(lives[k], events[k])
  {
    if forall k :: 0 <= k < |lives| ==> lives[k].proxy.Accounted() {
      WasHarmless(lives, events, |events|);
    }
    if forall k :: 0 <= k < |events| ==> Harmless(lives[k], events[k]) {
      forall k | 0 <= k < |lives| ensures lives[k].proxy.Accounted() {
        Kept(lives, events, k);
      }
    }
  }

  /** As long as every load so far was harmless, errors are within requests and the ordering key is in range. */
  lemma OrderingInRange(lives: seq<Life>, events: seq<Event>, k: nat)
    requires Run(lives, events) && k < |lives| && lives[0].InOrder()
    requires forall i :: 0 <= i < k ==> Harmless(lives[i], events[i])
    ensures var p := lives[k].proxy;
            p.ErrorsTotal() <= p.requests && 0.0 <= p.ErrorRate() <= 1.0 && 0.0 <= p.Priority().0 <= 1.0
  {
    Kept(lives, events, k);
    PriorityInRange(lives[k].proxy);
  }

  /** A load from the memory store, and any load of a total that fits a `u32`, is harmless. */
  lemma HarmlessLoads(l: Life, b: Stores.Backend)
    requires l.InOrder() && l.proxy.Address() in Stores.Seen(l.samples)
    requires b == Stores.Memory || Stores.AccountOf(l.samples, l.proxy.Address()).requests <= U32_MAX
    ensures Harmless(l, Load(b))
  {
    var addr := l.proxy.Address();
    Stores.SeenIffSampled(l.samples, addr);
    Stores.OfWithin(l.samples, addr);
    Stores.AccountAccounted(Stores.Of(l.samples, addr));
    var a := Stores.AccountOf(l.samples, addr);
    if b != Stores.Memory { Stores.FittingKeepsOrder(b, a.requests, a.errors); }
  }
}
