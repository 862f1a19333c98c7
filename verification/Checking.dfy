/**
 * `src/checker.rs`: checking one candidate, and what it does to the candidate's accounts. What a
 * connection attempt comes to is an input.
 */
module Checking {
  import opened Prelude
  import opened Proxies
  import opened TypesJson

  /** `Observation`: what a working attempt saw. */
  datatype Observation = Observation(level: Option<AnonLevel>, caps: Caps, trust: seq<string>)

  /** The result of one connection attempt; a working one took `rtt` seconds. */
  datatype Attempt = Working(seen: Observation, rtt: real) | Invalid | Failed(error: ProxyError)

  /** The parts of `RetryPolicy` that decide whether to go on. */
  datatype RetryPolicy = RetryPolicy(maxTries: nat, retryOn: set<ProxyError>)

  /** A requested protocol, with the anonymity levels asked for. */
  datatype TypeSpec = TypeSpec(proto: Proto, levels: Option<seq<AnonLevel>>)

  /** The network a check runs against: its attempts by protocol and number, and which judges exist. */
  datatype World = World(attempt: (Proto, nat) -> Attempt, judged: Proto -> bool, inDnsbl: bool)

  ghost predicate RealTimes(w: World)
  {
    forall p: Proto, i: nat :: w.attempt(p, i).Working? ==> 0.0 <= w.attempt(p, i).rtt
  }

  // ----- one protocol -----

  /** `record_trust`: signals are added once each, in order. */
  function AddSignals(signals: seq<string>, more: seq<string>): seq<string>
    decreases |more|
  {
    if more == [] then signals
    else AddSignals(if more[0] in signals then signals else signals + [more[0]], more[1..])
  }

  /** No signal is lost and none is made up: a later clean protocol cannot clear an earlier one. */
  lemma {:induction false} SignalsUnion(signals: seq<string>, more: seq<string>, x: string)
    ensures signals <= AddSignals(signals, more)
    ensures x in AddSignals(signals, more) <==> x in signals || x in more
    decreases |more|
  {
    if more != [] {
      SignalsUnion(if more[0] in signals then signals else signals + [more[0]], more[1..], x);
      assert more == [more[0]] + more[1..];
    }
  }

  /** What a working attempt leaves on the proxy. */
  function Confirmed(p: Proxy, proto: Proto, o: Observation, rtt: real): Proxy
  {
    var q := p.RecordAttempt(Some(rtt), None);
    q.(probeRuntimes := q.probeRuntimes + [rtt],
       types := q.types[proto := o.level],
       caps := Caps(q.caps.cookieEcho || o.caps.cookieEcho, q.caps.refererEcho || o.caps.refererEcho),
       trustSignals := AddSignals(q.trustSignals, o.trust))
  }

  /** Attempt `i` failed with an error worth another attempt, and one is left. */
  predicate Retried(w: World, proto: Proto, policy: RetryPolicy, i: nat)
  {
    var a := w.attempt(proto, i);
    a.Failed? && a.error in policy.retryOn && i + 1 < policy.maxTries
  }

  /** The attempt that settles it: the first one that is not retried. */
  function Settling(w: World, proto: Proto, policy: RetryPolicy, i: nat): (k: nat)
    requires i < policy.maxTries
    ensures i <= k < policy.maxTries && !Retried(w, proto, policy, k)
    ensures forall j :: i <= j < k ==> Retried(w, proto, policy, j)
    decreases policy.maxTries - i
  {
    if Retried(w, proto, policy, i) then Settling(w, proto, policy, i + 1) else i
  }

  /** The first `n` attempts all failed and were retried. */
  predicate AllRetried(w: World, proto: Proto, policy: RetryPolicy, n: nat)
  {
    forall j :: 0 <= j < n ==> Retried(w, proto, policy, j)
  }

  /** The proxy after `n` retried failures. */
  function AfterFailures(p: Proxy, w: World, proto: Proto, policy: RetryPolicy, n: nat): Proxy
    requires AllRetried(w, proto, policy, n)
  {
    if n == 0 then p
    else
      assert Retried(w, proto, policy, n - 1);
      AfterFailures(p, w, proto, policy, n - 1).RecordAttempt(None, Some(w.attempt(proto, n - 1).error))
  }

  /** The proxy after the settling attempt, and whether it worked. */
  function Settled(p: Proxy, proto: Proto, a: Attempt): (Proxy, bool)
  {
    match a
    case Working(o, rtt) => (Confirmed(p, proto, o, rtt), true)
    case Invalid => (p.RecordAttempt(None, Some(BadResponse)), false)
    case Failed(e) => (p.RecordAttempt(None, Some(e)), false)
  }

  /** `check_one` as a whole: every attempt before the settling one failed and was retried. */
  function CheckedOne(p: Proxy, proto: Proto, w: World, policy: RetryPolicy): (Proxy, bool)
  {
    if !w.judged(proto) || policy.maxTries == 0 then (p, false)
    else
      var k := Settling(w, proto, policy, 0);
      assert AllRetried(w, proto, policy, k);
      Settled(AfterFailures(p, w, proto, policy, k), proto, w.attempt(proto, k))
  }

  lemma {:induction false} FailuresAccounted(p: Proxy, w: World, proto: Proto, policy: RetryPolicy, n: nat)
    requires AllRetried(w, proto, policy, n)
    ensures var q := AfterFailures(p, w, proto, policy, n);
            && q.requests == p.requests + n && q.ErrorsTotal() == p.ErrorsTotal() + n
            && q == p.(requests := q.requests, errors := q.errors)
  {
    if n != 0 { FailuresAccounted(p, w, proto, policy, n - 1); }
  }

  /** The settling attempt is one more request, and one more error unless it worked. */
  lemma SettledAccounts(p: Proxy, proto: Proto, a: Attempt)
    ensures var (q, ok) := Settled(p, proto, a);
            && (ok <==> a.Working?)
            && q.requests == p.requests + 1
            && q.ErrorsTotal() == p.ErrorsTotal() + (if ok then 0 else 1)
            && q.types == (if ok then p.types[proto := a.seen.level] else p.types)
            && q.ewma == p.ewma
            && q.runtimes == (if ok then p.runtimes + [a.rtt] else p.runtimes)
  {
  }

  /** How many attempts a check of one protocol makes. */
  function Attempts(w: World, proto: Proto, policy: RetryPolicy): nat
  {
    if !w.judged(proto) || policy.maxTries == 0 then 0 else Settling(w, proto, policy, 0) + 1
  }

  /**
   * One protocol's check makes at most `max_tries` attempts, each a request; all but the last failed
   * with an error the policy lists; the errors rise by the attempts less one exactly when it works.
   */
  lemma CheckOneAccounts(p: Proxy, proto: Proto, w: World, policy: RetryPolicy)
    ensures var (q, ok) := CheckedOne(p, proto, w, policy);
            var n := Attempts(w, proto, policy);
            && q.requests == p.requests + n && n <= policy.maxTries
            && (forall i :: 0 <= i < n - 1 ==> Retried(w, proto, policy, i))
            && q.ErrorsTotal() == p.ErrorsTotal() + (if ok then n - 1 else n)
            && (ok <==> n > 0 && w.attempt(proto, n - 1).Working?)
            && q.types == (if ok then p.types[proto := w.attempt(proto, n - 1).seen.level] else p.types)
            && q.ewma == p.ewma
            && q.runtimes == (if ok then p.runtimes + [w.attempt(proto, n - 1).rtt] else p.runtimes)
  {
    if w.judged(proto) && policy.maxTries != 0 {
      var k := Settling(w, proto, policy, 0);
      assert AllRetried(w, proto, policy, k);
      FailuresAccounted(p, w, proto, policy, k);
      SettledAccounts(AfterFailures(p, w, proto, policy, k), proto, w.attempt(proto, k));
    }
  }

  lemma CheckOneKeepsAccounts(p: Proxy, proto: Proto, w: World, policy: RetryPolicy)
    requires p.Accounted() && RealTimes(w)
    ensures CheckedOne(p, proto, w, policy).0.Accounted()
  {
    CheckOneAccounts(p, proto, w, policy);
  }

  // ----- the whole check -----

  predicate Requested(requested: seq<TypeSpec>, p: Proto)
  {
    exists i :: 0 <= i < |requested| && requested[i].proto == p
  }

  /** The level filter for a protocol; the last request for it wins. */
  function LevelsFor(requested: seq<TypeSpec>, p: Proto): Option<seq<AnonLevel>>
  {
    if requested == [] then None
    else
      var last := requested[|requested| - 1];
      if last.proto == p then last.levels else LevelsFor(requested[..|requested| - 1], p)
  }

  /** A confirmed type that the request accepts; without a filter every type is. */
  predicate Accepts(requested: seq<TypeSpec>, p: Proto, level: Option<AnonLevel>)
  {
    match LevelsFor(requested, p)
    case None => true
    case Some(levels) => levels == [] || (level.Some? && level.value in levels)
  }

  function Survivors(requested: seq<TypeSpec>, types: TypeMap): TypeMap
  {
    map p | p in types && Accepts(requested, p, types[p]) :: types[p]
  }

  /** The protocols that are both requested and expected; nothing expected means anything is. */
  predicate Tried(p: Proxy, requested: seq<TypeSpec>, proto: Proto)
  {
    Requested(requested, proto) && (p.expectedTypes == {} || proto in p.expectedTypes)
  }

  /** The proxy and whether anything worked, after the first `i` protocols. */
  function CheckedUpTo(p: Proxy, requested: seq<TypeSpec>, w: World, policy: RetryPolicy, i: nat): (Proxy, bool)
    requires i <= |ALL|
  {
    if i == 0 then (p, false)
    else
      var (q, any) := CheckedUpTo(p, requested, w, policy, i - 1);
      if Tried(p, requested, ALL[i - 1]) then
        var (r, ok) := CheckedOne(q, ALL[i - 1], w, policy);
        (r, any || ok)
      else (q, any)
  }

  /** A candidate that checks mutate in place. */
  class Candidate {
    var proxy: Proxy

    constructor (p: Proxy)
      ensures proxy == p
    {
      proxy := p;
    }

    /** Record what one attempt came to. */
    method RecordOutcome(proto: Proto, a: Attempt) returns (worked: bool)
      modifies this
      ensures (proxy, worked) == Settled(old(proxy), proto, a)
    {
      match a {
        case Working(seen, rtt) =>
          proxy := Confirmed(proxy, proto, seen, rtt);
          return true;
        case Invalid =>
          proxy := proxy.RecordAttempt(None, Some(BadResponse));
          return false;
        case Failed(e) =>
          proxy := proxy.RecordAttempt(None, Some(e));
          return false;
      }
    }

    method CheckOne(proto: Proto, w: World, policy: RetryPolicy) returns (ok: bool)
      modifies this
      ensures (proxy, ok) == CheckedOne(old(proxy), proto, w, policy)
    {
      if !w.judged(proto) { return false; }
      var i := 0;
      while i < policy.maxTries
        invariant i <= policy.maxTries && AllRetried(w, proto, policy, i)
        invariant i == policy.maxTries ==> i == 0
        invariant proxy == AfterFailures(old(proxy), w, proto, policy, i)
      {
        var a := w.attempt(proto, i);
        SettlesAt(old(proxy), proto, w, policy, i);
        var worked := RecordOutcome(proto, a);
        if !(a.Failed? && a.error in policy.retryOn && i + 1 < policy.maxTries) {
          return worked;
        }
        i := i + 1;
      }
      return false;
    }

    /** `types_passed`. */
    method TypesPassed(requested: seq<TypeSpec>, strict: bool) returns (passed: bool)
      modifies this
      ensures proxy == old(proxy).(types := if requested != [] && strict then Survivors(requested, old(proxy).types)
                                            else old(proxy).types)
      ensures passed == (requested == [] || Survivors(requested, old(proxy).types) != map[])
    {
      if requested == [] { return true; }
      var confirmed := proxy.types;
      var kept: TypeMap := map[];
      for i := 0 to |ALL|
        invariant kept == UpTo(Survivors(requested, confirmed), i)
        invariant proxy == old(proxy) && (!strict ==> kept == map[])
      {
        var p := ALL[i];
        UpToNext(Survivors(requested, confirmed), i);
        if p in confirmed && Accepts(requested, p, confirmed[p]) {
          if !strict {
            assert p in Survivors(requested, confirmed);
            return true;
          }
          kept := kept[p := confirmed[p]];
        }
      }
      UpToAll(Survivors(requested, confirmed));
      if strict {
        proxy := proxy.(types := kept);
      }
      return strict && kept != map[];
    }

    /** `check`. */
    method Check(requested: seq<TypeSpec>, strict: bool, w: World, policy: RetryPolicy) returns (passed: bool)
      modifies this
      ensures w.inDnsbl ==> !passed && proxy == old(proxy)
      ensures !w.inDnsbl ==> (proxy, passed) == CheckedAll(old(proxy), requested, strict, w, policy)
    {
      if w.inDnsbl { return false; }
      var expected := proxy.expectedTypes;
      var any := false;
      for i := 0 to |ALL|
        invariant (proxy, any) == CheckedUpTo(old(proxy), requested, w, policy, i)
      {
        if Requested(requested, ALL[i]) && (expected == {} || ALL[i] in expected) {
          var ok := CheckOne(ALL[i], w, policy);
          any := any || ok;
        }
      }
      if !any { return false; }
      passed := TypesPassed(requested, strict);
    }
  }

  /** What iteration `i` decides: the check ends with this attempt, or this attempt is retried. */
  lemma SettlesAt(p: Proxy, proto: Proto, w: World, policy: RetryPolicy, i: nat)
    requires w.judged(proto) && i < policy.maxTries && AllRetried(w, proto, policy, i)
    ensures !Retried(w, proto, policy, i) ==>
              CheckedOne(p, proto, w, policy)
              == Settled(AfterFailures(p, w, proto, policy, i), proto, w.attempt(proto, i))
    ensures Retried(w, proto, policy, i) ==>
              && AllRetried(w, proto, policy, i + 1)
              && AfterFailures(p, w, proto, policy, i + 1)
                 == Settled(AfterFailures(p, w, proto, policy, i), proto, w.attempt(proto, i)).0
  {
    if !Retried(w, proto, policy, i) {
      SettlingIs(w, proto, policy, i);
    }
  }

  lemma SettlingIs(w: World, proto: Proto, policy: RetryPolicy, i: nat)
    requires i < policy.maxTries && AllRetried(w, proto, policy, i) && !Retried(w, proto, policy, i)
    ensures Settling(w, proto, policy, 0) == i
  {
    var k := Settling(w, proto, policy, 0);
    assert !Retried(w, proto, policy, k);
    assert i < k ==> Retried(w, proto, policy, i);
  }

  /** The whole check on values. */
  function CheckedAll(p: Proxy, requested: seq<TypeSpec>, strict: bool, w: World, policy: RetryPolicy): (Proxy, bool)
  {
    var (q, any) := CheckedUpTo(p, requested, w, policy, |ALL|);
    if !any then (q, false)
    else
      (q.(types := if requested != [] && strict then Survivors(requested, q.types) else q.types),
       requested == [] || Survivors(requested, q.types) != map[])
  }

  /** A candidate that passes has a confirmed type, and in strict mode only accepted ones. */
  lemma PassedMeansWorking(p: Proxy, requested: seq<TypeSpec>, strict: bool, w: World, policy: RetryPolicy)
    ensures var (q, passed) := CheckedAll(p, requested, strict, w, policy);
            passed ==> && requested != [] && q.IsWorking()
                       && (exists t :: t in q.types && Accepts(requested, t, q.types[t]))
                       && (strict ==> forall t :: t in q.types ==> Accepts(requested, t, q.types[t]))
  {
    var (q, any) := CheckedUpTo(p, requested, w, policy, |ALL|);
    if requested == [] { NothingRequested(p, requested, w, policy, |ALL|); }
    var kept := Survivors(requested, q.types);
    if requested != [] && kept != map[] {
      var t :| t in kept;
      assert t in q.types;
    }
  }

  lemma {:induction false} NothingRequested(p: Proxy, requested: seq<TypeSpec>, w: World, policy: RetryPolicy, i: nat)
    requires requested == [] && i <= |ALL|
    ensures CheckedUpTo(p, requested, w, policy, i) == (p, false)
  {
    if i != 0 { NothingRequested(p, requested, w, policy, i - 1); }
  }

  /** The attempts of the first `i` protocols. */
  function AttemptsUpTo(p: Proxy, requested: seq<TypeSpec>, w: World, policy: RetryPolicy, i: nat): nat
    requires i <= |ALL|
  {
    if i == 0 then 0
    else AttemptsUpTo(p, requested, w, policy, i - 1)
         + (if Tried(p, requested, ALL[i - 1]) then Attempts(w, ALL[i - 1], policy) else 0)
  }

  /** A whole check: every attempt is a request, at most `max_tries` per protocol, and accounts stay in order. */
  lemma {:induction false} CheckAccounts(p: Proxy, requested: seq<TypeSpec>, w: World, policy: RetryPolicy, i: nat)
    requires i <= |ALL|
    ensures var q := CheckedUpTo(p, requested, w, policy, i).0;
            && q.requests == p.requests + AttemptsUpTo(p, requested, w, policy, i)
            && AttemptsUpTo(p, requested, w, policy, i) <= i * policy.maxTries
            && (p.Accounted() && RealTimes(w) ==> q.Accounted())
  {
    if i != 0 {
      CheckAccounts(p, requested, w, policy, i - 1);
      var q := CheckedUpTo(p, requested, w, policy, i - 1).0;
      CheckOneAccounts(q, ALL[i - 1], w, policy);
      if q.Accounted() && RealTimes(w) { CheckOneKeepsAccounts(q, ALL[i - 1], w, policy); }
      assert i * policy.maxTries == (i - 1) * policy.maxTries + policy.maxTries;
    }
  }
}
