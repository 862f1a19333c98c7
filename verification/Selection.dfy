/** `src/server.rs`: which pooled proxy one `get` hands out (`best_for` and its helpers). */
module Selection {
  import opened Prelude
  import opened Proxies

  datatype Strategy = Best | RoundRobin | Random | Sticky

  /** A pooled proxy; `Some(t)` benches it until `t`. */
  datatype Pooled = Pooled(proxy: Proxy, blockedUntil: Option<real>)

  /** The inputs of one selection. `random` is the raw draw that `next_rand` reduces. */
  datatype SelectCtx = SelectCtx(
    scheme: Scheme, strategy: Strategy, sticky: Option<Addr>, cursor: nat,
    now: real, preferConnect: bool, random: nat)

  predicate Ready(p: Pooled, now: real)
  {
    p.blockedUntil.None? || p.blockedUntil.value <= now
  }

  predicate InTier(pool: seq<Pooled>, ctx: SelectCtx, ready: bool, i: nat)
  {
    i < |pool| && pool[i].proxy.Serves(ctx.scheme) && Ready(pool[i], ctx.now) == ready
  }

  /** Every entry is a position of the pool. */
  predicate Indices(pool: seq<Pooled>, s: seq<nat>)
  {
    forall k :: 0 <= k < |s| ==> s[k] < |pool|
  }

  predicate Ascending(s: seq<nat>)
  {
    forall a, b :: 0 <= a < b < |s| ==> s[a] < s[b]
  }

  /** The scheme-eligible indices of one readiness tier, in pool order. */
  function TierOf(pool: seq<Pooled>, ctx: SelectCtx, ready: bool): (tier: seq<nat>)
    ensures Ascending(tier) && Indices(pool, tier)
    ensures forall i: nat :: i in tier <==> InTier(pool, ctx, ready, i)
  {
    if pool == [] then []
    else
      var n := |pool| - 1;
      var front := TierOf(pool[..n], ctx, ready);
      assert forall i: nat :: i in front ==> InTier(pool[..n], ctx, ready, i);
      assert forall i: nat :: InTier(pool, ctx, ready, i) && i < n ==> InTier(pool[..n], ctx, ready, i);
      if pool[n].proxy.Serves(ctx.scheme) && Ready(pool[n], ctx.now) == ready then front + [n] else front
  }

  /** The tier that is ranked: the ready proxies, or the benched ones when none is ready. */
  function RankedTier(pool: seq<Pooled>, ctx: SelectCtx): (tier: seq<nat>)
    ensures Ascending(tier) && Indices(pool, tier)
  {
    var ready := TierOf(pool, ctx, true);
    if ready == [] then TierOf(pool, ctx, false) else ready
  }

  /** Membership in the ranked tier: eligible, and ready unless no eligible proxy is. */
  lemma RankedTierMembers(pool: seq<Pooled>, ctx: SelectCtx, i: nat)
    ensures i in RankedTier(pool, ctx) <==>
      && i < |pool| && pool[i].proxy.Serves(ctx.scheme)
      && (Ready(pool[i], ctx.now) ||
          !exists k: nat :: k < |pool| && pool[k].proxy.Serves(ctx.scheme) && Ready(pool[k], ctx.now))
  {
    var ready := TierOf(pool, ctx, true);
    if ready != [] {
      assert InTier(pool, ctx, true, ready[0]);
    } else {
      forall k: nat | k < |pool| && pool[k].proxy.Serves(ctx.scheme)
        ensures !Ready(pool[k], ctx.now)
      {
        assert !InTier(pool, ctx, true, k);
      }
    }
    assert i in ready <==> InTier(pool, ctx, true, i);
    assert i in TierOf(pool, ctx, false) <==> InTier(pool, ctx, false, i);
  }

  lemma RankedTierEmptyIff(pool: seq<Pooled>, ctx: SelectCtx)
    ensures RankedTier(pool, ctx) == [] <==> forall i :: 0 <= i < |pool| ==> !pool[i].proxy.Serves(ctx.scheme)
  {
    var tier := RankedTier(pool, ctx);
    if tier != [] {
      RankedTierMembers(pool, ctx, tier[0]);
    } else {
      forall i | 0 <= i < |pool|
        ensures !pool[i].proxy.Serves(ctx.scheme)
      {
        assert !InTier(pool, ctx, true, i) && !InTier(pool, ctx, false, i);
      }
    }
  }

  /** `pick[n % pick.len()]`. */
  function Rotate(pick: seq<nat>, n: nat): (i: nat)
    requires pick != []
    ensures i in pick
  {
    pick[n % |pick|]
  }

  function ConnectOnly(pool: seq<Pooled>, tier: seq<nat>): (r: seq<nat>)
    requires Indices(pool, tier)
    ensures Indices(pool, r)
    ensures forall i: nat :: i in r <==> i in tier && i < |pool| && pool[i].proxy.HasConnect()
    ensures Ascending(tier) ==> Ascending(r)
  {
    if tier == [] then []
    else
      var rest := ConnectOnly(pool, tier[1..]);
      AscendingCons(tier, rest);
      if pool[tier[0]].proxy.HasConnect() then [tier[0]] + rest else rest
  }

  /** A part of an ascending tail still ascends after the head. */
  lemma AscendingCons(s: seq<nat>, r: seq<nat>)
    requires s != [] && forall i: nat :: i in r ==> i in s[1..]
    ensures Ascending(s) ==> Ascending(s[1..])
    ensures Ascending(s) && Ascending(r) ==> Ascending([s[0]] + r)
  {
    if Ascending(s) {
      forall k | 0 <= k < |r| ensures s[0] < r[k] {
        assert r[k] in s[1..];
        var j :| 0 <= j < |s[1..]| && s[1..][j] == r[k];
        assert s[j + 1] == r[k];
      }
    }
  }

  /** Narrow to CONNECT:80-capable proxies when preferred and any exist. */
  function ConnectBiased(pool: seq<Pooled>, tier: seq<nat>, prefer: bool): (r: seq<nat>)
    requires Indices(pool, tier)
    ensures Indices(pool, r)
    ensures forall i: nat :: i in r ==> i in tier
    ensures tier != [] ==> r != []
    ensures !prefer || (forall i: nat :: i in tier && i < |pool| ==> !pool[i].proxy.HasConnect()) ==> r == tier
    ensures prefer && (exists i: nat :: i in tier && i < |pool| && pool[i].proxy.HasConnect()) ==>
              forall i: nat :: i in r <==> i in tier && i < |pool| && pool[i].proxy.HasConnect()
    ensures Ascending(tier) ==> Ascending(r)
  {
    if !prefer then tier
    else
      var connect := ConnectOnly(pool, tier);
      assert connect != [] ==> connect[0] in connect;
      if connect == [] then tier else connect
  }

  /** 0 sorts before 1: lacking CONNECT:80 is a penalty only when it is preferred. */
  function Penalty(p: Proxy, prefer: bool): nat
  {
    if prefer && !p.HasConnect() then 1 else 0
  }

  /** What `min_by` compares: error key, response time, connect penalty. */
  datatype Rank = Rank(error: real, time: real, penalty: nat)

  function RankOf(p: Proxy, prefer: bool): Rank
  {
    Rank(p.Priority().0, p.Priority().1, Penalty(p, prefer))
  }

  predicate Better(a: Rank, b: Rank)
  {
    || a.error < b.error
    || (a.error == b.error && (a.time < b.time || (a.time == b.time && a.penalty < b.penalty)))
  }

  function Ranks(pool: seq<Pooled>, eligible: seq<nat>, prefer: bool): (r: seq<Rank>)
    requires Indices(pool, eligible)
    ensures |r| == |eligible|
  {
    seq(|eligible|, k requires 0 <= k < |eligible| => RankOf(pool[eligible[k]].proxy, prefer))
  }

  /** `min_by`: a later candidate wins only if it is strictly better. */
  function ArgMin(ranks: seq<Rank>): (k: nat)
    requires ranks != []
    ensures k < |ranks|
  {
    var n := |ranks| - 1;
    if n == 0 then 0
    else
      var m := ArgMin(ranks[..n]);
      if Better(ranks[n], ranks[m]) then n else m
  }

  function BestByPriority(pool: seq<Pooled>, eligible: seq<nat>, prefer: bool): (r: Option<nat>)
    requires Indices(pool, eligible)
    ensures r.None? <==> eligible == []
    ensures r.Some? ==> r.value in eligible && r.value < |pool|
  {
    if eligible == [] then None else Some(eligible[ArgMin(Ranks(pool, eligible, prefer))])
  }

  /** The first index of the tier at the pinned address. */
  function FindPin(pool: seq<Pooled>, tier: seq<nat>, addr: Addr): (r: Option<nat>)
    requires Indices(pool, tier)
    ensures r.Some? ==> r.value in tier && r.value < |pool| && pool[r.value].proxy.Address() == addr
    ensures r.None? <==> forall k :: 0 <= k < |tier| ==> pool[tier[k]].proxy.Address() != addr
  {
    if tier == [] then None
    else if pool[tier[0]].proxy.Address() == addr then Some(tier[0])
    else FindPin(pool, tier[1..], addr)
  }

  function BestFor(pool: seq<Pooled>, ctx: SelectCtx): (r: Option<nat>)
    ensures r.Some? ==> r.value in RankedTier(pool, ctx) && r.value < |pool|
  {
    var tier := RankedTier(pool, ctx);
    if tier == [] then None
    else
      match ctx.strategy
      case Best => BestByPriority(pool, tier, ctx.preferConnect)
      case RoundRobin =>
        var pick := ConnectBiased(pool, tier, ctx.preferConnect);
        Some(Rotate(pick, ctx.cursor))
      case Random =>
        var pick := ConnectBiased(pool, tier, ctx.preferConnect);
        Some(Rotate(pick, ctx.random))
      case Sticky =>
        var pin := if ctx.sticky.Some? then FindPin(pool, tier, ctx.sticky.value) else None;
        if pin.Some? then pin else BestByPriority(pool, tier, ctx.preferConnect)
  }

  // ----- what a selection means -----

  /** A served index: it exists exactly when something in the pool serves the scheme. */
  lemma BestForNoneIff(pool: seq<Pooled>, ctx: SelectCtx)
    ensures BestFor(pool, ctx).None? <==> forall i :: 0 <= i < |pool| ==> !pool[i].proxy.Serves(ctx.scheme)
  {
    RankedTierEmptyIff(pool, ctx);
  }

  /** A benched proxy is handed out only when no eligible proxy is ready. */
  lemma BestForPrefersReady(pool: seq<Pooled>, ctx: SelectCtx, k: nat)
    requires k < |pool| && pool[k].proxy.Serves(ctx.scheme) && Ready(pool[k], ctx.now)
    ensures var r := BestFor(pool, ctx);
            r.Some? && pool[r.value].proxy.Serves(ctx.scheme) && Ready(pool[r.value], ctx.now)
  {
    BestForNoneIff(pool, ctx);
    RankedTierMembers(pool, ctx, BestFor(pool, ctx).value);
  }

  /** Position `k` holds the first lexicographic minimum. */
  predicate FirstMinimum(ranks: seq<Rank>, k: nat)
  {
    && k < |ranks|
    && (forall j :: 0 <= j < |ranks| ==> !Better(ranks[j], ranks[k]))
    && (forall j :: 0 <= j < k ==> Better(ranks[k], ranks[j]))
  }

  lemma {:induction false} ArgMinIsFirst(ranks: seq<Rank>)
    requires ranks != []
    ensures FirstMinimum(ranks, ArgMin(ranks))
  {
    var n := |ranks| - 1;
    if n > 0 {
      ArgMinIsFirst(ranks[..n]);
      var m := ArgMin(ranks[..n]);
      assert forall j :: 0 <= j < n ==> ranks[..n][j] == ranks[j];
    }
  }

  lemma FirstMinimumUnique(ranks: seq<Rank>, a: nat, b: nat)
    requires FirstMinimum(ranks, a) && FirstMinimum(ranks, b)
    ensures a == b
  {
    assert !Better(ranks[a], ranks[b]) && !Better(ranks[b], ranks[a]);
  }

  /** The choice is exact: the first minimum of the ranked tier, and nothing else. */
  lemma BestStrategyExact(pool: seq<Pooled>, ctx: SelectCtx, k: nat)
    requires ctx.strategy == Best
    requires k < |RankedTier(pool, ctx)|
    ensures BestFor(pool, ctx) == Some(RankedTier(pool, ctx)[k])
      <==> FirstMinimum(Ranks(pool, RankedTier(pool, ctx), ctx.preferConnect), k)
  {
    var tier := RankedTier(pool, ctx);
    var ranks := Ranks(pool, tier, ctx.preferConnect);
    var m := ArgMin(ranks);
    ArgMinIsFirst(ranks);
    if FirstMinimum(ranks, k) {
      FirstMinimumUnique(ranks, k, m);
    }
    if k < m { assert tier[k] < tier[m]; }
    if m < k { assert tier[m] < tier[k]; }
  }

  /** A pin that is present in the ranked tier is reused; otherwise the choice is the Best one. */
  lemma StickyReusesPin(pool: seq<Pooled>, ctx: SelectCtx)
    requires ctx.strategy == Sticky
    ensures var tier := RankedTier(pool, ctx);
            var r := BestFor(pool, ctx);
            if ctx.sticky.Some? && exists k :: 0 <= k < |tier| && pool[tier[k]].proxy.Address() == ctx.sticky.value
            then r.Some? && pool[r.value].proxy.Address() == ctx.sticky.value
            else r == BestFor(pool, ctx.(strategy := Best))
  {
    SameTier(pool, ctx, ctx.(strategy := Best));
  }

  /** The ranked tier depends on the scheme and the clock only. */
  lemma SameTier(pool: seq<Pooled>, a: SelectCtx, b: SelectCtx)
    requires a.scheme == b.scheme && a.now == b.now
    ensures RankedTier(pool, a) == RankedTier(pool, b)
  {
    SameTierOf(pool, a, b, true);
    SameTierOf(pool, a, b, false);
  }

  lemma {:induction false} SameTierOf(pool: seq<Pooled>, a: SelectCtx, b: SelectCtx, ready: bool)
    requires a.scheme == b.scheme && a.now == b.now
    ensures TierOf(pool, a, ready) == TierOf(pool, b, ready)
  {
    if pool != [] { SameTierOf(pool[..|pool| - 1], a, b, ready); }
  }

  /** What the rotation strategy walks over. */
  function Rotation(pool: seq<Pooled>, ctx: SelectCtx): seq<nat>
  {
    ConnectBiased(pool, RankedTier(pool, ctx), ctx.preferConnect)
  }

  /** The rotation depends on the scheme, the clock and the CONNECT preference only. */
  lemma RoundRobinServes(pool: seq<Pooled>, ctx: SelectCtx, later: nat, i: nat)
    requires ctx.strategy == RoundRobin
    requires Rotation(pool, ctx) != [] && Rotate(Rotation(pool, ctx), later) == i
    ensures BestFor(pool, ctx.(cursor := later)) == Some(i)
  {
    SameTier(pool, ctx, ctx.(cursor := later));
  }

  /** Over one fixed tier, as many consecutive cursors as it has members visit every one of them. */
  lemma RoundRobinCovers(pool: seq<Pooled>, ctx: SelectCtx, i: nat) returns (later: nat)
    requires ctx.strategy == RoundRobin
    requires i in Rotation(pool, ctx)
    ensures ctx.cursor <= later < ctx.cursor + |Rotation(pool, ctx)|
    ensures BestFor(pool, ctx.(cursor := later)) == Some(i)
  {
    var step := StepTo(Rotation(pool, ctx), ctx.cursor, i);
    later := ctx.cursor + step;
    RoundRobinServes(pool, ctx, later, i);
  }

  lemma StepTo(pick: seq<nat>, cursor: nat, i: nat) returns (step: nat)
    requires i in pick
    ensures step < |pick| && Rotate(pick, cursor + step) == i
  {
    var k :| 0 <= k < |pick| && pick[k] == i;
    step := CursorStep(cursor, |pick|, k);
  }

  lemma CursorStep(cursor: nat, n: nat, k: nat) returns (step: nat)
    requires k < n
    ensures step < n && (cursor + step) % n == k
  {
    var (q, c) := (cursor / n, cursor % n);
    assert cursor == q * n + c;
    if c <= k {
      step := k - c;
      ModUnique(cursor + step, n, q, k);
    } else {
      step := k + n - c;
      assert cursor + step == (q + 1) * n + k;
      ModUnique(cursor + step, n, q + 1, k);
    }
  }

  lemma ModUnique(x: nat, n: nat, q: int, r: nat)
    requires r < n && x == q * n + r
    ensures x % n == r
  {
    var d := x / n;
    assert x == d * n + x % n;
    assert (d - q) * n == r - x % n;
    MultipleGrows(d - q, n);
  }

  lemma MultipleGrows(z: int, n: nat)
    ensures z >= 1 ==> z * n >= n
    ensures z <= -1 ==> z * n <= -(n as int)
  {
  }
}
