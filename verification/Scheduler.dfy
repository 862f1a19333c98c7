/**
 * `src/scheduler.rs`: the adaptive re-check loop. Times are reals in seconds. The decay factor
 * `0.5^(age / half-life)` is an input and each jitter factor arbitrary within its range.
 */
module Scheduler {
  import opened Prelude
  import opened Proxies
  import opened Selection
  import opened PoolModel

  datatype RecheckConfig = RecheckConfig(minInterval: real, maxInterval: real, ratePerSec: real)
  {
    predicate Sane() { 0.0 <= minInterval && 0.0 <= maxInterval }

    /** The spacing of the token bucket. */
    function Gap(): (g: real)
      ensures 0.0 < g
    {
      1.0 / MaxReal(ratePerSec, 0.001)
    }

    /** The shortest time between the end of a check and the next one of the same address. */
    function Rest(): real
    {
      (if minInterval <= maxInterval then minInterval else maxInterval) + 0.5 * minInterval
    }
  }

  const EVICT_FLOOR: real := 0.02
  const PATIENCE: nat := 10

  function Clamp01(x: real): (r: real)
    ensures 0.0 <= r <= 1.0
  {
    if x < 0.0 then 0.0 else if x > 1.0 then 1.0 else x
  }

  /** Linear between the two intervals. */
  function NextInterval(ewma: real, cfg: RecheckConfig): real
  {
    cfg.minInterval + Clamp01(ewma) * (cfg.maxInterval - cfg.minInterval)
  }

  function DecayedScore(ewma: real, latency: real, decay: real): real
  {
    Clamp01(ewma) / (1.0 + MaxReal(latency, 0.0)) * decay
  }

  predicate ShouldRetry(ewma: real, latency: real, decay: real)
  {
    DecayedScore(ewma, latency, decay) >= EVICT_FLOOR
  }

  function FoldEwma(prev: real, working: bool): real
  {
    0.3 * (if working then 1.0 else 0.0) + 0.7 * prev
  }

  function FoldAll(start: real, samples: seq<bool>): real
  {
    if samples == [] then start
    else FoldEwma(FoldAll(start, samples[..|samples| - 1]), samples[|samples| - 1])
  }

  /** `0.7^n`. */
  function Fade(n: nat): (r: real)
    ensures 0.0 < r <= 1.0
  {
    if n == 0 then 1.0 else 0.7 * Fade(n - 1)
  }

  /** Two averages fed the same samples differ by their initial gap, faded. */
  lemma {:induction false} EwmaForgets(a: real, b: real, samples: seq<bool>)
    ensures FoldAll(a, samples) - FoldAll(b, samples) == (a - b) * Fade(|samples|)
  {
    if samples != [] {
      var n := |samples| - 1;
      EwmaForgets(a, b, samples[..n]);
      assert (a - b) * Fade(n + 1) == 0.7 * ((a - b) * Fade(n));
    }
  }

  lemma {:induction false} FadeDecreases(m: nat, n: nat)
    requires m <= n
    ensures Fade(n) <= Fade(m)
  {
    if m < n { FadeDecreases(m, n - 1); }
  }

  lemma FadeAtPatience()
    ensures Fade(PATIENCE + 1) < EVICT_FLOOR <= Fade(PATIENCE)
  {
    assert Fade(2) == 0.49;
    assert Fade(4) == 0.2401;
    assert Fade(6) == 0.117649;
    assert Fade(8) == 0.05764801;
    assert Fade(10) == 0.0282475249;
    assert Fade(11) == 0.01977326743;
  }

  lemma JitterBounds(f: real, base: real)
    requires 0.5 <= f <= 1.5 && 0.0 <= base
    ensures 0.5 * base <= f * base <= 1.5 * base
  {
    ProductOrder(0.5, f, base);
    ProductOrder(f, 1.5, base);
  }

  lemma ProductOrder(a: real, b: real, c: real)
    requires a <= b && 0.0 <= c
    ensures a * c <= b * c
  {
  }

  lemma QuotientBelow(a: real, d: real)
    requires 0.0 <= a && 1.0 <= d
    ensures 0.0 <= a / d <= a
  {
    var q := a / d;
    assert q * d == a;
    if q < 0.0 { ProductOrder(q, 0.0, d); } else { ProductOrder(1.0, d, q); }
  }

  /** Neither latency nor decay can raise a score above the average itself. */
  lemma ScoreBelowEwma(ewma: real, latency: real, decay: real)
    requires 0.0 <= ewma <= 1.0 && 0.0 <= decay <= 1.0
    ensures DecayedScore(ewma, latency, decay) <= ewma
  {
    var base := ewma / (1.0 + MaxReal(latency, 0.0));
    QuotientBelow(ewma, 1.0 + MaxReal(latency, 0.0));
    ProductOrder(decay, 1.0, base);
  }

  /** A failed re-check past the patience bound is never retried, whatever the latency and decay. */
  lemma EvictionForced(ewma: real, latency: real, decay: real, failures: nat)
    requires 0.0 <= ewma <= Fade(failures) && 0.0 <= decay <= 1.0
    requires failures > PATIENCE
    ensures !ShouldRetry(ewma, latency, decay)
  {
    FadeDecreases(PATIENCE + 1, failures);
    FadeAtPatience();
    ScoreBelowEwma(ewma, latency, decay);
  }

  /** The bound is tight: from a perfect score, without latency and decay, ten failures are retried. */
  lemma EvictionBoundTight(failures: nat)
    ensures ShouldRetry(Fade(failures), 0.0, 1.0) <==> failures <= PATIENCE
  {
    FadeAtPatience();
    if failures <= PATIENCE {
      FadeDecreases(failures, PATIENCE);
      assert DecayedScore(Fade(failures), 0.0, 1.0) == Fade(failures);
    } else {
      EvictionForced(Fade(failures), 0.0, 1.0, failures);
    }
  }

  /** A part of the way between two points ends no lower than the lower one. */
  lemma PartWay(a: real, b: real, e: real)
    requires 0.0 <= e <= 1.0
    ensures a + e * (b - a) >= if a <= b then a else b
  {
    if a <= b {
      ProductOrder(0.0, e, b - a);
    } else {
      ProductOrder(e, 1.0, a - b);
      assert e * (b - a) == -(e * (a - b));
    }
  }

  lemma NextIntervalFloor(ewma: real, cfg: RecheckConfig)
    requires cfg.Sane()
    ensures NextInterval(ewma, cfg) >= if cfg.minInterval <= cfg.maxInterval then cfg.minInterval else cfg.maxInterval
  {
    PartWay(cfg.minInterval, cfg.maxInterval, Clamp01(ewma));
  }

  datatype Scheduled = Scheduled(due: real, addr: Addr)

  /** The heap's addresses are the given ones, each exactly once. */
  predicate Once(heap: seq<Scheduled>, addrs: set<Addr>)
  {
    if heap == [] then addrs == {}
    else
      var (n, last) := (|heap| - 1, heap[|heap| - 1].addr);
      last in addrs && Once(heap[..n], addrs - {last})
  }

  predicate Earliest(heap: seq<Scheduled>, k: nat)
  {
    k < |heap| && forall j :: 0 <= j < |heap| ==> heap[k].due <= heap[j].due
  }

  function Drop(heap: seq<Scheduled>, k: nat): seq<Scheduled>
    requires k < |heap|
  {
    heap[..k] + heap[k + 1..]
  }

  lemma OncePush(heap: seq<Scheduled>, addrs: set<Addr>, x: Scheduled)
    requires Once(heap, addrs) && x.addr !in addrs
    ensures Once(heap + [x], addrs + {x.addr})
  {
    assert (heap + [x])[..|heap|] == heap;
    assert addrs + {x.addr} - {x.addr} == addrs;
  }

  lemma {:induction false} OnceDrop(heap: seq<Scheduled>, addrs: set<Addr>, k: nat)
    requires Once(heap, addrs) && k < |heap|
    ensures heap[k].addr in addrs
    ensures Once(Drop(heap, k), addrs - {heap[k].addr})
  {
    var n := |heap| - 1;
    var (last, gone) := (heap[n].addr, heap[k].addr);
    if k == n {
      assert Drop(heap, k) == heap[..n];
    } else {
      OnceDrop(heap[..n], addrs - {last}, k);
      var r := Drop(heap, k);
      assert r[..n - 1] == Drop(heap[..n], k);
      assert r[n - 1] == heap[n];
      assert addrs - {last} - {gone} == addrs - {gone} - {last};
    }
  }

  /** The same in plain terms: only these addresses, no two alike, none missing. */
  ghost predicate EachOnce(heap: seq<Scheduled>, addrs: set<Addr>)
  {
    && (forall k :: 0 <= k < |heap| ==> heap[k].addr in addrs)
    && (forall i, j :: 0 <= i < j < |heap| ==> heap[i].addr != heap[j].addr)
    && (forall a :: a in addrs ==> exists k :: 0 <= k < |heap| && heap[k].addr == a)
  }

  lemma {:induction false} OnceListed(heap: seq<Scheduled>, addrs: set<Addr>)
    requires Once(heap, addrs)
    ensures EachOnce(heap, addrs)
  {
    if heap != [] {
      var n := |heap| - 1;
      var (front, last) := (heap[..n], heap[n].addr);
      OnceListed(front, addrs - {last});
      assert forall k :: 0 <= k < n ==> front[k] == heap[k];
      forall a | a in addrs
        ensures exists k :: 0 <= k < |heap| && heap[k].addr == a
      {
        if a == last {
          assert heap[n].addr == a;
        } else {
          assert a in addrs - {last};
          var k :| 0 <= k < |front| && front[k].addr == a;
          assert heap[k].addr == a;
        }
      }
    }
  }

  lemma {:induction false} ListedOnce(heap: seq<Scheduled>, addrs: set<Addr>)
    requires EachOnce(heap, addrs)
    ensures Once(heap, addrs)
  {
    if heap == [] {
      assert forall a :: a !in addrs;
    } else {
      var n := |heap| - 1;
      var (front, last) := (heap[..n], heap[n].addr);
      assert forall k :: 0 <= k < n ==> front[k] == heap[k];
      forall a | a in addrs - {last}
        ensures exists k :: 0 <= k < |front| && front[k].addr == a
      {
        var k :| 0 <= k < |heap| && heap[k].addr == a;
        assert front[k].addr == a;
      }
      ListedOnce(front, addrs - {last});
    }
  }

  /** The heap holds each tracked address exactly once and nothing else. */
  lemma OnceMeans(heap: seq<Scheduled>, addrs: set<Addr>)
    ensures Once(heap, addrs) <==> EachOnce(heap, addrs)
  {
    if Once(heap, addrs) { OnceListed(heap, addrs); }
    if EachOnce(heap, addrs) { ListedOnce(heap, addrs); }
  }

  /** Starts are pairwise spaced by at least the gap. */
  predicate Spaced(starts: seq<real>, gap: real)
  {
    forall i, j :: 0 <= i < j < |starts| ==> starts[i] + gap <= starts[j]
  }

  lemma {:induction false} SpacedApart(starts: seq<real>, gap: real, i: nat, j: nat)
    requires Spaced(starts, gap) && i <= j < |starts|
    ensures starts[i] + (j - i) as real * gap <= starts[j]
    decreases j - i
  {
    if i < j {
      SpacedApart(starts, gap, i, j - 1);
      assert (j - i) as real * gap == (j - 1 - i) as real * gap + gap;
    }
  }

  lemma FactorOrder(a: real, b: real, c: real)
    requires a * c <= b * c && 0.0 < c
    ensures a <= b
  {
    assert (a - b) * c == a * c - b * c;
    assert a > b ==> (a - b) * c > 0.0;
  }

  /** Any window of the given width holds at most its share of starts, plus one. */
  lemma WindowBound(starts: seq<real>, gap: real, i: nat, j: nat, width: real)
    requires Spaced(starts, gap) && 0.0 < gap
    requires i <= j < |starts| && starts[j] - starts[i] <= width
    ensures j - i + 1 <= (width / gap).Floor + 1
  {
    SpacedApart(starts, gap, i, j);
    var n := (j - i) as real;
    assert n * gap <= width;
    var q := width / gap;
    assert q * gap == width;
    calc <= { n * gap; width; q * gap; }
    FactorOrder(n, q, gap);
  }

  /** What one pass of the loop came to. */
  datatype Pass =
    | Idle                  // nothing scheduled
    | NotDue                // woke only to enrol
    | Forgotten(addr: Addr) // the watcher had removed it: not probed
    | Kept(addr: Addr)      // re-checked and rescheduled
    | Evicted(addr: Addr)   // re-checked and given up

  /** Everything the environment decides in one pass: the clock readings, the check and the dice. */
  datatype World = World(
    enrolAt: real, wokeAt: real, finishedAt: real, pooledAtPop: set<Addr>,
    working: bool, check: Addr -> Proxy, decay: real)
  {
    /** A re-check starts from a fresh proxy at the popped address and does not move it. */
    ghost predicate Plausible()
    {
      enrolAt <= wokeAt <= finishedAt && 0.0 <= decay <= 1.0 && forall a :: check(a).Address() == a
    }
  }

  /**
   * The loop's bookkeeping as one value. `failures` counts consecutive failed re-checks and
   * `finished` remembers when the last re-check of a continuously tracked address ended.
   */
  datatype Books = Books(
    heap: seq<Scheduled>, ewma: map<Addr, real>, lastOk: map<Addr, real>, retrying: set<Addr>,
    failures: map<Addr, nat>, finished: map<Addr, real>)

  /** The heap holds each tracked address exactly once; the maps track the same addresses. */
  ghost predicate Consistent(b: Books)
  {
    && Once(b.heap, b.ewma.Keys)
    && b.lastOk.Keys == b.ewma.Keys == b.failures.Keys
    && b.retrying <= b.ewma.Keys
    && b.finished.Keys <= b.ewma.Keys
  }

  /** Every average is a probability bounded by its run of failures, and no run outlasts the patience. */
  predicate Scored(b: Books)
  {
    forall a :: a in b.ewma && a in b.failures ==> 0.0 <= b.ewma[a] <= Fade(b.failures[a]) && b.failures[a] <= PATIENCE
  }

  /** No address is due before it has rested since its last re-check. */
  predicate Rested(b: Books, rest: real)
  {
    forall j :: 0 <= j < |b.heap| && b.heap[j].addr in b.finished ==>
      b.finished[b.heap[j].addr] + rest <= b.heap[j].due
  }

  ghost predicate Sound(b: Books, rest: real)
  {
    Consistent(b) && Scored(b) && Rested(b, rest)
  }

  /** An address that has come due has rested. */
  lemma DueHasRested(b: Books, rest: real, k: nat, now: real)
    requires Sound(b, rest) && k < |b.heap| && b.heap[k].due <= now
    ensures b.heap[k].addr in b.finished ==> b.finished[b.heap[k].addr] + rest <= now
  {
  }

  function EnrolOne(b: Books, addr: Addr, now: real, due: real): Books
  {
    b.(heap := b.heap + [Scheduled(due, addr)], ewma := b.ewma[addr := 1.0], lastOk := b.lastOk[addr := now],
       failures := b.failures[addr := 0])
  }

  function ForgetAt(b: Books, k: nat): Books
    requires k < |b.heap|
  {
    var gone := {b.heap[k].addr};
    Books(Drop(b.heap, k), b.ewma - gone, b.lastOk - gone, b.retrying - gone, b.failures - gone, b.finished - gone)
  }

  /** `get(key).unwrap_or(default)`. */
  function Lookup<V>(m: map<Addr, V>, addr: Addr, default: V): V
  {
    if addr in m then m[addr] else default
  }

  function RescheduleAt(b: Books, k: nat, working: bool, now: real, due: real): Books
    requires k < |b.heap|
  {
    var addr := b.heap[k].addr;
    Books(Drop(b.heap, k) + [Scheduled(due, addr)],
          b.ewma[addr := FoldEwma(Lookup(b.ewma, addr, 1.0), working)],
          if working then b.lastOk[addr := now] else b.lastOk,
          if working then b.retrying - {addr} else b.retrying + {addr},
          b.failures[addr := if working then 0 else Lookup(b.failures, addr, 0) + 1],
          b.finished[addr := now])
  }

  lemma EnrolConsistent(b: Books, addr: Addr, now: real, due: real)
    requires Consistent(b) && addr !in b.ewma
    ensures Consistent(EnrolOne(b, addr, now, due))
  {
    OncePush(b.heap, b.ewma.Keys, Scheduled(due, addr));
    var r := EnrolOne(b, addr, now, due);
    assert r.ewma.Keys == b.ewma.Keys + {addr};
  }

  lemma EnrolSound(b: Books, addr: Addr, now: real, due: real, rest: real)
    requires Sound(b, rest) && addr !in b.ewma
    ensures Sound(EnrolOne(b, addr, now, due), rest)
  {
    EnrolConsistent(b, addr, now, due);
    assert addr !in b.finished;
  }

  lemma DropRested(b: Books, k: nat, rest: real)
    requires Rested(b, rest) && k < |b.heap|
    ensures forall j :: 0 <= j < |b.heap| - 1 && Drop(b.heap, k)[j].addr in b.finished ==>
              b.finished[Drop(b.heap, k)[j].addr] + rest <= Drop(b.heap, k)[j].due
  {
    forall j | 0 <= j < |b.heap| - 1
      ensures Drop(b.heap, k)[j] == b.heap[if j < k then j else j + 1]
    {
    }
  }

  lemma ForgetConsistent(b: Books, k: nat)
    requires Consistent(b) && k < |b.heap|
    ensures Consistent(ForgetAt(b, k))
  {
    OnceDrop(b.heap, b.ewma.Keys, k);
    var r := ForgetAt(b, k);
    assert r.ewma.Keys == b.ewma.Keys - {b.heap[k].addr};
  }

  lemma ForgetSound(b: Books, k: nat, rest: real)
    requires Sound(b, rest) && k < |b.heap|
    ensures Sound(ForgetAt(b, k), rest)
  {
    ForgetConsistent(b, k);
    DropRested(b, k, rest);
  }

  /** The address at a heap position is tracked, and stands nowhere else in the heap. */
  lemma TrackedOnce(b: Books, k: nat)
    requires Consistent(b) && k < |b.heap|
    ensures var addr := b.heap[k].addr;
            && addr in b.ewma && addr in b.failures && addr in b.lastOk
            && forall j :: 0 <= j < |b.heap| - 1 ==> Drop(b.heap, k)[j].addr != addr
  {
    OnceDrop(b.heap, b.ewma.Keys, k);
    var addr := b.heap[k].addr;
    forall j | 0 <= j < |b.heap| - 1
      ensures Drop(b.heap, k)[j].addr != addr
    {
      OnceDrop(Drop(b.heap, k), b.ewma.Keys - {addr}, j);
    }
  }

  lemma RescheduleConsistent(b: Books, k: nat, working: bool, now: real, due: real)
    requires Consistent(b) && k < |b.heap|
    ensures Consistent(RescheduleAt(b, k, working, now, due))
  {
    var addr := b.heap[k].addr;
    TrackedOnce(b, k);
    OnceDrop(b.heap, b.ewma.Keys, k);
    OncePush(Drop(b.heap, k), b.ewma.Keys - {addr}, Scheduled(due, addr));
    var r := RescheduleAt(b, k, working, now, due);
    assert r.ewma.Keys == b.ewma.Keys - {addr} + {addr};
    assert r.lastOk.Keys == b.lastOk.Keys && r.failures.Keys == b.failures.Keys;
  }

  lemma RescheduleScored(b: Books, k: nat, working: bool, now: real, due: real)
    requires Consistent(b) && Scored(b) && k < |b.heap|
    requires !working ==> b.heap[k].addr in b.failures && b.failures[b.heap[k].addr] < PATIENCE
    ensures Scored(RescheduleAt(b, k, working, now, due))
  {
    var addr := b.heap[k].addr;
    TrackedOnce(b, k);
    assert b.ewma[addr] <= Fade(b.failures[addr]) <= 1.0;
    assert Fade(b.failures[addr] + 1) == 0.7 * Fade(b.failures[addr]);
  }

  lemma RescheduleRested(b: Books, k: nat, working: bool, now: real, due: real, rest: real)
    requires Consistent(b) && Rested(b, rest) && k < |b.heap| && now + rest <= due
    ensures Rested(RescheduleAt(b, k, working, now, due), rest)
  {
    TrackedOnce(b, k);
    DropRested(b, k, rest);
    var r := RescheduleAt(b, k, working, now, due);
    forall j | 0 <= j < |r.heap| && r.heap[j].addr in r.finished
      ensures r.finished[r.heap[j].addr] + rest <= r.heap[j].due
    {
      if j < |b.heap| - 1 { assert r.heap[j] == Drop(b.heap, k)[j]; }
    }
  }

  lemma RescheduleSound(b: Books, k: nat, working: bool, now: real, due: real, rest: real)
    requires Sound(b, rest) && k < |b.heap| && now + rest <= due
    requires !working ==> b.heap[k].addr in b.failures && b.failures[b.heap[k].addr] < PATIENCE
    ensures Sound(RescheduleAt(b, k, working, now, due), rest)
  {
    RescheduleConsistent(b, k, working, now, due);
    RescheduleScored(b, k, working, now, due);
    RescheduleRested(b, k, working, now, due, rest);
  }

  /** Newcomers start at a perfect score with no failures; the others are as they were. */
  ghost predicate Enrolled(b: Books, newcomers: set<Addr>, after: Books)
  {
    && after.ewma.Keys == b.ewma.Keys + newcomers
    && after.failures.Keys == b.failures.Keys + newcomers
    && (forall a :: a in after.ewma ==> after.ewma[a] == Lookup(b.ewma, a, 1.0))
    && (forall a :: a in after.failures ==> after.failures[a] == Lookup(b.failures, a, 0))
    && after.retrying == b.retrying && after.finished == b.finished
  }

  lemma EnrolledOne(b: Books, addr: Addr, now: real, due: real)
    requires Consistent(b) && addr !in b.ewma
    ensures Enrolled(b, {addr}, EnrolOne(b, addr, now, due))
  {
    assert EnrolOne(b, addr, now, due).ewma.Keys == b.ewma.Keys + {addr};
    assert EnrolOne(b, addr, now, due).failures.Keys == b.failures.Keys + {addr};
  }

  lemma EnrolledNone(b: Books)
    ensures Enrolled(b, {}, b)
  {
  }

  lemma EnrolledTrans(a: Books, one: set<Addr>, b: Books, two: set<Addr>, c: Books)
    requires Enrolled(a, one, b) && Enrolled(b, two, c)
    ensures Enrolled(a, one + two, c)
  {
    assert c.ewma.Keys == a.ewma.Keys + (one + two);
    assert c.failures.Keys == a.failures.Keys + (one + two);
  }

  class Rechecker {
    const cfg: RecheckConfig
    /** The spacing of the token bucket, computed once. */
    const gap: real
    var heap: seq<Scheduled>
    var ewma: map<Addr, real>
    var lastOk: map<Addr, real>
    var retrying: set<Addr>
    var nextStart: real
    ghost var failures: map<Addr, nat>
    ghost var finished: map<Addr, real>
    /** Every start slot reserved so far. */
    ghost var starts: seq<real>

    ghost function Abs(): Books
      reads this`heap, this`ewma, this`lastOk, this`retrying, this`failures, this`finished
    {
      Books(heap, ewma, lastOk, retrying, failures, finished)
    }

    /** Reserved start slots are spaced, and the next one keeps its distance too. */
    ghost predicate Paced()
      reads this`starts, this`nextStart
    {
      && 0.0 < gap
      && Spaced(starts, gap)
      && (starts != [] ==> starts[|starts| - 1] + gap <= nextStart)
    }

    /** The books are in order. */
    ghost predicate Tracking()
      reads this`heap, this`ewma, this`lastOk, this`retrying, this`failures, this`finished
    {
      cfg.Sane() && Sound(Abs(), cfg.Rest())
    }

    /** What holds at the head of the loop. */
    ghost predicate Valid()
      reads this
    {
      Tracking() && Paced()
    }

    constructor (cfg: RecheckConfig, now: real)
      requires cfg.Sane()
      ensures Valid() && this.cfg == cfg && gap == cfg.Gap() && starts == []
      ensures Abs() == Books([], map[], map[], {}, map[], map[])
    {
      this.cfg := cfg;
      gap := cfg.Gap();
      heap, ewma, lastOk, retrying, nextStart := [], map[], map[], {}, now;
      failures, finished, starts := map[], map[], [];
    }

    /** A time up to half of `base` away from it. */
    method Jitter(base: real) returns (t: real)
      requires 0.0 <= base
      ensures 0.5 * base <= t <= 1.5 * base
    {
      var f: real := *;
      if f < 0.5 || 1.5 < f {
        f := 1.0;
      }
      JitterBounds(f, base);
      t := f * base;
    }

    /** Track one address that is not tracked yet. */
    method EnrolAddr(addr: Addr, now: real, due: real)
      requires Tracking() && addr !in ewma
      modifies this`heap, this`ewma, this`lastOk, this`failures
      ensures Tracking()
      ensures Abs() == EnrolOne(old(Abs()), addr, now, due)
    {
      EnrolSound(Abs(), addr, now, due, cfg.Rest());
      ewma := ewma[addr := 1.0];
      lastOk := lastOk[addr := now];
      failures := failures[addr := 0];
      heap := heap + [Scheduled(due, addr)];
      assert Abs() == EnrolOne(old(Abs()), addr, now, due);
    }

    /** The vacant-entry arm: an address that is already tracked is left alone. */
    method EnrolVacant(addr: Addr, now: real)
      requires Tracking()
      modifies this`heap, this`ewma, this`lastOk, this`failures
      ensures Tracking()
      ensures Enrolled(old(Abs()), {addr}, Abs())
    {
      if addr !in ewma {
        var stagger := Jitter(cfg.minInterval);
        EnrolledOne(Abs(), addr, now, now + stagger);
        EnrolAddr(addr, now, now + stagger);
      }
    }

    /** Track every pooled address that is not tracked yet. */
    method Enrol(pooled: set<Addr>, now: real)
      requires Tracking()
      modifies this`heap, this`ewma, this`lastOk, this`failures
      ensures Tracking()
      ensures Enrolled(old(Abs()), pooled, Abs())
    {
      var left := pooled;
      ghost var before, done := Abs(), {};
      EnrolledNone(before);
      while left != {}
        invariant done + left == pooled
        invariant Tracking()
        invariant Enrolled(before, done, Abs())
        decreases left
      {
        var addr :| addr in left;
        ghost var mid := Abs();
        EnrolVacant(addr, now);
        EnrolledTrans(before, done, mid, {addr}, Abs());
        left, done := left - {addr}, done + {addr};
      }
    }

    /** Take the next start slot of the token bucket. */
    method ReserveStart(now: real) returns (startAt: real)
      requires Paced()
      modifies this`nextStart, this`starts
      ensures Paced()
      ensures startAt >= now && startAt >= old(nextStart) && starts == old(starts) + [startAt]
      ensures nextStart == startAt + gap
    {
      startAt := MaxReal(nextStart, now);
      nextStart := startAt + gap;
      starts := starts + [startAt];
    }

    /** Stop tracking the address at a heap position. */
    method Forget(k: nat)
      requires Tracking() && k < |heap|
      modifies this`heap, this`ewma, this`lastOk, this`retrying, this`failures, this`finished
      ensures Tracking()
      ensures Abs() == ForgetAt(old(Abs()), k)
    {
      ForgetSound(Abs(), k, cfg.Rest());
      var addr := heap[k].addr;
      heap := Drop(heap, k);
      ewma := ewma - {addr};
      lastOk := lastOk - {addr};
      retrying := retrying - {addr};
      failures := failures - {addr};
      finished := finished - {addr};
      assert Abs() == ForgetAt(old(Abs()), k);
    }

    /** The next due time of a re-checked address. */
    method NextDue(e: real, now: real) returns (due: real)
      requires cfg.Sane()
      ensures now + cfg.Rest() <= due
    {
      var stagger := Jitter(cfg.minInterval);
      NextIntervalFloor(e, cfg);
      due := now + NextInterval(e, cfg) + stagger;
    }

    /** Put a re-checked address back with its folded average `e` and its next due time. */
    method Reschedule(k: nat, e: real, working: bool, now: real, due: real)
      requires Tracking() && k < |heap| && now + cfg.Rest() <= due
      requires e == FoldEwma(Lookup(ewma, heap[k].addr, 1.0), working)
      requires heap[k].addr in failures && (!working ==> failures[heap[k].addr] < PATIENCE)
      modifies this`heap, this`ewma, this`lastOk, this`retrying, this`failures, this`finished
      ensures Tracking()
      ensures Abs() == RescheduleAt(old(Abs()), k, working, now, due)
    {
      RescheduleSound(Abs(), k, working, now, due, cfg.Rest());
      Rewrite(k, e, working, now, due);
    }

    /** The assignments of a re-schedule. */
    method Rewrite(k: nat, e: real, working: bool, now: real, due: real)
      requires k < |heap| && e == FoldEwma(Lookup(ewma, heap[k].addr, 1.0), working)
      modifies this`heap, this`ewma, this`lastOk, this`retrying, this`failures, this`finished
      ensures Abs() == RescheduleAt(old(Abs()), k, working, now, due)
    {
      var addr := heap[k].addr;
      heap := Drop(heap, k) + [Scheduled(due, addr)];
      ewma := ewma[addr := e];
      if working {
        lastOk := lastOk[addr := now];
        retrying := retrying - {addr};
      } else {
        retrying := retrying + {addr};
      }
      failures := failures[addr := if working then 0 else Lookup(failures, addr, 0) + 1];
      finished := finished[addr := now];
    }

    /** The position whose address is due first. */
    method Peek() returns (k: nat)
      requires heap != []
      ensures Earliest(heap, k)
    {
      k := 0;
      var j := 1;
      while j < |heap|
        invariant 1 <= j <= |heap| && k < |heap|
        invariant forall i :: 0 <= i < j ==> heap[k].due <= heap[i].due
      {
        if heap[j].due < heap[k].due {
          k := j;
        }
        j := j + 1;
      }
    }

    /** Fold the outcome of a re-check into the books and the pool: reschedule, or give up. */
    method Settle(pool: Pool, k: nat, world: World) returns (pass: Pass, ghost due: real)
      requires Tracking() && pool.Valid() && world.Plausible() && k < |heap|
      modifies this`heap, this`ewma, this`lastOk, this`retrying, this`failures, this`finished, pool
      ensures Tracking() && pool.Valid()
      ensures pass == (if world.working || Retried(old(Abs()), k, world) then Kept(old(heap)[k].addr)
                       else Evicted(old(heap)[k].addr))
      ensures if pass.Kept?
              then world.finishedAt + cfg.Rest() <= due
                   && Abs() == RescheduleAt(old(Abs()), k, world.working, world.finishedAt, due)
              else Abs() == ForgetAt(old(Abs()), k)
      ensures world.working ==> Addresses(pool.state) == Addresses(old(pool.state)) + {old(heap)[k].addr}
      ensures !world.working ==> pool.state == Without(old(pool.state), old(heap)[k].addr)
      ensures pass.Kept? && !world.working ==>
                var a := old(heap)[k].addr; a in old(failures) && old(failures)[a] < PATIENCE
    {
      var addr := heap[k].addr;
      TrackedOnce(Abs(), k);
      var e := FoldEwma(Lookup(ewma, addr, 1.0), world.working);
      var nextDue := NextDue(e, world.finishedAt);
      due := nextDue;
      if world.working {
        pool.Add(world.check(addr));
      } else {
        var _ := pool.Remove(addr);
        if !ShouldRetry(e, world.check(addr).AvgRespTime(), world.decay) {
          Forget(k);
          pass := Evicted(addr);
          return;
        }
        RetryMeansPatience(ewma[addr], failures[addr], world.check(addr).AvgRespTime(), world.decay);
      }
      Reschedule(k, e, world.working, world.finishedAt, nextDue);
      pass := Kept(addr);
    }

    /** Re-check the popped address, unless the watcher has removed it meanwhile. */
    method Handle(pool: Pool, k: nat, world: World) returns (pass: Pass)
      requires Tracking() && pool.Valid() && world.Plausible() && k < |heap|
      modifies this`heap, this`ewma, this`lastOk, this`retrying, this`failures, this`finished, pool
      ensures Tracking() && pool.Valid()
      ensures !pass.Idle? && !pass.NotDue? && pass.addr == old(heap)[k].addr && pass.addr in old(ewma)
      ensures pass.Forgotten? <==> pass.addr !in old(retrying) && pass.addr !in world.pooledAtPop
      ensures pass.Forgotten? ==> pool.state == old(pool.state)
      ensures ewma.Keys == (if pass.Kept? then old(ewma.Keys) else old(ewma.Keys) - {pass.addr})
      ensures pass.Kept? && !world.working ==> pass.addr in old(failures) && old(failures)[pass.addr] < PATIENCE
      ensures pass.Evicted? ==> !world.working
      ensures pass.Kept? || pass.Evicted? ==>
                if world.working then Addresses(pool.state) == Addresses(old(pool.state)) + {pass.addr}
                else pool.state == Without(old(pool.state), pass.addr)
    {
      var job := heap[k];
      TrackedOnce(Abs(), k);
      if job.addr !in retrying && job.addr !in world.pooledAtPop {
        Forget(k);
        return Forgotten(job.addr);
      }
      var outcome, _ := Settle(pool, k, world);
      pass := outcome;
    }

    /** Pop the address that is due first, once its time and a start slot have come. */
    method Dispatch(pool: Pool, world: World) returns (pass: Pass, ghost k: nat)
      requires Valid() && pool.Valid() && world.Plausible()
      modifies this, pool
      ensures Valid() && pool.Valid()
      ensures pass.Idle? <==> old(heap) == []
      ensures pass.NotDue? ==> forall j :: 0 <= j < |old(heap)| ==> world.wokeAt < old(heap)[j].due
      ensures pass.Idle? || pass.NotDue? ==> Abs() == old(Abs()) && starts == old(starts)
      ensures pass.Idle? || pass.NotDue? || pass.Forgotten? ==> pool.state == old(pool.state)
      ensures !pass.Idle? && !pass.NotDue? ==>
                && Earliest(old(heap), k) && old(heap)[k].addr == pass.addr && old(heap)[k].due <= world.wokeAt
                && |starts| == |old(starts)| + 1 && old(starts) < starts && world.wokeAt <= starts[|old(starts)|]
                && (pass.Forgotten? <==> pass.addr !in old(retrying) && pass.addr !in world.pooledAtPop)
                && ewma.Keys == (if pass.Kept? then old(ewma.Keys) else old(ewma.Keys) - {pass.addr})
                && pass.addr in old(ewma)
                && (pass.addr in old(finished) ==> old(finished)[pass.addr] + cfg.Rest() <= world.wokeAt)
                && (pass.Kept? && !world.working ==> pass.addr in old(failures) && old(failures)[pass.addr] < PATIENCE)
      ensures pass.Kept? || pass.Evicted? ==>
                if world.working then Addresses(pool.state) == Addresses(old(pool.state)) + {pass.addr}
                else pool.state == Without(old(pool.state), pass.addr)
    {
      k := 0;
      if heap == [] {
        pass := Idle;
        return;
      }
      var first := Peek();
      k := first;
      if world.wokeAt < heap[first].due {
        pass := NotDue;
        return;
      }
      DueHasRested(Abs(), cfg.Rest(), first, world.wokeAt);
      var _ := ReserveStart(world.wokeAt);
      pass := Handle(pool, first, world);
    }

    /** One pass of the loop, from its head back to its head. */
    method RunPass(pool: Pool, pooledAtHead: set<Addr>, world: World) returns (pass: Pass)
      requires Valid() && pool.Valid() && world.Plausible()
      modifies this, pool
      ensures Valid() && pool.Valid()
      ensures pooledAtHead - ewma.Keys <= (if pass.Forgotten? || pass.Evicted? then {pass.addr} else {})
      ensures pass.Idle? || pass.NotDue? || pass.Forgotten? ==> pool.state == old(pool.state)
      ensures pass.Forgotten? ==>
                pass.addr !in world.pooledAtPop && pass.addr !in old(retrying) && pass.addr !in ewma
      ensures pass.Kept? || pass.Evicted? ==>
                (pass.addr in world.pooledAtPop || pass.addr in old(retrying)) && (pass.addr in ewma <==> pass.Kept?)
      ensures !pass.Idle? && !pass.NotDue? && pass.addr in old(finished) ==>
                old(finished)[pass.addr] + cfg.Rest() <= world.wokeAt
      ensures pass.Kept? && !world.working && pass.addr in old(failures) ==> old(failures)[pass.addr] < PATIENCE
      ensures pass.Kept? || pass.Evicted? ==>
                if world.working then Addresses(pool.state) == Addresses(old(pool.state)) + {pass.addr}
                else pool.state == Without(old(pool.state), pass.addr)
    {
      ghost var before := Abs();
      Enrol(pooledAtHead, world.enrolAt);
      ghost var enrolled := Abs();
      ghost var k: nat;
      pass, k := Dispatch(pool, world);
      assert before.retrying == enrolled.retrying && before.finished == enrolled.finished;
      assert enrolled.ewma.Keys == before.ewma.Keys + pooledAtHead;
    }
  }

  /** Whether a failed re-check of the address at position `k` is retried. */
  predicate Retried(b: Books, k: nat, world: World)
    requires k < |b.heap|
  {
    var addr := b.heap[k].addr;
    ShouldRetry(FoldEwma(Lookup(b.ewma, addr, 1.0), false), world.check(addr).AvgRespTime(), world.decay)
  }

  /** A failed re-check that is retried still had patience left. */
  lemma RetryMeansPatience(prev: real, failures: nat, latency: real, decay: real)
    requires 0.0 <= prev <= Fade(failures) && 0.0 <= decay <= 1.0
    requires ShouldRetry(FoldEwma(prev, false), latency, decay)
    ensures failures < PATIENCE
  {
    assert FoldEwma(prev, false) <= Fade(failures + 1);
    if failures >= PATIENCE {
      EvictionForced(FoldEwma(prev, false), latency, decay, failures + 1);
      assert false;
    }
  }
}
