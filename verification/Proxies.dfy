/** `src/proxy.rs` and `src/types.rs`: the proxy value, its accounting and its pool-ordering key. */
module Proxies {
  import opened Prelude
  import opened Rounding

  datatype Proto = Http | Https | Socks4 | Socks5 | Connect80 | Connect25

  datatype AnonLevel = Transparent | Anonymous | High

  datatype Scheme = PlainHttp | TlsHttps

  /** The error histogram's key. */
  datatype ProxyError =
    | ConnFailed | Timeout | Reset | EmptyRecv | BadStatus | BadResponse
    | ErrorOnStream | DisallowedStatus(code: int) | Resolve

  /** The canonical text of an `IpAddr`. */
  type Host = string

  type Addr = (Host, Port)

  type TypeMap = map<Proto, Option<AnonLevel>>

  datatype Caps = Caps(cookieEcho: bool, refererEcho: bool)

  datatype Credentials = Credentials(username: string, password: string)

  /**
   * A proxy. `id` is the identity of the owned Rust value as it is moved from owner to owner;
   * addresses are not unique in the pool, so they cannot play that part. The error histogram
   * (`HashMap<ProxyError, u32>`) is a multiset: a bucket's count is its multiplicity and the
   * sum of all buckets is the multiset's size.
   */
  datatype Proxy = Proxy(
    id: nat,
    host: Host,
    port: Port,
    expectedTypes: set<Proto>,
    country: Option<string>,
    types: TypeMap,
    requests: nat,
    errors: multiset<ProxyError>,
    runtimes: seq<real>,
    probeRuntimes: seq<real>,
    auth: Option<Credentials>,
    caps: Caps,
    trustSignals: seq<string>,
    ewma: Option<real>)
  {
    function Address(): Addr { (host, port) }

    predicate IsWorking() { types != map[] }

    function ErrorsTotal(): nat { |errors| }

    function ErrorRate(): real
    {
      if requests == 0 then 0.0 else Round2(ErrorsTotal() as real / requests as real)
    }

    function AvgRespTime(): real { MeanRounded(runtimes) }

    /** Pool-ordering key: lower is better. */
    function Priority(): (real, real)
    {
      var key := match ewma
        case Some(e) => MaxReal(ErrorRate(), 1.0 - e)
        case None => ErrorRate();
      (key, AvgRespTime())
    }

    predicate Serves(scheme: Scheme)
    {
      match scheme
      case PlainHttp => exists t :: t in types && t in {Http, Connect80, Socks4, Socks5}
      case TlsHttps => exists t :: t in types && t in {Https, Socks4, Socks5}
    }

    predicate HasConnect() { Connect80 in types }

    /** `record_attempt`: one more request, the error's bucket, and the runtime unless it timed out. */
    function RecordAttempt(runtime: Option<real>, err: Option<ProxyError>): Proxy
    {
      this.(requests := requests + 1,
            errors := if err.Some? then errors + multiset{err.value} else errors,
            runtimes := if runtime.Some? && err != Some(Timeout) then runtimes + [runtime.value] else runtimes)
    }

    /** Errors never outnumber requests, and the stored success EWMA is a probability. */
    predicate Accounted()
    {
      && ErrorsTotal() <= requests
      && (ewma.Some? ==> 0.0 <= ewma.value <= 1.0)
      && forall i :: 0 <= i < |runtimes| ==> 0.0 <= runtimes[i]
    }
  }

  function MaxReal(a: real, b: real): real { if a >= b then a else b }

  function Sum(xs: seq<real>): real
  {
    if xs == [] then 0.0 else Sum(xs[..|xs| - 1]) + xs[|xs| - 1]
  }

  function MeanRounded(xs: seq<real>): real
  {
    if xs == [] then 0.0 else Round2(Sum(xs) / |xs| as real)
  }

  /** `Proxy::restored` then `with_ewma`: seed the aggregates of a stored record. */
  function Restored(id: nat, host: Host, port: Port, types: TypeMap, requests: nat, errorsTotal: nat,
                    avgRespTime: real, ewma: Option<real>): Proxy
  {
    Proxy(id, host, port, {}, None, types, requests,
          if errorsTotal > 0 then multiset{}[BadResponse := errorsTotal] else multiset{},
          if avgRespTime > 0.0 then [avgRespTime] else [],
          [], None, Caps(false, false), [], ewma)
  }

  lemma {:induction false} SumNonNegative(xs: seq<real>)
    requires forall i :: 0 <= i < |xs| ==> 0.0 <= xs[i]
    ensures 0.0 <= Sum(xs)
  {
    if xs != [] { SumNonNegative(xs[..|xs| - 1]); }
  }

  /** For an accounted proxy both components of the ordering key are in range. */
  lemma PriorityInRange(p: Proxy)
    requires p.Accounted()
    ensures 0.0 <= p.ErrorRate() <= 1.0
    ensures 0.0 <= p.Priority().0 <= 1.0
    ensures 0.0 <= p.Priority().1
  {
    if p.requests != 0 {
      var q := p.ErrorsTotal() as real / p.requests as real;
      assert 0.0 <= q <= 1.0;
      Round2Unit(q);
    }
    SumNonNegative(p.runtimes);
    if p.runtimes != [] {
      Round2NonNegative(Sum(p.runtimes) / |p.runtimes| as real);
    }
  }

  /** Restoring is faithful on the error rate and, for a two-decimal mean, on the response time. */
  lemma RestoredAggregates(id: nat, host: Host, port: Port, types: TypeMap, requests: nat, errorsTotal: nat,
                           avg: real, ewma: Option<real>)
    ensures var p := Restored(id, host, port, types, requests, errorsTotal, avg, ewma);
            && p.ErrorsTotal() == errorsTotal
            && p.AvgRespTime() == (if avg > 0.0 then Round2(avg) else 0.0)
            && (p.Accounted() <==> errorsTotal <= requests && (ewma.Some? ==> 0.0 <= ewma.value <= 1.0))
  {
    var p := Restored(id, host, port, types, requests, errorsTotal, avg, ewma);
    if avg > 0.0 {
      assert [avg][..0] == [];
      assert Sum([avg]) == Sum([]) + avg == avg;
    }
  }
}
