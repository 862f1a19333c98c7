/**
 * `src/server.rs`: `relay` and the retry loop of `handle_client`. The network is a script: what
 * each connect, write and read of an attempt does. What the client has received is `seen`.
 */
module Relay {
  import opened Prelude
  import opened Proxies
  import opened Headers
  import opened Decimal

  datatype Frontend = HttpForward | HttpConnect | Socks5Tunnel

  /** The parsed request, as far as the relay needs it. */
  datatype Request = Request(scheme: Scheme, frontend: Frontend, raw: Bytes)

  const HTTP_502 := Text("HTTP/1.1 502 Bad Gateway\r\n\r\n")
  const SOCKS_OK: Bytes := [0x05, 0x00, 0x00, 0x01, 0, 0, 0, 0, 0, 0]
  const SOCKS_FAILED: Bytes := [0x05, 0x01, 0x00, 0x01, 0, 0, 0, 0, 0, 0]
  const PROXY_AUTHORIZATION := Text("Proxy-Authorization")
  const STATUS_LINE_CAP := 256

  function TerminalFailure(f: Frontend): Bytes
  {
    if f == Socks5Tunnel then SOCKS_FAILED else HTTP_502
  }

  function ProxyInfo(p: Proxy): Bytes
  {
    Text("X-Proxy-Info: " + p.host + ":" + Show(p.port) + "\r\n")
  }

  function ConnectAck(p: Proxy): Bytes
  {
    Text("HTTP/1.1 200 Connection established\r\n") + ProxyInfo(p) + CRLF
  }

  /** A write either goes through or breaks after some prefix has gone out. */
  datatype WriteResult = Wrote | BrokeAfter(n: nat)

  function Received(w: WriteResult, bytes: Bytes): (r: Bytes)
    ensures r <= bytes
  {
    if w.Wrote? || w.n >= |bytes| then bytes else bytes[..w.n]
  }

  /** How a byte stream ends when no more bytes come. */
  datatype StreamEnd = Closed | Broken | TimedOut

  /** Everything the network does in one attempt. `upstream` is what the far side sends first. */
  datatype Network = Network(
    connect: Option<ProxyError>,
    negotiate: Option<ProxyError>,
    toClient: WriteResult,
    toUpstream: bool,
    upstream: Bytes,
    end: StreamEnd,
    spliced: Bytes,
    spliceOk: bool)

  datatype Outcome =
    | Served
    | RetryableFailure(error: ProxyError)
    | ClientCommitted(error: ProxyError)
    | ClientGone

  // ----- the status line -----

  function EndError(end: StreamEnd): ProxyError
  {
    match end case Closed => EmptyRecv case Broken => Reset case TimedOut => Timeout
  }

  /** The bytes up to and including the first LF, or the first 256; `None` when they never come. */
  function StatusLine(upstream: Bytes, from: nat): (line: Option<Bytes>)
    requires from <= |upstream|
    decreases |upstream| - from
  {
    if from == |upstream| then None
    else if upstream[from] == LF || from + 1 >= STATUS_LINE_CAP then Some(upstream[..from + 1])
    else StatusLine(upstream, from + 1)
  }

  method ReadStatusLine(upstream: Bytes, end: StreamEnd) returns (line: Option<Bytes>, error: ProxyError)
    ensures line == StatusLine(upstream, 0)
    ensures line.None? ==> error == EndError(end)
  {
    var head: Bytes := [];
    error := EndError(end);
    while |head| < |upstream|
      invariant |head| <= |upstream| && head == upstream[..|head|]
      invariant StatusLine(upstream, 0) == StatusLine(upstream, |head|)
      invariant error == EndError(end)
    {
      ghost var k := |head|;
      head := head + [upstream[|head|]];
      assert head == upstream[..k + 1];
      if head[|head| - 1] == LF || |head| >= STATUS_LINE_CAP {
        return Some(head), error;
      }
    }
    return None, error;
  }

  /** The line is a prefix of what upstream sent, holds its only LF at the end, and is bounded. */
  lemma {:induction false} StatusLineShape(upstream: Bytes, from: nat)
    requires from < STATUS_LINE_CAP && from <= |upstream| && LF !in upstream[..from]
    ensures var line := StatusLine(upstream, from);
            line.Some? ==>
              && line.value <= upstream
              && from < |line.value| <= STATUS_LINE_CAP
              && LF !in line.value[..|line.value| - 1]
              && (line.value[|line.value| - 1] == LF || |line.value| == STATUS_LINE_CAP)
    ensures StatusLine(upstream, from).None? <==> |upstream| < STATUS_LINE_CAP && LF !in upstream
    decreases |upstream| - from
  {
    if from == |upstream| {
      assert upstream[..from] == upstream;
    } else if upstream[from] == LF {
      assert upstream[..from + 1][..from] == upstream[..from];
    } else if from + 1 >= STATUS_LINE_CAP {
      assert upstream[..from + 1][..from] == upstream[..from];
    } else {
      assert upstream[..from + 1] == upstream[..from] + [upstream[from]];
      StatusLineShape(upstream, from + 1);
    }
  }

  /** Well-formed UTF-8 (RFC 3629, section 4). */
  predicate Utf8(s: Bytes)
  {
    if s == [] then true
    else
      var n := if s[0] < 0x80 then 1 else if 0xC2 <= s[0] < 0xE0 then 2
               else if 0xE0 <= s[0] < 0xF0 then 3 else if 0xF0 <= s[0] <= 0xF4 then 4 else 0;
      && 1 <= n <= |s|
      && (n >= 2 ==> 0x80 <= s[1] < 0xC0)
      && (n >= 3 ==> 0x80 <= s[2] < 0xC0)
      && (n >= 4 ==> 0x80 <= s[3] < 0xC0)
      && (s[0] == 0xE0 ==> 0xA0 <= s[1])
      && (s[0] == 0xED ==> s[1] < 0xA0)
      && (s[0] == 0xF0 ==> 0x90 <= s[1])
      && (s[0] == 0xF4 ==> s[1] < 0x90)
      && Utf8(s[n..])
  }

  /** The bytes up to the next white space. */
  function Token(s: Bytes): (t: Bytes)
    ensures |t| <= |s|
  {
    if s == [] || IsSpace(s[0]) then [] else [s[0]] + Token(s[1..])
  }

  /** The second white-space separated token as a `u16`, or 0. */
  function ParseHttpStatus(line: Bytes): int
  {
    if !Utf8(line) then 0
    else
      var start := TrimStart(line);
      var second := Token(TrimStart(start[|Token(start)|..]));
      match ParseU16(AsText(second)) case None => 0 case Some(code) => code
  }

  /** A declared body: chunked, or a length that is not a plain zero. */
  predicate RequestHasBody(raw: Bytes)
  {
    || HeaderValue(raw, Text("Transfer-Encoding")).Some?
    || match HeaderValue(raw, Text("Content-Length"))
       case None => false
       case Some(v) =>
         match ParseUpTo(AsText(v), 0xFFFF_FFFF_FFFF_FFFF)
         case None => true
         case Some(n) => n > 0
  }

  // ----- one attempt -----

  /** What one attempt reports and what it lets the client see. */
  datatype Relayed = Relayed(outcome: Outcome, bytes: Bytes)

  /** After the acknowledgement or the replayed head, bytes are spliced in both directions. */
  function Splice(before: Bytes, net: Network): Relayed
  {
    Relayed(if net.spliceOk then Served else ClientCommitted(ErrorOnStream), before + net.spliced)
  }

  /** Write the commit-point bytes to the client; a failed write means the client is gone. */
  function Commit(bytes: Bytes, net: Network): Relayed
  {
    if net.toClient.Wrote? then Splice(bytes, net)
    else Relayed(ClientGone, Received(net.toClient, bytes))
  }

  function RelayForward(p: Proxy, req: Request, net: Network, allowed: Option<seq<int>>): Relayed
  {
    if !net.toUpstream then Relayed(RetryableFailure(Reset), [])
    else if RequestHasBody(req.raw) then Splice([], net)
    else
      match StatusLine(net.upstream, 0)
      case None => Relayed(RetryableFailure(EndError(net.end)), [])
      case Some(line) =>
        var code := ParseHttpStatus(line);
        if allowed.Some? && code !in allowed.value then Relayed(RetryableFailure(DisallowedStatus(code)), [])
        else Commit(InjectHeader(line, ProxyInfo(p)), net)
  }

  function RelaySpec(p: Proxy, req: Request, net: Network, allowed: Option<seq<int>>): Relayed
  {
    if net.connect.Some? then Relayed(RetryableFailure(net.connect.value), [])
    else if net.negotiate.Some? then Relayed(RetryableFailure(net.negotiate.value), [])
    else
      match req.frontend
      case HttpConnect => Commit(ConnectAck(p), net)
      case Socks5Tunnel => Commit(SOCKS_OK, net)
      case HttpForward => RelayForward(p, req, net, allowed)
  }

  /** A proxy on its way back to the pool, benched or not. */
  datatype Put = Put(proxy: Proxy, benched: bool)

  /** `History`: which upstream last served a request target for a client; cleared when it fills up. */
  class History {
    var entries: map<string, string>

    const CAP: nat := 10_000

    constructor ()
      ensures entries == map[]
    {
      entries := map[];
    }

    method Record(key: string, value: string)
      requires |entries| <= CAP
      modifies this
      ensures |entries| <= CAP
      ensures entries == (if |old(entries)| >= CAP && key !in old(entries) then map[] else old(entries))[key := value]
    {
      if |entries| >= CAP && key !in entries {
        entries := map[];
      }
      assert entries[key := value].Keys == entries.Keys + {key};
      assert |entries[key := value]| == |entries.Keys + {key}|;
      entries := entries[key := value];
    }
  }

  /** One client connection: what the client has received and what went back to the pool. */
  class Connection {
    var seen: Bytes
    var puts: seq<Put>
    var taken: nat
    var rotations: nat

    constructor ()
      ensures Abs() == Session([], [], 0, 0)
    {
      seen, puts, taken, rotations := [], [], 0, 0;
    }

    function Abs(): Session
      reads this
    {
      Session(seen, puts, taken, rotations)
    }

    /** `write_all` to the client. */
    method Write(bytes: Bytes, w: WriteResult) returns (ok: bool)
      modifies this`seen
      ensures ok == w.Wrote? && seen == old(seen) + Received(w, bytes)
    {
      seen := seen + Received(w, bytes);
      ok := w.Wrote?;
    }

    /** Both directions are copied until one of them ends. */
    method SpliceBoth(net: Network) returns (outcome: Outcome)
      modifies this`seen
      ensures Relayed(outcome, seen) == Splice(old(seen), net)
    {
      seen := seen + net.spliced;
      outcome := if net.spliceOk then Served else ClientCommitted(ErrorOnStream);
    }

    /** The commit point: from its first byte on, the client has seen something. */
    method CommitThenSplice(bytes: Bytes, net: Network) returns (outcome: Outcome)
      modifies this`seen
      ensures outcome == Commit(bytes, net).outcome && seen == old(seen) + Commit(bytes, net).bytes
    {
      var ok := Write(bytes, net.toClient);
      if !ok { return ClientGone; }
      outcome := SpliceBoth(net);
    }

    method ForwardAttempt(p: Proxy, req: Request, net: Network, allowed: Option<seq<int>>) returns (outcome: Outcome)
      modifies this`seen
      ensures outcome == RelayForward(p, req, net, allowed).outcome
      ensures seen == old(seen) + RelayForward(p, req, net, allowed).bytes
    {
      if !net.toUpstream {
        return RetryableFailure(Reset);
      }
      if RequestHasBody(req.raw) {
        outcome := SpliceBoth(net);
        return;
      }
      var line, error := ReadStatusLine(net.upstream, net.end);
      if line.None? {
        return RetryableFailure(error);
      }
      if allowed.Some? {
        var code := ParseHttpStatus(line.value);
        if code !in allowed.value {
          return RetryableFailure(DisallowedStatus(code));
        }
      }
      outcome := CommitThenSplice(InjectHeader(line.value, ProxyInfo(p)), net);
    }

    method RelayAttempt(p: Proxy, req: Request, net: Network, allowed: Option<seq<int>>) returns (outcome: Outcome)
      modifies this`seen
      ensures outcome == RelaySpec(p, req, net, allowed).outcome
      ensures seen == old(seen) + RelaySpec(p, req, net, allowed).bytes
    {
      if net.connect.Some? {
        return RetryableFailure(net.connect.value);
      }
      if net.negotiate.Some? {
        return RetryableFailure(net.negotiate.value);
      }
      match req.frontend {
        case HttpConnect => outcome := CommitThenSplice(ConnectAck(p), net);
        case Socks5Tunnel => outcome := CommitThenSplice(SOCKS_OK, net);
        case HttpForward => outcome := ForwardAttempt(p, req, net, allowed);
      }
    }

    /** Relay through one leased proxy and give it back. */
    method TryOnce(p: Proxy, req: Request, net: Network, allowed: Option<seq<int>>, attempt: nat)
      returns (outcome: Outcome)
      modifies this
      ensures var r := RelaySpec(p, req, net, allowed);
              outcome == r.outcome && Abs() == Resume(old(Abs()), OneAttempt(Attempted(p, r), attempt))
    {
      taken := taken + 1;
      if attempt > 0 {
        rotations := rotations + 1;
      }
      outcome := RelayAttempt(p, req, net, allowed);
      puts := puts + [PutBack(p, outcome)];
    }

    /**
     * The attempt loop. `script` says what each `get` returns and what the network then does;
     * a `None` is an exhausted pool.
     */
    method HandleClient(req: Request, maxTries: nat, script: seq<Option<(Proxy, Network)>>,
                        allowed: Option<seq<int>>, lastWrite: WriteResult)
      requires |script| >= maxTries
      requires Abs() == Session([], [], 0, 0)
      modifies this
      ensures Abs() == Serve(Results(req, script, allowed), maxTries, Refusal(req, lastWrite), 0)
    {
      ghost var results := Results(req, script, allowed);
      ghost var refusal := Refusal(req, lastWrite);
      var attempt := 0;
      while attempt < maxTries
        invariant 0 <= attempt <= maxTries
        invariant Resume(Abs(), Serve(results, maxTries, refusal, attempt)) == Serve(results, maxTries, refusal, 0)
      {
        ghost var before := Abs();
        ServeStep(before, results, maxTries, refusal, attempt);
        if script[attempt].None? {
          var _ := Write(TerminalFailure(req.frontend), lastWrite);
          return;
        }
        var (proxy, net) := script[attempt].value;
        ResultAt(req, script, allowed, attempt, proxy, net);
        var outcome := TryOnce(proxy, req, net, allowed, attempt);
        if !outcome.RetryableFailure? {
          return;
        }
        attempt := attempt + 1;
      }
      var _ := Write(TerminalFailure(req.frontend), lastWrite);
    }
  }

  // ----- a whole run of the loop -----

  /** What a connection amounts to: client bytes, returned proxies, leases, rotations. */
  datatype Session = Session(seen: Bytes, puts: seq<Put>, taken: nat, rotations: nat)

  function Resume(a: Session, b: Session): Session
  {
    Session(a.seen + b.seen, a.puts + b.puts, a.taken + b.taken, a.rotations + b.rotations)
  }

  /** How a proxy goes back: charged and benched, or credited and ready. */
  function PutBack(p: Proxy, outcome: Outcome): Put
  {
    match outcome
    case Served => Put(p.RecordAttempt(Some(0.0), None), false)
    case ClientGone => Put(p.RecordAttempt(Some(0.0), None), false)
    case RetryableFailure(e) => Put(p.RecordAttempt(None, Some(e)), true)
    case ClientCommitted(e) => Put(p.RecordAttempt(None, Some(e)), true)
  }

  /** A leased proxy and what came of relaying through it. */
  datatype Attempted = Attempted(proxy: Proxy, relayed: Relayed)

  function Results(req: Request, script: seq<Option<(Proxy, Network)>>, allowed: Option<seq<int>>)
    : seq<Option<Attempted>>
  {
    seq(|script|, j requires 0 <= j < |script| =>
      match script[j]
      case None => None
      case Some((p, net)) => Some(Attempted(p, RelaySpec(p, req, net, allowed))))
  }

  lemma ResultAt(req: Request, script: seq<Option<(Proxy, Network)>>, allowed: Option<seq<int>>, j: nat,
                 p: Proxy, net: Network)
    requires j < |script| && script[j] == Some((p, net))
    ensures Results(req, script, allowed)[j] == Some(Attempted(p, RelaySpec(p, req, net, allowed)))
  {
  }

  /** What the client receives of the terminal failure. */
  function Refusal(req: Request, w: WriteResult): Bytes
  {
    Received(w, TerminalFailure(req.frontend))
  }

  function OneAttempt(a: Attempted, attempt: nat): Session
  {
    Session(a.relayed.bytes, [PutBack(a.proxy, a.relayed.outcome)], 1, if attempt > 0 then 1 else 0)
  }

  /** The attempt loop over what its attempts come to. */
  function Serve(results: seq<Option<Attempted>>, maxTries: nat, refusal: Bytes, attempt: nat): Session
    requires |results| >= maxTries >= attempt
    decreases maxTries - attempt
  {
    if attempt == maxTries || results[attempt].None? then Session(refusal, [], 0, 0)
    else
      var one := OneAttempt(results[attempt].value, attempt);
      if results[attempt].value.relayed.outcome.RetryableFailure?
      then Resume(one, Serve(results, maxTries, refusal, attempt + 1))
      else one
  }

  lemma ResumeAssoc(a: Session, b: Session, c: Session)
    ensures Resume(a, Resume(b, c)) == Resume(Resume(a, b), c)
  {
    assert a.seen + (b.seen + c.seen) == (a.seen + b.seen) + c.seen;
    assert a.puts + (b.puts + c.puts) == (a.puts + b.puts) + c.puts;
  }

  /** One iteration: an exhausted pool and a settled attempt end the run, a retryable one goes on. */
  lemma ServeStep(a: Session, results: seq<Option<Attempted>>, maxTries: nat, refusal: Bytes, attempt: nat)
    requires attempt < maxTries <= |results|
    ensures results[attempt].None? ==> Serve(results, maxTries, refusal, attempt) == Session(refusal, [], 0, 0)
    ensures results[attempt].Some? ==>
              var after := Resume(a, OneAttempt(results[attempt].value, attempt));
              if results[attempt].value.relayed.outcome.RetryableFailure?
              then Resume(after, Serve(results, maxTries, refusal, attempt + 1))
                   == Resume(a, Serve(results, maxTries, refusal, attempt))
              else after == Resume(a, Serve(results, maxTries, refusal, attempt))
  {
    if results[attempt].Some? {
      ResumeAssoc(a, OneAttempt(results[attempt].value, attempt), Serve(results, maxTries, refusal, attempt + 1));
    }
  }

  /** The commit boundary of one attempt: a failure that may be retried has shown the client nothing. */
  lemma RetryableShowsNothing(p: Proxy, req: Request, net: Network, allowed: Option<seq<int>>)
    ensures RelaySpec(p, req, net, allowed).outcome.RetryableFailure? ==> RelaySpec(p, req, net, allowed).bytes == []
  {
  }

  /** Attempt `j` got a proxy and failed in a way that may be retried. */
  predicate Retries(results: seq<Option<Attempted>>, j: nat)
    requires j < |results|
  {
    results[j].Some? && results[j].value.relayed.outcome.RetryableFailure?
  }

  /** No retryable failure has shown the client a byte. */
  predicate Silent(results: seq<Option<Attempted>>)
  {
    forall j :: 0 <= j < |results| && Retries(results, j) ==> results[j].value.relayed.bytes == []
  }

  lemma RelaysAreSilent(req: Request, script: seq<Option<(Proxy, Network)>>, allowed: Option<seq<int>>)
    ensures Silent(Results(req, script, allowed))
  {
    var results := Results(req, script, allowed);
    forall j | 0 <= j < |results| && Retries(results, j)
      ensures results[j].value.relayed.bytes == []
    {
      var (p, net) := script[j].value;
      RetryableShowsNothing(p, req, net, allowed);
    }
  }

  /** The attempt that settles the request: the first one that is not retried, or the bound. */
  function Decider(results: seq<Option<Attempted>>, maxTries: nat, from: nat): (k: nat)
    requires |results| >= maxTries >= from
    ensures from <= k <= maxTries
    ensures forall j :: from <= j < k ==> Retries(results, j)
    ensures k < maxTries ==> !Retries(results, k)
    decreases maxTries - from
  {
    if from == maxTries || !Retries(results, from) then from else Decider(results, maxTries, from + 1)
  }

  /** The settling attempt had a proxy: its bytes are the client's answer. */
  predicate Answered(results: seq<Option<Attempted>>, maxTries: nat, k: nat)
    requires |results| >= maxTries
  {
    k < maxTries && results[k].Some?
  }

  /** A silent retry adds one lease and no byte. */
  lemma RetriedServe(results: seq<Option<Attempted>>, maxTries: nat, refusal: Bytes, from: nat)
    requires |results| >= maxTries > from && Retries(results, from) && Silent(results)
    ensures var (s, rest) := (Serve(results, maxTries, refusal, from), Serve(results, maxTries, refusal, from + 1));
            && s.taken == 1 + rest.taken && s.seen == rest.seen
            && s.rotations == (if from > 0 then 1 else 0) + rest.rotations
    ensures Decider(results, maxTries, from) == Decider(results, maxTries, from + 1)
  {
    var rest := Serve(results, maxTries, refusal, from + 1);
    assert results[from].value.relayed.bytes == [];
    assert [] + rest.seen == rest.seen;
  }

  lemma {:induction false} ServeBySettling(results: seq<Option<Attempted>>, maxTries: nat, refusal: Bytes, from: nat)
    requires |results| >= maxTries >= from && Silent(results)
    ensures var s := Serve(results, maxTries, refusal, from);
            var k := Decider(results, maxTries, from);
            && s.taken == k - from + (if Answered(results, maxTries, k) then 1 else 0)
            && s.rotations == (if from == 0 && s.taken > 0 then s.taken - 1 else s.taken)
            && s.seen == (if Answered(results, maxTries, k) then results[k].value.relayed.bytes else refusal)
    decreases maxTries - from
  {
    if from < maxTries && Retries(results, from) {
      ServeBySettling(results, maxTries, refusal, from + 1);
      RetriedServe(results, maxTries, refusal, from);
    }
  }

  /**
   * The commit boundary over a whole run: the client receives either the terminal failure alone, or
   * the bytes of the settling attempt alone, everything before it having failed silently. At most
   * `max_tries` proxies are leased and the rotations are the leases after the first.
   */
  lemma CommitBoundary(req: Request, maxTries: nat, script: seq<Option<(Proxy, Network)>>,
                       allowed: Option<seq<int>>, lastWrite: WriteResult)
    requires |script| >= maxTries
    ensures var results := Results(req, script, allowed);
            var s := Serve(results, maxTries, Refusal(req, lastWrite), 0);
            var k := Decider(results, maxTries, 0);
            && s.taken <= maxTries
            && s.rotations == (if s.taken > 0 then s.taken - 1 else 0)
            && (if Answered(results, maxTries, k)
                then s.taken == k + 1 && s.seen == results[k].value.relayed.bytes
                else s.taken == k && s.seen == Refusal(req, lastWrite))
  {
    RelaysAreSilent(req, script, allowed);
    ServeBySettling(Results(req, script, allowed), maxTries, Refusal(req, lastWrite), 0);
  }

  /** This put gives back the proxy that this attempt leased, charged or credited by its outcome. */
  predicate GivesBack(put: Put, lease: Option<Attempted>)
  {
    lease.Some? && put == PutBack(lease.value.proxy, lease.value.relayed.outcome)
  }

  /** Put by put and attempt by attempt. */
  predicate AllGivenBack(puts: seq<Put>, results: seq<Option<Attempted>>, from: nat)
  {
    puts == [] ||
    (from < |results| && GivesBack(puts[0], results[from]) && AllGivenBack(puts[1..], results, from + 1))
  }

  /** Every leased proxy goes back exactly once, in order, charged or credited by its own outcome. */
  lemma {:induction false} EveryLeaseReturned(results: seq<Option<Attempted>>, maxTries: nat, refusal: Bytes, from: nat)
    requires |results| >= maxTries >= from
    ensures var s := Serve(results, maxTries, refusal, from);
            |s.puts| == s.taken <= maxTries - from && AllGivenBack(s.puts, results, from)
    decreases maxTries - from
  {
    if from < maxTries && Retries(results, from) {
      EveryLeaseReturned(results, maxTries, refusal, from + 1);
      var rest := Serve(results, maxTries, refusal, from + 1).puts;
      assert Serve(results, maxTries, refusal, from).puts[1..] == rest;
    }
  }

  /** The status line stays in front: the injected header goes after it. */
  lemma InjectKeepsStatusLine(upstream: Bytes, header: Bytes)
    requires StatusLine(upstream, 0).Some?
    ensures StatusLine(upstream, 0).value <= InjectHeader(StatusLine(upstream, 0).value, header)
  {
    StatusLineShape(upstream, 0);
    var line := StatusLine(upstream, 0).value;
    var pos := CrlfAt(line);
    var body := line[..|line| - 1];
    if pos < |line| {
      forall i | 0 <= i < |body|
        ensures line[i] != LF
      {
        assert body[i] in body;
      }
      assert line[..pos + 2] == line;
    }
  }

  /**
   * For a body-free forward with an allow-list, what the client sees is the terminal failure or
   * agrees with a status line whose code is on the list: it never sees another status.
   */
  lemma OnlyAllowedStatusSeen(req: Request, maxTries: nat, script: seq<Option<(Proxy, Network)>>,
                              codes: seq<int>, lastWrite: WriteResult)
    requires |script| >= maxTries
    requires req.frontend == HttpForward && !RequestHasBody(req.raw)
    ensures var results := Results(req, script, Some(codes));
            var s := Serve(results, maxTries, Refusal(req, lastWrite), 0);
            var k := Decider(results, maxTries, 0);
            if Answered(results, maxTries, k) then
              && script[k].Some?
              && var line := StatusLine(script[k].value.1.upstream, 0);
                 line.Some? && ParseHttpStatus(line.value) in codes && (s.seen <= line.value || line.value <= s.seen)
            else s.seen == Refusal(req, lastWrite)
  {
    CommitBoundary(req, maxTries, script, Some(codes), lastWrite);
    var results := Results(req, script, Some(codes));
    var k := Decider(results, maxTries, 0);
    if Answered(results, maxTries, k) {
      assert !Retries(results, k);
      AllowedHead(script[k].value.0, req, script[k].value.1, codes);
    }
  }

  lemma AllowedHead(p: Proxy, req: Request, net: Network, codes: seq<int>)
    requires req.frontend == HttpForward && !RequestHasBody(req.raw)
    requires !RelaySpec(p, req, net, Some(codes)).outcome.RetryableFailure?
    ensures var line := StatusLine(net.upstream, 0);
            var bytes := RelaySpec(p, req, net, Some(codes)).bytes;
            line.Some? && ParseHttpStatus(line.value) in codes && (bytes <= line.value || line.value <= bytes)
  {
    var line := StatusLine(net.upstream, 0).value;
    InjectKeepsStatusLine(net.upstream, ProxyInfo(p));
    var head := InjectHeader(line, ProxyInfo(p));
    var bytes := RelaySpec(p, req, net, Some(codes)).bytes;
    if net.toClient.Wrote? {
      assert bytes == head + net.spliced;
      assert bytes[..|line|] == head[..|line|];
    } else {
      assert bytes <= head;
      if |bytes| <= |line| {
        assert bytes == head[..|bytes|] == line[..|bytes|];
      } else {
        assert bytes[..|line|] == head[..|line|];
      }
    }
  }

  // ----- which protocol is negotiated -----

  /** The first confirmed protocol of the scheme's preference list, else the scheme's own. */
  function ChooseProto(p: Proxy, scheme: Scheme): Proto
  {
    match scheme
    case TlsHttps =>
      if Https in p.types then Https else if Socks5 in p.types then Socks5
      else if Socks4 in p.types then Socks4 else if Connect80 in p.types then Connect80 else Https
    case PlainHttp =>
      if Http in p.types then Http else if Connect80 in p.types then Connect80
      else if Socks5 in p.types then Socks5 else if Socks4 in p.types then Socks4 else Http
  }

  function RelayNegotiationProto(proto: Proto, frontend: Frontend): Proto
  {
    if proto == Https && frontend != HttpForward then Connect80 else proto
  }

  /**
   * A proxy leased for a scheme is used through a protocol it has confirmed, and a tunnel client
   * never gets the negotiator that would terminate its TLS.
   */
  lemma LeasedProtoIsConfirmed(p: Proxy, scheme: Scheme, frontend: Frontend)
    requires p.Serves(scheme)
    ensures ChooseProto(p, scheme) in p.types
    ensures frontend != HttpForward ==> RelayNegotiationProto(ChooseProto(p, scheme), frontend) != Https
    ensures ChooseProto(p, scheme) != Connect25
  {
  }
}
