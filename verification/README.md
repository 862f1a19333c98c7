# Verified model of the proxy broker

This project models the stateful and byte-level core of an async proxy scraper, checker and rotating
server in Dafny, and proves what that core is for. `dafny verify dfyconfig.toml` checks all of it.

What is modelled, module by module:

- **Selection**, **PoolModel**, **PoolProtocol** — the shared proxy pool. `Selection` is the pure choice of a proxy
  (ready tier before benched tier, four strategies). `PoolModel.Pool` is the pool object with its atomic
  operations. `PoolProtocol` interleaves those operations: any number of clients running `handle_client`
  around `get`, the importer, `add`, `remove` and `wait_ready`, with the store and the notification of each as
  separate steps and `notify_waiters` as a generation counter that is read before the look.
- **Relay** — one connection's relay attempts and the retry loop of `handle_client`, against a script of what the
  network does. What the client has received is part of the state.
- **Pipeline** — `check_stream`: the driver, the check tasks, the permit count, the slot counter, the cancellation
  token and the consumer, as a step relation.
- **Scheduler** — the re-check loop: its heap, maps and set, the token bucket, the jittered due times, and the decayed
  score that evicts. It calls the pool object.
- **Stores**, **TypesJson**, **Decimal** — the SQLite, Redis and in-memory stores, proved against one reference fold,
  with their JSON column and their set members.
- **Patterns**, **Scanner** — the two regular expressions as data with ordered-choice semantics, and the two scanners.
- **Connect**, **Headers**, **Socks5**, **Base64**, **ClientAuth** — the CONNECT printer against the server's parser,
  the header rewriting loops, the SOCKS5 front end, base64, and the two authentication gates.
- **Proxies**, **Rounding**, **Percentiles**, **Stats**, **Checking**, **Lifetime** — a proxy's accounts, the
  percentile, the statistics collector, checking a candidate, and the accounts over a proxy's whole life.

Floating-point numbers are reals; `round2` rounds to hundredths with ties to even. A mutable `Proxy` is a value held
in a field. Bytes are integers below 256. Network results, clock readings, random draws and the decay factor
`0.5^(age/half-life)` are inputs.

Several promises of the source turn out to hold under a condition only. The exact condition is proved in each case:

- The three stores agree if and only if no address's request or error total exceeds `u32::MAX`
  (`Stores.StoresAgreeIffFits`): beyond it the memory store saturates, SQLite wraps and Redis reads zero.
- Errors stay within requests when a proxy is loaded back if and only if the store hands the address's two totals back in
  order (`Stores.LoadedAccountedIff`), and through a whole life if and only if every load does
  (`Lifetime.AccountsForLifeIff`). The memory store always does. Redis does unless the requests exceed `u32::MAX` while
  the errors are positive and do not. SQLite does if the low 32 bits of the errors are at most those of the requests. A
  request total up to `u32::MAX` is enough for all three.
- The HTTP and SOCKS5 gates accept the same pairs if and only if the configured string contains a colon
  (`ClientAuth.GatesAgreeIffColon`).
- A stripped header is hidden from `header_value` if and only if no kept line contains the name after a bare LF
  (`Headers.StrippedFieldHiddenIff`); a `GET` with such a line is forwarded with its proxy credentials in place
  (`Connect.BareLfLeakRelayed`).
- CONNECT printing and parsing undo each other if and only if the bare host has no white space, is splittable from its
  authority, and the head is at most 65537 bytes (`Connect.ConnectRoundTripIff`). A `]` inside a host without a colon is
  harmless unless the host is bracketed on both ends; one before a colon is not (`Connect.UnsplittableHosts`).
- The scanners read back a written `ip:port` list if and only if every port has two to five digits
  (`Scanner.GlobalReadsBack`, `Scanner.LinesReadBack`): ports below 10 are lost.

## Model

| member | source | states |
|---|---|---|
| Selection.RankedTierMembers | src/server.rs:529-546 | the ranked tier holds exactly the serving proxies that are ready, or, when none is, the serving ones that are benched |
| Selection.BestForNoneIff | src/server.rs:529-546 | selection finds nothing exactly when nothing pooled serves the scheme |
| Selection.BestForPrefersReady | src/server.rs:525-543 | whenever some serving proxy is ready, a ready one is chosen |
| Selection.BestStrategyExact | src/server.rs:603-612 | under `Best` an index is chosen if and only if it is the first lexicographic minimum of error key, response time and connect penalty |
| Selection.StickyReusesPin | src/server.rs:559-571 | a pinned address present in the tier is reused; otherwise the choice is the `Best` one |
| Selection.ConnectBiased | src/server.rs:583-597 | the bias narrows the tier to exactly its connect-capable members if it is on and there are any, and leaves it whole otherwise |
| Selection.RoundRobinServes | src/server.rs:551-554 | each cursor value serves the member of the rotation at that position modulo its length |
| Selection.RoundRobinCovers | src/server.rs:551-554 | over a fixed tier every member of the rotation is served by some later cursor within one round |
| PoolModel.SwapRemove | src/server.rs:287-291 | taking an index out puts the last element into its place, moves no other and loses nothing else |
| PoolModel.Pool.FromProxies | src/server.rs:153-173 | exactly the proxies that pass the country filter are pooled, in order and ready, with the source exhausted |
| PoolModel.Pool.TrySelect | src/server.rs:271-299 | takes out exactly the selected proxy and leases its address to the client, advances the cursor only under round robin, and pins only under sticky |
| PoolModel.Pool.RecordSession | src/server.rs:302-312 | the pin, for an address a selection has handed to that client, is recorded; a full map loses exactly one other pin; the map stays within max(1, max_sessions) and every pin in it is such an address |
| PoolModel.Pool.PutInner | src/server.rs:330-344 | an unhealthy proxy is counted as evicted and dropped, any other is pushed with its bench time and announced |
| PoolModel.Pool.PutOk | src/server.rs:315-317 | a healthy proxy goes back ready at every time |
| PoolModel.Pool.PutFailed | src/server.rs:322-325 | a healthy proxy goes back benched for the fail timeout |
| PoolModel.Pool.Remove | src/server.rs:358-364 | drops every proxy at the address, keeps the others in order, and tells whether there was one |
| PoolModel.Pool.Add | src/server.rs:367-380 | adds unless the address is pooled, without a country filter; the address is pooled afterwards |
| PoolModel.Pool.Import | src/server.rs:197-208 | an import is screened by country, pushed ready and announced |
| PoolProtocol.ConservedStep | src/server.rs:223-299 | every step of every interleaving keeps each admitted proxy in exactly one of: pool, one client's hands, evicted, removed |
| PoolProtocol.LeasesConserved | src/server.rs:223-380 | in every reachable state the admitted proxies are the disjoint union of pooled, leased, evicted and removed, and `evictions` counts the dropped puts |
| PoolProtocol.LeasesReturned | src/server.rs:886-943 | every lease of `handle_client` is returned exactly once before its next `get` or its return, at most max_tries are taken, at most 8 draws are probed per `get`, and `rotations` is the sum of each client's leases after its first |
| PoolProtocol.AwakeStep | src/server.rs:229-251 | each step keeps: a waiter of the current generation has nothing to take unless a notification is still owed |
| PoolProtocol.NoLostWakeup | src/server.rs:223-252 | when no notification is owed, a client parked in `get` on the current generation implies a live source and no serving proxy in the pool, benched included |
| PoolProtocol.NoLostReadiness | src/server.rs:435-448 | the same for `wait_ready`: it sleeps only with a live source and fewer proxies than it waits for |
| PoolProtocol.OwedWakeup | src/server.rs:223-252 | whenever a client is parked in `get` on the current generation next to a serving proxy or an ended source, the notification it is owed can be made at once |
| PoolProtocol.OwedReadiness | src/server.rs:435-448 | the same for `wait_ready` and its threshold |
| PoolProtocol.ParkedMovesOn | src/server.rs:223-299 | from every reachable state a parked client has a way of at most six steps to a proxy that serves it if one is pooled, and to its refusal if none is and the source has ended, whatever the clock, the pin and the draw |
| PoolProtocol.WaiterMovesOn | src/server.rs:435-448 | a parked `wait_ready` whose condition holds has a way of at most five steps to its return |
| PoolProtocol.ParkedReached | src/server.rs:223-252 | on a fresh pool, with at least one try allowed, five steps of any client reach such a parked state with no notification owed |
| PoolProtocol.WaitReached | src/server.rs:435-448 | on a fresh pool four steps of any `wait_ready` for at least one proxy reach such a parked state |
| Relay.ReadStatusLine | src/server.rs:1337-1365 | reads byte by byte to the first LF or 256 bytes, and maps a closed, failed or slow stream to its error |
| Relay.StatusLineShape | src/server.rs:1354-1359 | the line read is a prefix of the upstream bytes that ends at its first LF, or is cut at the cap without one |
| Relay.Connection.RelayAttempt | src/server.rs:1202-1330 | one attempt reports and shows exactly what its branches prescribe: retryable failures before the commit point, acknowledgement or rewritten head, then the splice |
| Relay.RetryableShowsNothing | src/server.rs:1184-1198 | a failure that may be retried has written nothing to the client |
| Relay.Connection.HandleClient | src/server.rs:886-943 | the attempt loop does what the reference run over its attempts' results does, on bytes seen, puts, leases and rotations |
| Relay.CommitBoundary | src/server.rs:886-943 | over a whole run the client receives either one terminal failure alone or one attempt's bytes alone, within max_tries leases, with one rotation per lease after the first |
| Relay.EveryLeaseReturned | src/server.rs:886-943 | every leased proxy is put back exactly once, in order, charged and benched or credited and ready by its own outcome |
| Relay.OnlyAllowedStatusSeen | src/server.rs:1296-1313 | for a body-free forward with an allow-list, what reaches the client is the terminal failure or carries a status on the list |
| Relay.InjectKeepsStatusLine | src/server.rs:1306-1310 | the injected header never displaces the status line |
| Relay.History.Record | src/server.rs:1006-1012 | the entry is recorded; the map stays within its cap by dropping everything when a new key meets a full map |
| Relay.LeasedProtoIsConfirmed | src/server.rs:1119-1143 | the protocol chosen for a serving proxy is one it was confirmed for, and only tunnels over an `HTTPS` type are renamed |
| Pipeline.StepKeeps | src/broker.rs:616-672 | every step of the driver, a task or the consumer keeps the pipeline invariant |
| Pipeline.Safety | src/broker.rs:616-672 | in every interleaving at most max_conn tasks are live, at most `limit` proxies are emitted, and each emitted one passed and was recorded and shown exactly once before it was sent |
| Pipeline.Completeness | src/broker.rs:616-672 | if the consumer stayed, a finished run emitted exactly min(limit, passing) proxies, and short of the limit it recorded every source proxy and emitted every passing one |
| Pipeline.RunsAreBounded | src/broker.rs:621-672 | every run has a bounded number of steps |
| Pipeline.NeverStuck | src/broker.rs:616-672 | with a permit and a channel slot to give, an unfinished run always has an enabled step |
| Pipeline.CanFinish | src/broker.rs:616-672 | any run can be carried on to its end without dropping the stream |
| Pipeline.CompleteRunExists | src/broker.rs:616-672 | for every source, with a permit and a channel slot to give, some run ends undropped with exactly min(limit, passing) proxies emitted |
| Scheduler.NextIntervalFloor | src/scheduler.rs:51-56 | the cadence never falls below the smaller of the two intervals |
| Scheduler.ScoreBelowEwma | src/scheduler.rs:61-70 | neither latency nor decay lifts a score above the success average |
| Scheduler.EvictionForced | src/scheduler.rs:75-77 | more than ten consecutive failures are never retried, whatever the latency and the decay |
| Scheduler.EvictionBoundTight | src/scheduler.rs:75-77 | from a perfect score without latency or decay, a failure is retried if and only if it is among the first ten |
| Scheduler.EwmaForgets | src/persist.rs:23-25 | two averages fed the same samples differ by their initial gap times 0.7^n |
| Scheduler.WindowBound | src/scheduler.rs:147-148 | any window of width w holds at most floor(w/gap)+1 reserved starts |
| Scheduler.OnceMeans | src/scheduler.rs:142-166 | the heap invariant in plain terms, both ways: only tracked addresses, none twice, none missing |
| Scheduler.Rechecker.ReserveStart | src/scheduler.rs:188-193 | a start slot is not before now nor before the bucket allows, and all slots stay spaced by the gap |
| Scheduler.Rechecker.Enrol | src/scheduler.rs:156-166 | every pooled address becomes tracked once with average 1, and tracked ones are left alone |
| Scheduler.Rechecker.Settle | src/scheduler.rs:206-246 | after a working re-check the popped address is pooled and rescheduled; after a failed one it leaves the pool and is rescheduled or forgotten by its decayed score; a reschedule after a failure had patience left |
| Scheduler.Rechecker.Handle | src/scheduler.rs:195-246 | a popped address that is neither pooled nor retrying is forgotten without touching the pool; any other is settled, into the pool when it worked and out of it when not |
| Scheduler.Rechecker.Dispatch | src/scheduler.rs:168-203 | pops only the earliest address, never before its due time, after reserving a start slot |
| Scheduler.Rechecker.RunPass | src/scheduler.rs:150-247 | one pass keeps heap, maps and set consistent, tracks every pooled address, pools a checked address if it worked and drops it if not, and never pops a continuously tracked address sooner than the rest interval after its last check |
| Scheduler.RetryMeansPatience | src/scheduler.rs:233-240 | a failed re-check that is retried had fewer than ten failures before it |
| Stores.OneMore | src/persist.rs:406-438 | an upsert folds into its own address's account, or opens it, and changes no other |
| Stores.ConfirmedTypes | src/persist.rs:110-114 | the confirmed types are those of the last sample that had any |
| Stores.FoldedTotals | src/persist.rs:115-116 | requests and errors are the sums over the address's samples |
| Stores.SuccessAverage | src/persist.rs:117 | the success average is the re-checker's fold seeded by the first sample, and a probability |
| Stores.MemoryStore.Upsert | src/persist.rs:406-439 | folds one finished proxy into the record of its address, saturating the counters |
| Stores.MemoryStore.Load | src/persist.rs:442-459 | lists every address once with its account, totals capped at `u32::MAX` |
| Stores.SqliteStore.Upsert | src/persist.rs:96-138 | the insert-or-update statement keeps one row per address with its exact account |
| Stores.SqliteStore.Load | src/persist.rs:140-178 | lists every address once with its account, totals modulo 2^32 |
| Stores.OnConflict | src/persist.rs:109-122 | the update arm is the reference fold, including the guard that an empty sample keeps the types |
| Stores.Script | src/persist.rs:613-632 | the script is the reference fold, with an absent hash as a first sample |
| Stores.RedisStore.Upsert | src/persist.rs:669-696 | keeps exactly one hash and one set member per address, with its exact account |
| Stores.RedisStore.Load | src/persist.rs:698-750 | skips members that do not parse or have no hash; in a store written by upserts lists every address once, totals past the limit as zero |
| Stores.StoresAgreeIffFits | src/persist.rs:363-366 | for every upsert sequence the three stores load the same map if and only if every total fits a `u32` |
| Stores.ListingsAgree | src/persist.rs:442-459 | two listings of the same contents differ in order only |
| Stores.MemberReadsBack | src/persist.rs:701-719 | a set member splits back into its host and port, however many colons the host has |
| Stores.KeysDiffer | src/persist.rs:586-588 | different addresses have different members and hash keys |
| Stores.LoadedAccountedIff | src/proxy.rs:181-214 | when the upserted proxies kept errors within requests, a loaded one does if and only if its store hands the totals back in order: always in memory, by their low 32 bits in SQLite, and in Redis unless only the requests read as zero |
| Stores.WrapLosesRequests | src/persist.rs:165-173 | a witness: once an address with `u32::MAX` clean requests has one failed request more, both durable stores load more errors than requests |
| TypesJson.NamesReadBack | src/types.rs:98-106 | a protocol's and a level's printed name parse back to it |
| TypesJson.Collect | src/persist.rs:262-281 | the parsing loop inserts entries in order, skipping unknown protocols |
| TypesJson.TypesRoundTrip | src/persist.rs:251-281 | the types column reads back as the map it was written from, and `[]` is written for no types only |
| Decimal.ParseShow | src/persist.rs:715-718 | a printed port parses back to itself |
| Patterns.OctetDigital | src/parse.rs:24 | an octet is one to three digits |
| Patterns.PortDigital | src/parse.rs:30 | a port is two to five digits |
| Patterns.OctetFirst | src/parse.rs:24 | a written octet up to 255, leading zeros included, is the preferred match |
| Patterns.AddressMatched | src/parse.rs:24 | a written dotted address followed by no digit is matched whole |
| Patterns.PortMatched | src/parse.rs:30 | the port pattern matches where two digits start and takes as many as there are, up to five |
| Scanner.NearestToken | src/parse.rs:67-81 | the two searches and the strict comparison of starts equal a single walk that prefers an address |
| Scanner.FindAddrsGlobal | src/parse.rs:62-87 | the loop terminates and returns the one-pass specification for every text |
| Scanner.OnlyTheLastIsDropped | src/parse.rs:76-77 | the k-th pair emitted is the k-th address found; only the last can be missing, and it is exactly when neither an address nor a port follows it |
| Scanner.GlobalShape | src/parse.rs:62-87 | every port emitted is empty or two to five digits |
| Scanner.FindAddrsLine | src/parse.rs:36-52 | per line, the first address with the first port after it, for every text |
| Scanner.GlobalReadsBack | src/parse.rs:62-87 | a written list scans back to itself if and only if every port has two to five digits |
| Scanner.LinesReadBack | src/parse.rs:36-52 | the same for the line scanner |
| Scanner.PrintedEntry | src/parse.rs:36-52 | printed addresses are written ones, and a printed port qualifies from 10 on |
| Base64.Base64Encode | src/utils.rs:121-147 | the chunk loop computes the encoding for every input |
| Base64.DecodeEncode | src/utils.rs:121-147 | a reference decoder recovers every byte string (section 4 of RFC 4648) |
| Base64.EncodeShape | src/utils.rs:134-144 | the length is four per started group and `=` stands exactly in the places n mod 3 leaves over |
| Base64.EncodeInjective | src/utils.rs:121-147 | different inputs have different encodings |
| ClientAuth.HttpGateExact | src/server.rs:861-873 | comparing header strings accepts exactly the configured bytes |
| ClientAuth.GatesAgreeIffColon | src/server.rs:683-690 | the HTTP and SOCKS5 gates accept the same pairs if and only if the configured string has a colon |
| Headers.StripHeader | src/server.rs:1086-1105 | the loop computes the one-pass strip for every input |
| Headers.StripKeepsLines | src/server.rs:1086-1105 | the lines left are the original ones minus later lines with that name, in order, and the tail is untouched |
| Headers.StripIdempotent | src/server.rs:1086-1105 | stripping twice is stripping once |
| Headers.SanitizedLines | src/server.rs:1269-1282 | upstream sees the request line unchanged, then exactly one own header if and only if the upstream has credentials, then no line with that name |
| Headers.InjectedLines | src/server.rs:1069-1082 | an injected header becomes the second line and moves nothing else |
| Headers.StrippedFieldHiddenIff | src/server.rs:1086-1115 | the stripped head has no such value if and only if no kept line hides the name after a bare LF |
| Headers.NoBareLfNoLeak | src/server.rs:1086-1115 | if every LF follows a CR, the value read from the stripped head is none |
| Headers.BareLfLeaks | src/server.rs:1086-1115 | a kept line with the name after a bare LF leaks it |
| Connect.ReadClientHead | src/server.rs:1414-1427 | reads up to the blank line or past the cap, and leaves the rest |
| Connect.HeadTaken | src/server.rs:1414-1427 | the loop takes exactly the head if and only if the head fits the cap |
| Connect.AuthoritySplits | src/server.rs:1590-1604 | the authority splits back into the host if and only if the host is splittable, and then also into the port |
| Connect.HeaderValueIs | src/server.rs:1108-1115 | on a head of proper lines, the value is that of the first such line after the request line |
| Connect.ParsedHostNoSpace | src/server.rs:1429-1451 | a parsed CONNECT host has no white space |
| Connect.PrintedLines | src/negotiator.rs:296-320 | the printed request line by line, ending in one blank line |
| Connect.HeadParsed | src/server.rs:1429-1451 | a printed head parses to a tunnel request with exactly the credentials printed |
| Connect.ConnectRoundTripIff | src/negotiator.rs:293-320 | printing then parsing gives back host, port, credentials and the unread rest, if and only if host and length qualify (section 3.2.2 of RFC 3986, section 9.3.6 of RFC 9110) |
| Connect.UnsplittableHosts | src/server.rs:1590-1604 | `[[a]]` and `a]:b` are hosts that do not come back |
| Connect.BareLfLeakRelayed | src/server.rs:1086-1115 | for every secret without CR that fits, a plain `GET` the parser takes for a forward carries its `Proxy-Authorization` value through the strip |
| Connect.ConnectIsHttp | src/server.rs:1399-1407 | a printed request is not taken for a SOCKS5 greeting |
| Connect.ReadHead | src/negotiator.rs:229-254 | stops exactly at the first blank line within the cap; otherwise reports an empty, reset or runaway head |
| Socks5.Client.ParseSocks5 | src/server.rs:1479-1587 | the stepwise reads and writes implement the reference negotiation for every stream |
| Socks5.AllowedIsAccepted | src/server.rs:1479-1587 | a well-formed allowed exchange yields its address and port, the prescribed replies, and every following byte unread |
| Socks5.AcceptsExactlyAllowed | src/server.rs:1479-1587 | a stream is accepted if and only if it opens with an allowed exchange: the required method offered and, with authentication, the configured pair (sections 3, 4 and 6 of RFC 1928, section 2 of RFC 1929) |
| Socks5.AcceptedWasAllowed | src/server.rs:1479-1587 | from any accepted stream the exchange can be recovered, and it was read to its end and no further |
| Socks5.Refusals | src/server.rs:1492-1524 | a greeting without the method and a wrong pair get exactly the prescribed refusals |
| Rounding.Round2Monotone | src/proxy.rs:131-133 | rounding never reverses an order |
| Rounding.Round2Fixed | src/proxy.rs:131-133 | two-decimal values are left alone |
| Proxies.PriorityInRange | src/proxy.rs:306-362 | an accounted proxy's error rate and first ordering component lie in [0,1] and its response time is not negative |
| Proxies.RestoredAggregates | src/proxy.rs:181-214 | a restored proxy has the stored error total and response time |
| Percentiles.SortKeeps | src/proxy.rs:143-144 | the sorted copy is ordered and has the same samples |
| Percentiles.OrderDoesNotMatter | src/proxy.rs:139-150 | the percentile depends on the samples only, not on their order |
| Percentiles.QuantilesOrdered | src/proxy.rs:139-150 | a higher quantile is never lower |
| Percentiles.WithinExtremes | src/proxy.rs:139-150 | every quantile lies between the rounded least and greatest sample, which are quantiles 0 and 1 |
| Stats.StatsCollector.Record | src/stats.rs:69-99 | the tallies stay those of the recorded proxies and stay conserved: country counts sum to the total, protocol counts to the type-set sizes, error buckets to all errors |
| Stats.StatsCollector.Finish | src/stats.rs:102-123 | the report totals the recorded proxies, its country, protocol and error tallies sum to their number, type-set sizes and errors, and its quantiles come in order |
| Stats.FromProxies | src/stats.rs:44-50 | the report of a slice reflects exactly its proxies: country counts sum to the total, protocol counts to the type-set sizes, error buckets to all errors, and the quantiles come in order |
| Stats.ReportIsOrderFree | src/stats.rs:69-123 | two collectors that recorded the same proxies in different orders report the same |
| Stats.ReportedQuantiles | src/stats.rs:119-121 | the reported p50, p90 and p95 come in order |
| Checking.Candidate.CheckOne | src/checker.rs:304-398 | the retry loop settles at the first attempt that is not retried, every earlier one being recorded as its failure |
| Checking.CheckOneAccounts | src/checker.rs:330-398 | at most max_tries attempts, each a request; retries only on listed errors; errors rise by attempts less one exactly when it works; only then is the type confirmed |
| Checking.SignalsUnion | src/proxy.rs:298-304 | trust signals accumulate: none is lost, none is made up |
| Checking.Candidate.TypesPassed | src/checker.rs:548-585 | strict mode keeps exactly the accepted types; the verdict is whether any accepted type was confirmed, or nothing was requested |
| Checking.Candidate.Check | src/checker.rs:252-281 | the whole check is the reference one; a blocklisted proxy is refused untouched |
| Checking.PassedMeansWorking | src/checker.rs:252-281 | a candidate that passes has an accepted confirmed type, and in strict mode only accepted ones |
| Checking.CheckAccounts | src/checker.rs:273-278 | a check's requests are its attempts, at most max_tries per protocol, and errors stay within requests |
| Lifetime.StepKeepsIff | src/proxy.rs:306-397 | from accounts in order, a check, a relayed request or an upsert keeps them in order, and a load does if and only if its store hands the totals back in order |
| Lifetime.AccountsForLifeIff | src/proxy.rs:306-397 | over any sequence of checks, relayed requests, upserts and loads, errors stay within requests throughout if and only if every load hands its totals back in order |
| Lifetime.OrderingInRange | src/proxy.rs:306-362 | until such a load fails, the error rate and the first ordering component lie in [0,1] |
| Lifetime.HarmlessLoads | src/persist.rs:442-459 | a load from memory, or of a request total that fits a `u32`, hands its totals back in order |

## Left out

- Sockets, TLS, DNS resolution, timeouts and the SOCKS client library: each is an arbitrary outcome or a byte stream.
- The CLI, output formats, TUI, MCP glue, metrics text, geo databases, file watching, provider fetching, judge probing, decompression and the `proxycontrol` API: I/O or thin wrappers.
- `Pool::try_get`, `snapshot`, `addrs` and `proxies`: read-only or a filtered variant of selection; they would add easy members.
- Floating-point rounding error, NaN and infinities: reals are used throughout.
- Counter wrap-around of `requests` and of the error histogram (`u32`), of pool counters (`u64`) and of SQLite's `i64` totals past `i64::MAX`.
- The random generators: random picks, jitter and the session evicted from a full map are arbitrary within their range.
- Parsing and printing of IP addresses: a host is its canonical text, `str::parse::<IpAddr>` is an input function that accepts what was printed, and a SOCKS5 IPv4 or IPv6 address stays as its bytes.
- Lossy UTF-8 decoding of a SOCKS5 domain name and of a request head: bytes are kept as they are.
- Unicode white space when a header value or a status token is trimmed: ASCII white space only there; the CONNECT request line uses the full White_Space set.
- JSON text other than the canonical spelling the stores write: the reader modelled accepts that spelling and treats any other text as no types.
- The columns `first_seen` and `last_seen`, schema versions, SQLite contention retries and Redis connection errors: they never reach a load.
- Sticky pins and the round-robin cursor in PoolProtocol: there they are arbitrary inputs of each selection; PoolModel models them exactly.
- PoolProtocol gives every admitted proxy an identity, because addresses are not unique in the pool; it admits the same address any number of times.
- Task panics and runtime shutdown: a spawned task runs until it finishes or is cancelled at its cancellation point.
- Failed writes of SOCKS5 replies: a reply that cannot be written ends the handshake in the source.
- The store upsert inside the re-check loop, and the durable score: Stores models the fold, Scheduler the loop.
- Backoff delays between check attempts, judge selection, response validation and anonymity classification: the outcome of an attempt is an input.
- `find_addrs_global` against the regular expression it replaces: the specification used does not shorten an address to let a port match.
- A removal by the watcher during an awaited re-check can be undone by `Pool::add`, so no whole-run claim is made about it.
- Scheduler.Rechecker.Peek: finds the earliest entry by scanning; the binary heap's own layout is not modelled.
