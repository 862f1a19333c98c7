/**
 * `src/persist.rs`: the three state stores. Each one folds the outcomes of finished proxies into a
 * durable record per address; each is proved against one reference fold of the upserted samples.
 */
module Stores {
  import opened Prelude
  import opened Proxies
  import opened Decimal
  import opened TypesJson
  import Scheduler

  type u32 = x: int | 0 <= x <= 0xFFFF_FFFF

  const TWO_TO_THE_32: nat := 0x1_0000_0000
  const U64_MAX: nat := 0xFFFF_FFFF_FFFF_FFFF

  // ----- the reference: one account per address -----

  /** What an upsert reads off a finished proxy. */
  datatype Sample = Sample(addr: Addr, types: TypeMap, requests: u32, errors: u32, latency: real)
  {
    predicate Working() { types != map[] }

    function Score(): real { if Working() then 1.0 else 0.0 }

    function Up(): nat { if Working() then 1 else 0 }
  }

  /** The counters of a proxy are `u32`s. */
  predicate Countable(p: Proxy)
  {
    p.requests <= U32_MAX && p.ErrorsTotal() <= U32_MAX
  }

  function SampleOf(p: Proxy): Sample
    requires Countable(p)
  {
    Sample(p.Address(), p.types, p.requests, p.ErrorsTotal(), p.AvgRespTime())
  }

  /** Exact totals and running averages. */
  datatype Account = Account(types: TypeMap, requests: nat, errors: nat, ewma: real, latency: real, uptime: nat)

  function Opened(s: Sample): Account
  {
    Account(s.types, s.requests, s.errors, s.Score(), s.latency, s.Up())
  }

  function Fold(a: Account, s: Sample): Account
  {
    Account(
      if s.Working() then s.types else a.types,
      a.requests + s.requests,
      a.errors + s.errors,
      Scheduler.FoldEwma(a.ewma, s.Working()),
      if s.latency > 0.0 then 0.3 * s.latency + 0.7 * a.latency else a.latency,
      a.uptime + s.Up())
  }

  function Folded(history: seq<Sample>): Account
    requires history != []
  {
    if |history| == 1 then Opened(history[0])
    else Fold(Folded(history[..|history| - 1]), history[|history| - 1])
  }

  /** The samples of one address, oldest first. */
  function Of(samples: seq<Sample>, addr: Addr): seq<Sample>
  {
    if samples == [] then []
    else
      var s := samples[|samples| - 1];
      Of(samples[..|samples| - 1], addr) + (if s.addr == addr then [s] else [])
  }

  function Seen(samples: seq<Sample>): set<Addr>
  {
    if samples == [] then {} else Seen(samples[..|samples| - 1]) + {samples[|samples| - 1].addr}
  }

  lemma {:induction false} SeenIffSampled(samples: seq<Sample>, addr: Addr)
    ensures addr in Seen(samples) <==> Of(samples, addr) != []
  {
    if samples != [] { SeenIffSampled(samples[..|samples| - 1], addr); }
  }

  /** The account an upsert sequence leaves at an address it touched. */
  function AccountOf(samples: seq<Sample>, addr: Addr): Account
    requires addr in Seen(samples)
  {
    SeenIffSampled(samples, addr);
    Folded(Of(samples, addr))
  }

  /** One more sample changes the account of its own address and no other. */
  lemma OneMore(samples: seq<Sample>, s: Sample, addr: Addr)
    ensures Seen(samples + [s]) == Seen(samples) + {s.addr}
    ensures addr == s.addr ==> (AccountOf(samples + [s], addr)
                                == if addr in Seen(samples) then Fold(AccountOf(samples, addr), s) else Opened(s))
    ensures addr != s.addr && addr in Seen(samples) ==> AccountOf(samples + [s], addr) == AccountOf(samples, addr)
  {
    assert (samples + [s])[..|samples|] == samples;
    SeenIffSampled(samples, addr);
    var h := Of(samples, addr);
    assert (h + [s])[..|h|] == h && h + [] == h;
    assert Of(samples + [s], addr) == h + (if s.addr == addr then [s] else []);
  }

  lemma OthersStay(samples: seq<Sample>, s: Sample)
    ensures forall addr | addr in Seen(samples) && addr != s.addr ::
              AccountOf(samples + [s], addr) == AccountOf(samples, addr)
  {
    forall addr | addr in Seen(samples) && addr != s.addr
      ensures AccountOf(samples + [s], addr) == AccountOf(samples, addr)
    {
      OneMore(samples, s, addr);
    }
  }

  // ----- what the reference means -----

  function Requests(history: seq<Sample>): nat
  {
    if history == [] then 0 else Requests(history[..|history| - 1]) + history[|history| - 1].requests
  }

  function Errors(history: seq<Sample>): nat
  {
    if history == [] then 0 else Errors(history[..|history| - 1]) + history[|history| - 1].errors
  }

  function Outcomes(history: seq<Sample>): seq<bool>
  {
    seq(|history|, i requires 0 <= i < |history| => history[i].Working())
  }

  lemma {:induction false} FoldedTotals(history: seq<Sample>)
    requires history != []
    ensures Folded(history).requests == Requests(history)
    ensures Folded(history).errors == Errors(history)
  {
    if |history| == 1 {
      assert history[..0] == [];
      assert Requests(history[..0]) == 0 && Errors(history[..0]) == 0;
    } else {
      FoldedTotals(history[..|history| - 1]);
    }
  }

  /** The confirmed types are those of the last sample that had any. */
  lemma {:induction false} ConfirmedTypes(history: seq<Sample>, k: nat)
    requires k < |history| && forall j :: k < j < |history| ==> history[j].types == map[]
    requires k == 0 || history[k].types != map[]
    ensures Folded(history).types == history[k].types
  {
    if k != |history| - 1 {
      ConfirmedTypes(history[..|history| - 1], k);
    }
  }

  /** The success average is the re-checker's fold, seeded by the first sample; it is a probability. */
  lemma {:induction false} SuccessAverage(history: seq<Sample>)
    requires history != []
    ensures Folded(history).ewma == Scheduler.FoldAll(history[0].Score(), Outcomes(history)[1..])
    ensures 0.0 <= Folded(history).ewma <= 1.0
  {
    if |history| == 1 {
      assert Outcomes(history)[1..] == [];
    } else {
      var rest := history[..|history| - 1];
      SuccessAverage(rest);
      var outcomes := Outcomes(history)[1..];
      assert outcomes[..|outcomes| - 1] == Outcomes(rest)[1..];
    }
  }

  /** If no sample has more errors than requests, neither has its account. */
  lemma {:induction false} AccountAccounted(history: seq<Sample>)
    requires history != [] && forall i :: 0 <= i < |history| ==> history[i].errors <= history[i].requests
    ensures Folded(history).errors <= Folded(history).requests
  {
    if |history| > 1 {
      var rest := history[..|history| - 1];
      assert forall i :: 0 <= i < |rest| ==> rest[i] == history[i];
      AccountAccounted(rest);
    }
  }

  // ----- what a load hands out -----

  /** The arguments of `Proxy::restored` and `with_ewma`. */
  datatype Loaded = Loaded(addr: Addr, types: TypeMap, requests: u32, errors: u32, latency: real,
                           ewma: Option<real>)
  {
    function Proxy(id: nat): Proxy
    {
      Restored(id, addr.0, addr.1, types, requests, errors, latency, ewma)
    }
  }

  datatype Backend = Memory | Sqlite | Redis

  /**
   * A total as a loaded `u32`: the memory store saturates as it adds, SQLite keeps an `i64` and
   * `as u32` wraps it, Redis keeps a number whose text `parse::<u32>` refuses beyond the limit.
   */
  function Count(b: Backend, total: nat): u32
  {
    match b
    case Memory => if total <= U32_MAX then total else U32_MAX
    case Sqlite => total % TWO_TO_THE_32
    case Redis => if total <= U32_MAX then total else 0
  }

  function LoadedOf(b: Backend, addr: Addr, a: Account): Loaded
  {
    Loaded(addr, a.types, Count(b, a.requests), Count(b, a.errors), a.latency, Some(a.ewma))
  }

  /** What a store of this kind holds after these upserts. */
  function View(b: Backend, samples: seq<Sample>): map<Addr, Loaded>
  {
    map addr | addr in Seen(samples) :: LoadedOf(b, addr, AccountOf(samples, addr))
  }

  /** Each entry of the view once, in some order. */
  predicate Lists(out: seq<Loaded>, view: map<Addr, Loaded>)
  {
    if out == [] then view == map[]
    else
      var l := out[|out| - 1];
      l.addr in view && view[l.addr] == l && Lists(out[..|out| - 1], view - {l.addr})
  }

  lemma ListOneMore(out: seq<Loaded>, view: map<Addr, Loaded>, l: Loaded)
    requires Lists(out, view) && l.addr !in view
    ensures Lists(out + [l], view[l.addr := l])
  {
    assert (out + [l])[..|out|] == out;
    assert view[l.addr := l] - {l.addr} == view;
  }

  /** The part of a view a loop has not left to do. */
  function Done(view: map<Addr, Loaded>, todo: set<Addr>): map<Addr, Loaded>
  {
    map addr | addr in view && addr !in todo :: view[addr]
  }

  lemma DoneOneMore(out: seq<Loaded>, view: map<Addr, Loaded>, todo: set<Addr>, addr: Addr)
    requires addr in todo && addr in view && view[addr].addr == addr && Lists(out, Done(view, todo))
    ensures Lists(out + [view[addr]], Done(view, todo - {addr}))
  {
    ListOneMore(out, Done(view, todo), view[addr]);
    assert Done(view, todo - {addr}) == Done(view, todo)[addr := view[addr]];
  }

  lemma {:induction false} ListsElement(out: seq<Loaded>, view: map<Addr, Loaded>, l: Loaded)
    requires Lists(out, view)
    ensures l in out <==> l.addr in view && view[l.addr] == l
    ensures multiset(out)[l] <= 1
  {
    if out != [] {
      var last := out[|out| - 1];
      ListsElement(out[..|out| - 1], view - {last.addr}, l);
      assert out == out[..|out| - 1] + [last];
    }
  }

  /** Two listings of one view differ in order only. */
  lemma ListingsAgree(a: seq<Loaded>, b: seq<Loaded>, view: map<Addr, Loaded>)
    requires Lists(a, view) && Lists(b, view)
    ensures multiset(a) == multiset(b)
  {
    forall l ensures multiset(a)[l] == multiset(b)[l] {
      ListsElement(a, view, l);
      ListsElement(b, view, l);
      assert l in multiset(a) <==> l in a;
      assert l in multiset(b) <==> l in b;
    }
  }

  // ----- agreement -----

  lemma CountsAgree(total: nat)
    ensures Count(Memory, total) == Count(Sqlite, total) && Count(Memory, total) == Count(Redis, total)
      <==> total <= U32_MAX
  {
  }

  predicate Fits(samples: seq<Sample>)
  {
    forall addr | addr in Seen(samples) ::
      AccountOf(samples, addr).requests <= U32_MAX && AccountOf(samples, addr).errors <= U32_MAX
  }

  /**
   * The three folds are one function exactly as long as no address's totals outgrow a `u32`.
   */
  lemma StoresAgreeIffFits(samples: seq<Sample>)
    ensures (View(Memory, samples) == View(Sqlite, samples) && View(Memory, samples) == View(Redis, samples))
      <==> Fits(samples)
  {
    forall addr | addr in Seen(samples)
      ensures (View(Memory, samples)[addr] == View(Sqlite, samples)[addr]
               && View(Memory, samples)[addr] == View(Redis, samples)[addr])
        <==> AccountOf(samples, addr).requests <= U32_MAX && AccountOf(samples, addr).errors <= U32_MAX
    {
      var a := AccountOf(samples, addr);
      CountsAgree(a.requests);
      CountsAgree(a.errors);
    }
  }

  /**
   * Whether totals with no more errors than requests are handed back as such. Saturation always
   * does. A Redis load reads zero past the limit, so it loses requests that errors survive unless
   * there are none or they are past the limit too. `as u32` compares the low halves.
   */
  predicate KeepsOrder(b: Backend, requests: nat, errors: nat)
  {
    match b
    case Memory => true
    case Sqlite => errors % TWO_TO_THE_32 <= requests % TWO_TO_THE_32
    case Redis => requests <= U32_MAX || errors == 0 || errors > U32_MAX
  }

  /** Totals that fit are always handed back in order. */
  lemma FittingKeepsOrder(b: Backend, requests: nat, errors: nat)
    requires errors <= requests <= U32_MAX
    ensures KeepsOrder(b, requests, errors)
  {
    LowHalf(errors);
    LowHalf(requests);
  }

  lemma LowHalf(n: nat)
    requires n <= U32_MAX
    ensures n % TWO_TO_THE_32 == n
  {
  }

  lemma CountKeepsOrder(b: Backend, requests: nat, errors: nat)
    requires errors <= requests
    ensures Count(b, errors) <= Count(b, requests) <==> KeepsOrder(b, requests, errors)
  {
  }

  /**
   * When no upserted proxy had more errors than requests, a loaded one has not either if and only
   * if its store hands the address's totals back in order.
   */
  lemma LoadedAccountedIff(b: Backend, samples: seq<Sample>, addr: Addr, id: nat)
    requires addr in Seen(samples)
    requires forall i :: 0 <= i < |samples| ==> samples[i].errors <= samples[i].requests
    ensures var a := AccountOf(samples, addr);
            View(b, samples)[addr].Proxy(id).Accounted() <==> KeepsOrder(b, a.requests, a.errors)
    ensures var l := View(b, samples)[addr];
            l.Proxy(id).Accounted() <==> l.errors <= l.requests
  {
    SeenIffSampled(samples, addr);
    OfWithin(samples, addr);
    AccountAccounted(Of(samples, addr));
    SuccessAverage(Of(samples, addr));
    var a := AccountOf(samples, addr);
    var l := LoadedOf(b, addr, a);
    CountKeepsOrder(b, a.requests, a.errors);
    RestoredAggregates(id, addr.0, addr.1, l.types, l.requests, l.errors, l.latency, l.ewma);
  }

  lemma {:induction false} OfWithin(samples: seq<Sample>, addr: Addr)
    requires forall i :: 0 <= i < |samples| ==> samples[i].errors <= samples[i].requests
    ensures forall i :: 0 <= i < |Of(samples, addr)| ==> Of(samples, addr)[i].errors <= Of(samples, addr)[i].requests
  {
    if samples != [] { OfWithin(samples[..|samples| - 1], addr); }
  }

  /** A witness: the limit's worth of clean requests, then a single failed one, and both durable stores lose order. */
  lemma WrapLosesRequests(s: Sample, t: Sample)
    requires s.addr == t.addr
    requires s.requests == U32_MAX && s.errors == 0 && t.requests == 1 && t.errors == 1
    ensures s.addr in Seen([s, t])
    ensures View(Sqlite, [s, t])[s.addr].errors > View(Sqlite, [s, t])[s.addr].requests
    ensures View(Redis, [s, t])[s.addr].errors > View(Redis, [s, t])[s.addr].requests
  {
    TwoSamples(s, t);
    assert AccountOf([s, t], s.addr).requests == TWO_TO_THE_32;
  }

  lemma TwoSamples(s: Sample, t: Sample)
    requires s.addr == t.addr
    ensures s.addr in Seen([s, t]) && AccountOf([s, t], s.addr) == Fold(Opened(s), t)
  {
    assert [] + [s] == [s] && [s] + [t] == [s, t];
    OneMore([], s, s.addr);
    OneMore([s], t, s.addr);
  }

  // ----- the memory store -----

  /** `Record`. */
  datatype MemoryRecord = MemoryRecord(types: TypeMap, requests: u32, errors: u32, ewmaSuccess: real,
                                       avgLatency: real, uptimeChecks: nat)

  /** `u32::saturating_add` and `u64::saturating_add`. */
  function SaturatingAdd(a: nat, b: nat, max: nat): (r: nat)
    ensures r <= max && (r == a + b || r == max < a + b)
  {
    if a + b <= max then a + b else max
  }

  function MemoryRecordOf(a: Account): MemoryRecord
  {
    MemoryRecord(a.types, Count(Memory, a.requests), Count(Memory, a.errors), a.ewma, a.latency,
                 if a.uptime <= U64_MAX then a.uptime else U64_MAX)
  }

  /** The assignments of the conflict arm. */
  method Modify(record: MemoryRecord, s: Sample, ghost account: Account) returns (rec: MemoryRecord)
    requires record == MemoryRecordOf(account)
    ensures rec == MemoryRecordOf(Fold(account, s))
  {
    rec := record;
    if s.types != map[] {
      rec := rec.(types := s.types);
    }
    rec := rec.(requests := SaturatingAdd(rec.requests, s.requests, U32_MAX));
    rec := rec.(errors := SaturatingAdd(rec.errors, s.errors, U32_MAX));
    rec := rec.(ewmaSuccess := 0.3 * s.Score() + 0.7 * rec.ewmaSuccess);
    if s.latency > 0.0 {
      rec := rec.(avgLatency := 0.3 * s.latency + 0.7 * rec.avgLatency);
    }
    rec := rec.(uptimeChecks := SaturatingAdd(rec.uptimeChecks, s.Up(), U64_MAX));
  }

  /** Exactly one record per sampled address, holding its account. */
  ghost predicate RecordsHold(records: map<Addr, MemoryRecord>, samples: seq<Sample>)
  {
    && records.Keys == Seen(samples)
    && forall addr | addr in Seen(samples) :: records[addr] == MemoryRecordOf(AccountOf(samples, addr))
  }

  lemma RecordsUpdate(records: map<Addr, MemoryRecord>, samples: seq<Sample>, s: Sample, rec: MemoryRecord)
    requires RecordsHold(records, samples)
    requires s.addr in Seen(samples + [s]) && rec == MemoryRecordOf(AccountOf(samples + [s], s.addr))
    ensures RecordsHold(records[s.addr := rec], samples + [s])
  {
    OneMore(samples, s, s.addr);
    OthersStay(samples, s);
  }

  class MemoryStore {
    var records: map<Addr, MemoryRecord>
    ghost var history: seq<Sample>

    ghost predicate Valid()
      reads this
    {
      RecordsHold(records, history)
    }

    constructor ()
      ensures Valid() && history == []
    {
      records := map[];
      history := [];
    }

    /** The conflict arm folds into the record; the vacant arm seeds one. */
    method Upsert(proxy: Proxy)
      requires Valid() && Countable(proxy)
      modifies this
      ensures Valid() && history == old(history) + [SampleOf(proxy)]
    {
      var s := SampleOf(proxy);
      OneMore(history, s, s.addr);
      var rec := MemoryRecord(s.types, s.requests, s.errors, s.Score(), s.latency, s.Up());
      if s.addr in records {
        rec := Modify(records[s.addr], s, AccountOf(history, s.addr));
      }
      RecordsUpdate(records, history, s, rec);
      records := records[s.addr := rec];
      history := history + [s];
    }

    /** Every record once, in the map's arbitrary order. */
    method Load() returns (out: seq<Loaded>)
      requires Valid()
      ensures Lists(out, View(Memory, history))
    {
      var todo := records.Keys;
      out := [];
      ghost var view := View(Memory, history);
      assert Done(view, todo) == map[];
      while todo != {}
        invariant todo <= records.Keys && Lists(out, Done(view, todo))
        decreases todo
      {
        var addr: Addr :| addr in todo;
        var rec := records[addr];
        var l := Loaded(addr, rec.types, rec.requests, rec.errors, rec.avgLatency, Some(rec.ewmaSuccess));
        DoneOneMore(out, view, todo, addr);
        out := out + [l];
        todo := todo - {addr};
      }
      assert Done(view, todo) == view;
    }
  }

  // ----- SQLite -----

  /** A row of the `proxies` table, without its key. */
  datatype Row = Row(types: string, requests: int, errors: int, ewmaSuccess: real, avgLatency: real,
                     uptimeChecks: int)

  function RowOf(a: Account): Row
  {
    Row(TypesToJson(a.types), a.requests, a.errors, a.ewma, a.latency, a.uptime)
  }

  /** `ON CONFLICT(host, port) DO UPDATE SET`. */
  method OnConflict(row: Row, excluded: Row, ghost account: Account, ghost s: Sample) returns (r: Row)
    requires row == RowOf(account) && excluded == RowOf(Opened(s))
    ensures r == RowOf(Fold(account, s))
  {
    r := Row(
      if excluded.types != "[]" then excluded.types else row.types,
      row.requests + excluded.requests,
      row.errors + excluded.errors,
      0.3 * excluded.ewmaSuccess + 0.7 * row.ewmaSuccess,
      if excluded.avgLatency > 0.0 then 0.3 * excluded.avgLatency + 0.7 * row.avgLatency else row.avgLatency,
      row.uptimeChecks + excluded.uptimeChecks);
    TypesRoundTrip(s.types);
  }

  /** One row as a load reads it: `as u32` keeps the low 32 bits of a total. */
  function LoadRow(addr: Addr, row: Row): Loaded
  {
    Loaded(addr, TypesFromJson(row.types), row.requests % TWO_TO_THE_32, row.errors % TWO_TO_THE_32,
           row.avgLatency, Some(row.ewmaSuccess))
  }

  lemma RowLoads(addr: Addr, a: Account)
    ensures LoadRow(addr, RowOf(a)) == LoadedOf(Sqlite, addr, a)
  {
    TypesRoundTrip(a.types);
  }

  ghost predicate RowsHold(rows: map<Addr, Row>, samples: seq<Sample>)
  {
    && rows.Keys == Seen(samples)
    && forall addr | addr in Seen(samples) :: rows[addr] == RowOf(AccountOf(samples, addr))
  }

  lemma RowsUpdate(rows: map<Addr, Row>, samples: seq<Sample>, s: Sample, row: Row)
    requires RowsHold(rows, samples)
    requires s.addr in Seen(samples + [s]) && row == RowOf(AccountOf(samples + [s], s.addr))
    ensures RowsHold(rows[s.addr := row], samples + [s])
  {
    OneMore(samples, s, s.addr);
    OthersStay(samples, s);
  }

  class SqliteStore {
    var rows: map<Addr, Row>
    ghost var history: seq<Sample>

    ghost predicate Valid()
      reads this
    {
      RowsHold(rows, history)
    }

    constructor ()
      ensures Valid() && history == []
    {
      rows := map[];
      history := [];
    }

    method Upsert(proxy: Proxy)
      requires Valid() && Countable(proxy)
      modifies this
      ensures Valid() && history == old(history) + [SampleOf(proxy)]
    {
      var s := SampleOf(proxy);
      OneMore(history, s, s.addr);
      var excluded := Row(TypesToJson(s.types), s.requests, s.errors, s.Score(), s.latency, s.Up());
      var row := excluded;
      if s.addr in rows {
        row := OnConflict(rows[s.addr], excluded, AccountOf(history, s.addr), s);
      }
      RowsUpdate(rows, history, s, row);
      rows := rows[s.addr := row];
      history := history + [s];
    }

    /** Every row once. */
    method Load() returns (out: seq<Loaded>)
      requires Valid()
      ensures Lists(out, View(Sqlite, history))
    {
      var todo := rows.Keys;
      out := [];
      ghost var view := View(Sqlite, history);
      assert Done(view, todo) == map[];
      while todo != {}
        invariant todo <= rows.Keys && Lists(out, Done(view, todo))
        decreases todo
      {
        var addr: Addr :| addr in todo;
        var l := LoadRow(addr, rows[addr]);
        RowLoads(addr, AccountOf(history, addr));
        assert l == view[addr];
        DoneOneMore(out, view, todo, addr);
        out := out + [l];
        todo := todo - {addr};
      }
      assert Done(view, todo) == view;
    }
  }

  // ----- Redis -----

  /** `rsplit_once(':')`. */
  function SplitLastColon(s: string): Option<(string, string)>
  {
    if s == "" then None
    else
      var (rest, last) := (s[..|s| - 1], s[|s| - 1]);
      if last == ':' then Some((rest, ""))
      else match SplitLastColon(rest)
        case None => None
        case Some((before, after)) => Some((before, after + [last]))
  }

  lemma {:induction false} SplitJoined(before: string, after: string)
    requires ':' !in after
    ensures SplitLastColon(before + ":" + after) == Some((before, after))
  {
    var s := before + ":" + after;
    if after == "" {
      assert s[..|s| - 1] == before;
    } else {
      var shorter := after[..|after| - 1];
      assert s[..|s| - 1] == before + ":" + shorter;
      SplitJoined(before, shorter);
      assert shorter + [after[|after| - 1]] == after;
    }
  }

  /** The set member of an address; the host may itself contain colons. */
  function MemberOf(addr: Addr): string
  {
    addr.0 + ":" + Show(addr.1)
  }

  /** `proxy_key`. */
  function KeyOf(addr: Addr): string
  {
    "proxybroker:proxy:" + MemberOf(addr)
  }

  /** Read a member back; `parseHost` is `str::parse::<IpAddr>`. */
  function ParseMember(member: string, parseHost: string -> Option<Host>): Option<Addr>
  {
    match SplitLastColon(member)
    case None => None
    case Some((hostText, portText)) =>
      match parseHost(hostText)
      case None => None
      case Some(host) =>
        match ParseU16(portText)
        case None => None
        case Some(port) => Some((host, port))
  }

  /** A member splits back into the address it was built from, however many colons the host has. */
  lemma MemberReadsBack(addr: Addr, parseHost: string -> Option<Host>)
    requires parseHost(addr.0) == Some(addr.0)
    ensures ParseMember(MemberOf(addr), parseHost) == Some(addr)
  {
    SplitJoined(addr.0, Show(addr.1));
    ParseShow(addr.1);
  }

  /** Different addresses never share a member or a key. */
  lemma KeysDiffer(a: Addr, b: Addr)
    requires KeyOf(a) == KeyOf(b) || MemberOf(a) == MemberOf(b)
    ensures a == b
  {
    var prefix := "proxybroker:proxy:";
    assert (prefix + MemberOf(a))[|prefix|..] == MemberOf(a);
    assert (prefix + MemberOf(b))[|prefix|..] == MemberOf(b);
    MemberReadsBack(a, h => Some(h));
    MemberReadsBack(b, h => Some(h));
  }

  /** The fields of a proxy hash; Lua keeps them as numbers. */
  datatype Hash = Hash(host: string, port: string, types: string, requests: nat, errors: nat,
                       ewmaSuccess: real, avgLatency: real, uptimeChecks: nat)

  function HashOf(addr: Addr, a: Account): Hash
  {
    Hash(addr.0, Show(addr.1), TypesToJson(a.types), a.requests, a.errors, a.ewma, a.latency, a.uptime)
  }

  /** What one member of the set loads as, if anything. */
  function LoadMember(member: string, hashes: map<string, Hash>, parseHost: string -> Option<Host>): Option<Loaded>
  {
    match ParseMember(member, parseHost)
    case None => None
    case Some(addr) =>
      if KeyOf(addr) !in hashes then None
      else
        var h := hashes[KeyOf(addr)];
        Some(Loaded(addr, TypesFromJson(h.types), ParseCount(h.requests), ParseCount(h.errors),
                    h.avgLatency, Some(h.ewmaSuccess)))
  }

  /** `parse::<u32>().ok().unwrap_or(0)` of a printed number. */
  function ParseCount(n: nat): u32
  {
    if n <= U32_MAX then n else 0
  }

  /** The arithmetic of the upsert script, field by field. */
  method Script(cur: Option<Hash>, s: Sample, ghost account: Option<Account>) returns (h: Hash)
    requires cur.Some? <==> account.Some?
    requires cur.Some? ==> cur.value == HashOf(s.addr, account.value)
    ensures h == HashOf(s.addr, if account.Some? then Fold(account.value, s) else Opened(s))
  {
    var json := TypesToJson(s.types);
    var (requests, errors, uptime) :=
      if cur.Some? then (cur.value.requests, cur.value.errors, cur.value.uptimeChecks) else (0, 0, 0);
    var ewma := if cur.None? then s.Score() else 0.3 * s.Score() + 0.7 * cur.value.ewmaSuccess;
    var latency := if cur.None? then s.latency
                   else if s.latency > 0.0 then 0.3 * s.latency + 0.7 * cur.value.avgLatency
                   else cur.value.avgLatency;
    var types := if json != "[]" then json else if cur.Some? then cur.value.types else json;
    h := Hash(s.addr.0, Show(s.addr.1), types, requests + s.requests, errors + s.errors, ewma, latency,
              uptime + s.Up());
    TypesRoundTrip(s.types);
  }

  /** Exactly the hashes of the sampled addresses, each with its address's account. */
  ghost predicate HashesHold(hashes: map<string, Hash>, samples: seq<Sample>)
  {
    && (forall addr: Addr | KeyOf(addr) in hashes :: addr in Seen(samples))
    && (forall addr: Addr | addr in Seen(samples) ::
          KeyOf(addr) in hashes && hashes[KeyOf(addr)] == HashOf(addr, AccountOf(samples, addr)))
  }

  /** Exactly the members of the sampled addresses, each of which reads back. */
  ghost predicate MembersHold(members: set<string>, samples: seq<Sample>, parseHost: string -> Option<Host>)
  {
    && (forall addr | addr in Seen(samples) ::
          MemberOf(addr) in members && ParseMember(MemberOf(addr), parseHost) == Some(addr))
    && (forall m | m in members ::
          var addr := ParseMember(m, parseHost);
          addr.Some? && addr.value in Seen(samples) && MemberOf(addr.value) == m)
  }

  lemma HashesUpdate(hashes: map<string, Hash>, samples: seq<Sample>, s: Sample, h: Hash)
    requires HashesHold(hashes, samples)
    requires s.addr in Seen(samples + [s]) && h == HashOf(s.addr, AccountOf(samples + [s], s.addr))
    ensures HashesHold(hashes[KeyOf(s.addr) := h], samples + [s])
  {
    OneMore(samples, s, s.addr);
    OthersStay(samples, s);
    forall addr: Addr | KeyOf(addr) == KeyOf(s.addr) ensures addr == s.addr { KeysDiffer(addr, s.addr); }
  }

  lemma MembersUpdate(members: set<string>, samples: seq<Sample>, s: Sample, parseHost: string -> Option<Host>)
    requires MembersHold(members, samples, parseHost) && parseHost(s.addr.0) == Some(s.addr.0)
    ensures MembersHold(members + {MemberOf(s.addr)}, samples + [s], parseHost)
  {
    OneMore(samples, s, s.addr);
    MemberReadsBack(s.addr, parseHost);
  }

  predicate Enumerates(order: seq<string>, members: set<string>)
  {
    if order == [] then members == {}
    else
      var last := order[|order| - 1];
      last in members && Enumerates(order[..|order| - 1], members - {last})
  }

  lemma EnumerateOneMore(order: seq<string>, members: set<string>, m: string)
    requires Enumerates(order, members) && m !in members
    ensures Enumerates(order + [m], members + {m})
  {
    assert (order + [m])[..|order|] == order;
    assert members + {m} - {m} == members;
  }

  /** The members that load, in the order given; the others are skipped. */
  function LoadMembers(order: seq<string>, hashes: map<string, Hash>, parseHost: string -> Option<Host>): seq<Loaded>
  {
    if order == [] then []
    else
      var l := LoadMember(order[|order| - 1], hashes, parseHost);
      LoadMembers(order[..|order| - 1], hashes, parseHost) + (if l.Some? then [l.value] else [])
  }

  lemma MemberLoads(addr: Addr, a: Account, hashes: map<string, Hash>, parseHost: string -> Option<Host>)
    requires KeyOf(addr) in hashes && hashes[KeyOf(addr)] == HashOf(addr, a)
    requires ParseMember(MemberOf(addr), parseHost) == Some(addr)
    ensures LoadMember(MemberOf(addr), hashes, parseHost) == Some(LoadedOf(Redis, addr, a))
  {
    TypesRoundTrip(a.types);
  }

  function PartOf(view: map<Addr, Loaded>, members: set<string>): map<Addr, Loaded>
  {
    map addr | addr in view && MemberOf(addr) in members :: view[addr]
  }

  lemma PartStep(view: map<Addr, Loaded>, part: set<string>, m: string, addr: Addr)
    requires m in part && MemberOf(addr) == m && addr in view
    ensures PartOf(view, part) == PartOf(view, part - {m})[addr := view[addr]]
    ensures addr !in PartOf(view, part - {m})
  {
    forall a: Addr | MemberOf(a) == m ensures a == addr { KeysDiffer(a, addr); }
  }

  /** Any part of the set loads as the part of the view at its addresses. */
  lemma {:induction false} PartLoads(order: seq<string>, part: set<string>, members: set<string>,
                                     hashes: map<string, Hash>, samples: seq<Sample>,
                                     parseHost: string -> Option<Host>)
    requires HashesHold(hashes, samples) && MembersHold(members, samples, parseHost)
    requires Enumerates(order, part) && part <= members
    ensures Lists(LoadMembers(order, hashes, parseHost),
                  PartOf(View(Redis, samples), part))
  {
    if order != [] {
      var (m, rest) := (order[|order| - 1], order[..|order| - 1]);
      var addr := ParseMember(m, parseHost).value;
      PartLoads(rest, part - {m}, members, hashes, samples, parseHost);
      MemberLoads(addr, AccountOf(samples, addr), hashes, parseHost);
      var view := View(Redis, samples);
      assert view[addr] == LoadedOf(Redis, addr, AccountOf(samples, addr));
      PartStep(view, part, m, addr);
      ListOneMore(LoadMembers(rest, hashes, parseHost), PartOf(view, part - {m}), view[addr]);
    } else {
      assert PartOf(View(Redis, samples), part) == map[];
    }
  }

  lemma WholePart(members: set<string>, samples: seq<Sample>, parseHost: string -> Option<Host>)
    requires MembersHold(members, samples, parseHost)
    ensures PartOf(View(Redis, samples), members) == View(Redis, samples)
  {
    forall addr | addr in View(Redis, samples) ensures MemberOf(addr) in members {
    }
  }

  lemma MembersLoad(order: seq<string>, members: set<string>, hashes: map<string, Hash>, samples: seq<Sample>,
                    parseHost: string -> Option<Host>)
    requires HashesHold(hashes, samples) && MembersHold(members, samples, parseHost)
    requires Enumerates(order, members)
    ensures Lists(LoadMembers(order, hashes, parseHost), View(Redis, samples))
  {
    PartLoads(order, members, members, hashes, samples, parseHost);
    WholePart(members, samples, parseHost);
  }

  class RedisStore {
    var hashes: map<string, Hash>
    var members: set<string>
    const parseHost: string -> Option<Host>
    ghost var history: seq<Sample>

    ghost predicate Valid()
      reads this
    {
      HashesHold(hashes, history) && MembersHold(members, history, parseHost)
    }

    constructor (parseHost: string -> Option<Host>)
      ensures Valid() && history == [] && this.parseHost == parseHost
    {
      hashes := map[];
      members := {};
      this.parseHost := parseHost;
      history := [];
    }

    /** Run the script on the address's hash, absent before its first sample, and add the member. */
    method Upsert(proxy: Proxy)
      requires Valid() && Countable(proxy)
      requires parseHost(proxy.host) == Some(proxy.host)
      modifies this
      ensures Valid() && history == old(history) + [SampleOf(proxy)]
    {
      var s := SampleOf(proxy);
      var key := KeyOf(s.addr);
      OneMore(history, s, s.addr);
      var h := Script(if key in hashes then Some(hashes[key]) else None, s,
                      if s.addr in Seen(history) then Some(AccountOf(history, s.addr)) else None);
      HashesUpdate(hashes, history, s, h);
      MembersUpdate(members, history, s, parseHost);
      hashes := hashes[key := h];
      members := members + {MemberOf(s.addr)};
      history := history + [s];
    }

    /** What the members of the set load as, in the server's arbitrary order. */
    method Load() returns (out: seq<Loaded>)
      ensures exists order :: Enumerates(order, members) && out == LoadMembers(order, hashes, parseHost)
      ensures Valid() ==> Lists(out, View(Redis, history))
    {
      var todo := members;
      out := [];
      ghost var order: seq<string> := [];
      while todo != {}
        invariant todo <= members && Enumerates(order, members - todo)
        invariant out == LoadMembers(order, hashes, parseHost)
        decreases todo
      {
        var member: string :| member in todo;
        EnumerateOneMore(order, members - todo, member);
        assert members - (todo - {member}) == members - todo + {member};
        assert (order + [member])[..|order|] == order;
        var addr := ParseMember(member, parseHost);
        if addr.Some? && KeyOf(addr.value) in hashes {
          var h := hashes[KeyOf(addr.value)];
          out := out + [Loaded(addr.value, TypesFromJson(h.types), ParseCount(h.requests), ParseCount(h.errors),
                               h.avgLatency, Some(h.ewmaSuccess))];
        }
        order := order + [member];
        todo := todo - {member};
      }
      assert members - todo == members;
      if Valid() {
        MembersLoad(order, members, hashes, history, parseHost);
      }
    }
  }
}
