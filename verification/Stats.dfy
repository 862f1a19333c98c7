/** `src/stats.rs`: the incremental collector of aggregate statistics, and its final projection. */
module Stats {
  import opened Prelude
  import opened Proxies
  import opened Rounding
  import opened TypesJson
  import opened Percentiles

  // ----- what a proxy contributes -----

  /** One unit of one of the collector's counts, or one response time. */
  datatype Mark =
    | Seen | Works | OfProto(proto: Proto) | OfLevel(level: AnonLevel) | OfCountry(code: string)
    | OfError(name: string) | Took(seconds: real)

  /** `ProxyError::as_str`; every disallowed status is one bucket. */
  function ErrorName(e: ProxyError): string
  {
    match e
    case ConnFailed => "connection_failed"
    case Timeout => "connection_timeout"
    case Reset => "connection_is_reset"
    case EmptyRecv => "empty_response"
    case BadStatus => "bad_status"
    case BadResponse => "bad_response"
    case ErrorOnStream => "error_on_stream"
    case DisallowedStatus(_) => "disallowed_status"
    case Resolve => "resolve_failed"
  }

  /** `--` stands for an unknown country. */
  function CountryCode(p: Proxy): string
  {
    match p.country case None => "--" case Some(code) => code
  }

  /** An anonymity level counts for HTTP only. */
  function TypeMark(p: Proto, level: Option<AnonLevel>): multiset<Mark>
  {
    multiset{OfProto(p)} + (if p == Http && level.Some? then multiset{OfLevel(level.value)} else multiset{})
  }

  function TypeMarks(types: TypeMap, i: nat): multiset<Mark>
    requires i <= |ALL|
  {
    if i == 0 then multiset{}
    else TypeMarks(types, i - 1)
         + (if ALL[i - 1] in types then TypeMark(ALL[i - 1], types[ALL[i - 1]]) else multiset{})
  }

  function Times<T(==)>(x: T, n: nat): multiset<T> { multiset{}[x := n] }

  ghost function ErrorMarks(errors: multiset<ProxyError>): multiset<Mark>
    decreases |errors|
  {
    if errors == multiset{} then multiset{}
    else
      var e :| e in errors;
      ErrorMarks(errors[e := 0]) + Times(OfError(ErrorName(e)), errors[e])
  }

  ghost function Marks(p: Proxy): multiset<Mark>
  {
    multiset{Seen}
    + (if p.IsWorking() then multiset{Works} else multiset{})
    + TypeMarks(p.types, |ALL|)
    + multiset{OfCountry(CountryCode(p))}
    + ErrorMarks(p.errors)
    + (if p.AvgRespTime() > 0.0 then multiset{Took(p.AvgRespTime())} else multiset{})
  }

  ghost function Total<T>(marks: T -> multiset<Mark>, items: seq<T>): multiset<Mark>
  {
    if items == [] then multiset{} else Total(marks, items[..|items| - 1]) + marks(items[|items| - 1])
  }

  ghost function AllMarks(history: seq<Proxy>): multiset<Mark>
  {
    Total(Marks, history)
  }

  /** The histogram may be walked in any order. */
  lemma {:induction false} ErrorMarksPeel(errors: multiset<ProxyError>, e: ProxyError)
    requires e in errors
    ensures ErrorMarks(errors) == ErrorMarks(errors[e := 0]) + Times(OfError(ErrorName(e)), errors[e])
    decreases |errors|
  {
    var d :| d in errors && ErrorMarks(errors) == ErrorMarks(errors[d := 0]) + Times(OfError(ErrorName(d)), errors[d]);
    if d != e {
      ErrorMarksPeel(errors[d := 0], e);
      ErrorMarksPeel(errors[e := 0], d);
      assert errors[d := 0][e := 0] == errors[e := 0][d := 0];
      Commute(ErrorMarks(errors[d := 0][e := 0]), Times(OfError(ErrorName(e)), errors[e]),
              Times(OfError(ErrorName(d)), errors[d]));
    }
  }

  lemma Commute<T>(a: multiset<T>, b: multiset<T>, c: multiset<T>)
    ensures a + b + c == a + c + b
  {
  }

  lemma {:induction false} TotalConcat<T>(marks: T -> multiset<Mark>, a: seq<T>, b: seq<T>)
    ensures Total(marks, a + b) == Total(marks, a) + Total(marks, b)
  {
    if b == [] {
      assert a + b == a;
    } else {
      TotalConcat(marks, a, b[..|b| - 1]);
      assert (a + b)[..|a + b| - 1] == a + b[..|b| - 1];
    }
  }

  lemma Rejoin<T>(s: seq<T>, i: nat)
    requires i < |s|
    ensures s == (s[..i] + [s[i]]) + s[i + 1..]
  {
  }

  lemma TotalWithout<T>(marks: T -> multiset<Mark>, items: seq<T>, i: nat)
    requires i < |items|
    ensures Total(marks, items) == Total(marks, items[..i] + items[i + 1..]) + marks(items[i])
  {
    var (a, x, b) := (items[..i], items[i], items[i + 1..]);
    Rejoin(items, i);
    TotalConcat(marks, a + [x], b);
    TotalConcat(marks, a, b);
    TotalPush(marks, a, x);
  }

  lemma TotalPush<T>(marks: T -> multiset<Mark>, a: seq<T>, x: T)
    ensures Total(marks, a + [x]) == Total(marks, a) + marks(x)
  {
    assert (a + [x])[..|a|] == a;
  }

  lemma CountsWithout<T>(s: seq<T>, i: nat)
    requires i < |s|
    ensures multiset(s[..i] + s[i + 1..]) == multiset(s) - multiset{s[i]}
  {
    assert s == s[..i] + ([s[i]] + s[i + 1..]);
  }

  /** Totals do not depend on the order of the items. */
  lemma {:induction false} TotalIsOrderFree<T>(marks: T -> multiset<Mark>, a: seq<T>, b: seq<T>)
    requires multiset(a) == multiset(b)
    ensures Total(marks, a) == Total(marks, b)
    decreases |a|
  {
    assert |multiset(a)| == |a| && |multiset(b)| == |b|;
    if a != [] {
      var n := |a| - 1;
      assert a[n] in multiset(b);
      var i :| 0 <= i < |b| && b[i] == a[n];
      CountsWithout(a, n);
      CountsWithout(b, i);
      assert a[..n] + a[n + 1..] == a[..n];
      TotalIsOrderFree(marks, a[..n], b[..i] + b[i + 1..]);
      TotalWithout(marks, b, i);
    }
  }

  // ----- counting maps -----

  function Get<K(==)>(m: map<K, nat>, k: K): nat { if k in m then m[k] else 0 }

  /** `*entry(k).or_default() += n`. */
  function Bump<K(==)>(m: map<K, nat>, k: K, n: nat): map<K, nat> { m[k := Get(m, k) + n] }

  ghost function MapSum<K>(m: map<K, nat>): nat
    decreases |m|
  {
    if m == map[] then 0 else var k :| k in m; assert |m - {k}| < |m| by { Shrinks(m, k); } m[k] + MapSum(m - {k})
  }

  lemma Shrinks<K>(m: map<K, nat>, k: K)
    requires k in m
    ensures |m - {k}| == |m| - 1
  {
    assert m == (m - {k})[k := m[k]];
  }

  lemma {:induction false} MapSumPeel<K>(m: map<K, nat>, k: K)
    requires k in m
    ensures MapSum(m) == m[k] + MapSum(m - {k})
    decreases |m|
  {
    var d :| d in m && MapSum(m) == m[d] + MapSum(m - {d});
    if d != k {
      Shrinks(m, d);
      Shrinks(m, k);
      MapSumPeel(m - {d}, k);
      MapSumPeel(m - {k}, d);
      assert m - {d} - {k} == m - {k} - {d};
    }
  }

  /** A bump adds exactly what it is told to. */
  lemma BumpSum<K>(m: map<K, nat>, k: K, n: nat)
    ensures MapSum(Bump(m, k, n)) == MapSum(m) + n
  {
    var b := Bump(m, k, n);
    MapSumPeel(b, k);
    if k in m {
      MapSumPeel(m, k);
      assert b - {k} == m - {k};
    } else {
      assert b - {k} == m;
    }
  }

  // ----- the collector -----

  /** The collector's fields. */
  datatype Tallies = Tallies(total: nat, working: nat, byProtocol: map<Proto, nat>, byAnonymity: map<AnonLevel, nat>,
                             byCountry: map<string, nat>, errors: map<string, nat>, respTimes: seq<real>)

  function ProtoMark(p: Proto): Mark { OfProto(p) }

  function LevelMark(l: AnonLevel): Mark { OfLevel(l) }

  function CountryMark(c: string): Mark { OfCountry(c) }

  function ErrorMark(e: string): Mark { OfError(e) }

  /** The map has exactly the keys whose mark occurs, each with the number of occurrences. */
  ghost predicate Counts<K(!new)>(m: map<K, nat>, mark: K -> Mark, marks: multiset<Mark>)
  {
    && (forall k {:trigger Get(m, k)} :: Get(m, k) == marks[mark(k)])
    && (forall k | k in m :: m[k] > 0)
  }

  ghost predicate Timed(times: seq<real>, marks: multiset<Mark>)
  {
    forall x: real {:trigger multiset(times)[x]} :: multiset(times)[x] == marks[Took(x)]
  }

  ghost predicate Reflects(t: Tallies, marks: multiset<Mark>)
  {
    && t.total == marks[Seen] && t.working == marks[Works]
    && Counts(t.byProtocol, ProtoMark, marks)
    && Counts(t.byAnonymity, LevelMark, marks)
    && Counts(t.byCountry, CountryMark, marks)
    && Counts(t.errors, ErrorMark, marks)
    && Timed(t.respTimes, marks)
  }

  lemma CountsBump<K(!new)>(m: map<K, nat>, mark: K -> Mark, marks: multiset<Mark>, k: K, n: nat)
    requires Counts(m, mark, marks) && n > 0
    requires forall a: K, b: K :: mark(a) == mark(b) ==> a == b
    ensures Counts(Bump(m, k, n), mark, marks + Times(mark(k), n))
  {
    var (m', marks') := (Bump(m, k, n), marks + Times(mark(k), n));
    forall a ensures Get(m', a) == marks'[mark(a)] {
      assert Get(m, a) == marks[mark(a)];
    }
  }

  lemma CountsSkip<K(!new)>(m: map<K, nat>, mark: K -> Mark, marks: multiset<Mark>, x: Mark, n: nat)
    requires Counts(m, mark, marks) && forall k :: mark(k) != x
    ensures Counts(m, mark, marks + Times(x, n))
  {
    var marks' := marks + Times(x, n);
    forall k ensures Get(m, k) == marks'[mark(k)] {
      assert Get(m, k) == marks[mark(k)];
    }
  }

  /** One more mark, and the field that counts it. */
  lemma AddProto(t: Tallies, marks: multiset<Mark>, p: Proto)
    requires Reflects(t, marks)
    ensures Reflects(t.(byProtocol := Bump(t.byProtocol, p, 1)), marks + Times(OfProto(p), 1))
  {
    CountsBump(t.byProtocol, ProtoMark, marks, p, 1);
    CountsSkip(t.byAnonymity, LevelMark, marks, OfProto(p), 1);
    CountsSkip(t.byCountry, CountryMark, marks, OfProto(p), 1);
    CountsSkip(t.errors, ErrorMark, marks, OfProto(p), 1);
  }

  lemma AddLevel(t: Tallies, marks: multiset<Mark>, l: AnonLevel)
    requires Reflects(t, marks)
    ensures Reflects(t.(byAnonymity := Bump(t.byAnonymity, l, 1)), marks + Times(OfLevel(l), 1))
  {
    CountsSkip(t.byProtocol, ProtoMark, marks, OfLevel(l), 1);
    CountsBump(t.byAnonymity, LevelMark, marks, l, 1);
    CountsSkip(t.byCountry, CountryMark, marks, OfLevel(l), 1);
    CountsSkip(t.errors, ErrorMark, marks, OfLevel(l), 1);
  }

  lemma AddCountry(t: Tallies, marks: multiset<Mark>, c: string)
    requires Reflects(t, marks)
    ensures Reflects(t.(byCountry := Bump(t.byCountry, c, 1)), marks + Times(OfCountry(c), 1))
  {
    CountsSkip(t.byProtocol, ProtoMark, marks, OfCountry(c), 1);
    CountsSkip(t.byAnonymity, LevelMark, marks, OfCountry(c), 1);
    CountsBump(t.byCountry, CountryMark, marks, c, 1);
    CountsSkip(t.errors, ErrorMark, marks, OfCountry(c), 1);
  }

  lemma AddError(t: Tallies, marks: multiset<Mark>, e: string, n: nat)
    requires Reflects(t, marks) && n > 0
    ensures Reflects(t.(errors := Bump(t.errors, e, n)), marks + Times(OfError(e), n))
  {
    CountsSkip(t.byProtocol, ProtoMark, marks, OfError(e), n);
    CountsSkip(t.byAnonymity, LevelMark, marks, OfError(e), n);
    CountsSkip(t.byCountry, CountryMark, marks, OfError(e), n);
    CountsBump(t.errors, ErrorMark, marks, e, n);
  }

  lemma AddTime(t: Tallies, marks: multiset<Mark>, x: real)
    requires Reflects(t, marks)
    ensures Reflects(t.(respTimes := t.respTimes + [x]), marks + Times(Took(x), 1))
  {
    CountsSkip(t.byProtocol, ProtoMark, marks, Took(x), 1);
    CountsSkip(t.byAnonymity, LevelMark, marks, Took(x), 1);
    CountsSkip(t.byCountry, CountryMark, marks, Took(x), 1);
    CountsSkip(t.errors, ErrorMark, marks, Took(x), 1);
    assert multiset(t.respTimes + [x]) == multiset(t.respTimes) + multiset{x};
  }

  lemma AddHead(t: Tallies, marks: multiset<Mark>, works: bool)
    requires Reflects(t, marks)
    ensures Reflects(t.(total := t.total + 1, working := t.working + (if works then 1 else 0)),
                     marks + Times(Seen, 1) + Times(Works, if works then 1 else 0))
  {
    var n := if works then 1 else 0;
    CountsSkip(t.byProtocol, ProtoMark, marks, Seen, 1);
    CountsSkip(t.byAnonymity, LevelMark, marks, Seen, 1);
    CountsSkip(t.byCountry, CountryMark, marks, Seen, 1);
    CountsSkip(t.errors, ErrorMark, marks, Seen, 1);
    var more := marks + Times(Seen, 1);
    CountsSkip(t.byProtocol, ProtoMark, more, Works, n);
    CountsSkip(t.byAnonymity, LevelMark, more, Works, n);
    CountsSkip(t.byCountry, CountryMark, more, Works, n);
    CountsSkip(t.errors, ErrorMark, more, Works, n);
  }

  // ----- what is conserved -----

  ghost function TypeCount(history: seq<Proxy>): nat
  {
    if history == [] then 0 else TypeCount(history[..|history| - 1]) + |history[|history| - 1].types|
  }

  ghost function ErrorCount(history: seq<Proxy>): nat
  {
    if history == [] then 0 else ErrorCount(history[..|history| - 1]) + history[|history| - 1].ErrorsTotal()
  }

  /** The country counts add up to the total, the protocol counts to the types, the buckets to the errors. */
  ghost predicate Conserved(t: Tallies, proxies: nat, types: nat, errors: nat)
  {
    && t.total == proxies == MapSum(t.byCountry)
    && MapSum(t.byProtocol) == types
    && MapSum(t.errors) == errors
  }

  /** How many of the first `i` protocols are confirmed. */
  function TypesUpTo(types: TypeMap, i: nat): nat
    requires i <= |ALL|
  {
    if i == 0 then 0 else TypesUpTo(types, i - 1) + (if ALL[i - 1] in types then 1 else 0)
  }

  lemma {:induction false} TypesUpToCounts(types: TypeMap, i: nat)
    requires i <= |ALL|
    ensures TypesUpTo(types, i) == |set p | p in types && p in ALL[..i]|
  {
    if i == 0 {
      assert (set p | p in types && p in ALL[..i]) == {};
    } else {
      TypesUpToCounts(types, i - 1);
      var p := ALL[i - 1];
      assert ALL[..i] == ALL[..i - 1] + [p];
      DistinctProtos(i - 1);
      var (before, after) := (set q | q in types && q in ALL[..i - 1], set q | q in types && q in ALL[..i]);
      assert after == if p in types then before + {p} else before;
    }
  }

  lemma DistinctProtos(i: nat)
    requires i < |ALL|
    ensures ALL[i] !in ALL[..i]
  {
    assert ALL[0] == Http && ALL[1] == Https && ALL[2] == Socks4;
    assert ALL[3] == Socks5 && ALL[4] == Connect80 && ALL[5] == Connect25;
  }

  lemma TypesCounted(types: TypeMap)
    ensures TypesUpTo(types, |ALL|) == |types|
  {
    TypesUpToCounts(types, |ALL|);
    forall p ensures p in ALL[..|ALL|] { AllListed(p); }
    assert (set p | p in types && p in ALL[..|ALL|]) == types.Keys;
    assert |types.Keys| == |types|;
  }

  // ----- recording, on values -----

  function WithHead(t: Tallies, works: bool): Tallies
  {
    t.(total := t.total + 1, working := t.working + (if works then 1 else 0))
  }

  function WithType(t: Tallies, p: Proto, level: Option<AnonLevel>): Tallies
  {
    t.(byProtocol := Bump(t.byProtocol, p, 1),
       byAnonymity := if p == Http && level.Some? then Bump(t.byAnonymity, level.value, 1) else t.byAnonymity)
  }

  function WithTypes(t: Tallies, types: TypeMap, i: nat): Tallies
    requires i <= |ALL|
  {
    if i == 0 then t
    else
      var before := WithTypes(t, types, i - 1);
      if ALL[i - 1] in types then WithType(before, ALL[i - 1], types[ALL[i - 1]]) else before
  }

  function WithCountry(t: Tallies, code: string): Tallies
  {
    t.(byCountry := Bump(t.byCountry, code, 1))
  }

  function WithTime(t: Tallies, seconds: real): Tallies
  {
    if seconds > 0.0 then t.(respTimes := t.respTimes + [seconds]) else t
  }

  lemma WithTypeReflects(t: Tallies, marks: multiset<Mark>, p: Proto, level: Option<AnonLevel>)
    requires Reflects(t, marks)
    ensures Reflects(WithType(t, p, level), marks + TypeMark(p, level))
    ensures MapSum(WithType(t, p, level).byProtocol) == MapSum(t.byProtocol) + 1
  {
    AddProto(t, marks, p);
    BumpSum(t.byProtocol, p, 1);
    var t' := t.(byProtocol := Bump(t.byProtocol, p, 1));
    var more := marks + Times(OfProto(p), 1);
    if p == Http && level.Some? {
      AddLevel(t', more, level.value);
      assert more + Times(OfLevel(level.value), 1) == marks + TypeMark(p, level);
    } else {
      assert more == marks + TypeMark(p, level);
    }
  }

  lemma {:induction false} WithTypesReflects(t: Tallies, marks: multiset<Mark>, types: TypeMap, i: nat)
    requires Reflects(t, marks) && i <= |ALL|
    ensures Reflects(WithTypes(t, types, i), marks + TypeMarks(types, i))
    ensures MapSum(WithTypes(t, types, i).byProtocol) == MapSum(t.byProtocol) + TypesUpTo(types, i)
  {
    if i == 0 {
      assert marks + TypeMarks(types, 0) == marks;
    } else {
      WithTypesReflects(t, marks, types, i - 1);
      WithTypesStep(WithTypes(t, types, i - 1), marks, TypeMarks(types, i - 1), types, ALL[i - 1]);
    }
  }

  lemma WithTypesStep(before: Tallies, marks: multiset<Mark>, done: multiset<Mark>, types: TypeMap, p: Proto)
    requires Reflects(before, marks + done)
    ensures p in types ==> (
              && Reflects(WithType(before, p, types[p]), marks + (done + TypeMark(p, types[p])))
              && MapSum(WithType(before, p, types[p]).byProtocol) == MapSum(before.byProtocol) + 1)
    ensures p !in types ==> Reflects(before, marks + (done + multiset{}))
  {
    if p in types {
      WithTypeReflects(before, marks + done, p, types[p]);
      assert marks + done + TypeMark(p, types[p]) == marks + (done + TypeMark(p, types[p]));
    } else {
      assert done + multiset{} == done;
    }
  }

  lemma {:induction false} WithTypesFrame(t: Tallies, types: TypeMap, i: nat)
    requires i <= |ALL|
    ensures var r := WithTypes(t, types, i);
            r == t.(byProtocol := r.byProtocol, byAnonymity := r.byAnonymity)
  {
    if i != 0 { WithTypesFrame(t, types, i - 1); }
  }

  /** One bucket of the histogram. */
  lemma ErrorStep(t: Tallies, marks: multiset<Mark>, todo: multiset<ProxyError>, e: ProxyError)
    requires Reflects(t, marks) && e in todo
    ensures var (name, n) := (ErrorName(e), todo[e]);
            && Reflects(t.(errors := Bump(t.errors, name, n)), marks + Times(OfError(name), n))
            && MapSum(Bump(t.errors, name, n)) + |todo[e := 0]| == MapSum(t.errors) + |todo|
            && marks + Times(OfError(name), n) + ErrorMarks(todo[e := 0]) == marks + ErrorMarks(todo)
  {
    ErrorMarksPeel(todo, e);
    AddError(t, marks, ErrorName(e), todo[e]);
    BumpSum(t.errors, ErrorName(e), todo[e]);
  }

  /** Everything but the errors and the time. */
  function Prepared(t: Tallies, p: Proxy): Tallies
  {
    WithCountry(WithTypes(WithHead(t, p.IsWorking()), p.types, |ALL|), CountryCode(p))
  }

  ghost function PreparedMarks(p: Proxy): multiset<Mark>
  {
    Times(Seen, 1) + Times(Works, if p.IsWorking() then 1 else 0) + TypeMarks(p.types, |ALL|)
    + Times(OfCountry(CountryCode(p)), 1)
  }

  lemma PreparedReflects(t: Tallies, marks: multiset<Mark>, p: Proxy)
    requires Reflects(t, marks)
    ensures var r := Prepared(t, p);
            && Reflects(r, marks + PreparedMarks(p))
            && r.total == t.total + 1 && r.errors == t.errors && r.respTimes == t.respTimes
            && MapSum(r.byCountry) == MapSum(t.byCountry) + 1
            && MapSum(r.byProtocol) == MapSum(t.byProtocol) + |p.types|
  {
    AddHead(t, marks, p.IsWorking());
    var t1 := WithHead(t, p.IsWorking());
    var m1 := marks + Times(Seen, 1) + Times(Works, if p.IsWorking() then 1 else 0);
    WithTypesReflects(t1, m1, p.types, |ALL|);
    WithTypesFrame(t1, p.types, |ALL|);
    TypesCounted(p.types);
    var (t2, m2) := (WithTypes(t1, p.types, |ALL|), m1 + TypeMarks(p.types, |ALL|));
    AddCountry(t2, m2, CountryCode(p));
    BumpSum(t2.byCountry, CountryCode(p), 1);
    assert m2 + Times(OfCountry(CountryCode(p)), 1) == marks + PreparedMarks(p);
  }

  function TimeMarks(seconds: real): multiset<Mark>
  {
    if seconds > 0.0 then multiset{Took(seconds)} else multiset{}
  }

  lemma WithTimeReflects(t: Tallies, marks: multiset<Mark>, seconds: real)
    requires Reflects(t, marks)
    ensures Reflects(WithTime(t, seconds), marks + TimeMarks(seconds))
  {
    if seconds > 0.0 {
      AddTime(t, marks, seconds);
      assert marks + Times(Took(seconds), 1) == marks + TimeMarks(seconds);
    } else {
      assert marks == marks + TimeMarks(seconds);
    }
  }

  lemma MarksSplit(marks: multiset<Mark>, p: Proxy)
    ensures marks + PreparedMarks(p) + ErrorMarks(p.errors) + TimeMarks(p.AvgRespTime()) == marks + Marks(p)
  {
  }

  lemma OneMoreRecorded(history: seq<Proxy>, p: Proxy)
    ensures AllMarks(history + [p]) == AllMarks(history) + Marks(p)
    ensures TypeCount(history + [p]) == TypeCount(history) + |p.types|
    ensures ErrorCount(history + [p]) == ErrorCount(history) + p.ErrorsTotal()
  {
    assert (history + [p])[..|history|] == history;
  }

  /** The tallies are those of these proxies. */
  ghost predicate Sound(t: Tallies, history: seq<Proxy>)
  {
    && Reflects(t, AllMarks(history))
    && Conserved(t, |history|, TypeCount(history), ErrorCount(history))
  }

  /** The sums moved by one proxy's types and errors. */
  ghost predicate Moved(before: Tallies, after: Tallies, p: Proxy)
  {
    && after.total == before.total + 1
    && MapSum(after.byCountry) == MapSum(before.byCountry) + 1
    && MapSum(after.byProtocol) == MapSum(before.byProtocol) + |p.types|
    && MapSum(after.errors) == MapSum(before.errors) + p.ErrorsTotal()
  }

  lemma RecordSound(before: Tallies, after: Tallies, history: seq<Proxy>, p: Proxy)
    requires Sound(before, history) && Moved(before, after, p)
    requires Reflects(after, AllMarks(history) + Marks(p))
    ensures Sound(after, history + [p])
  {
    OneMoreRecorded(history, p);
  }

  class StatsCollector {
    var total: nat
    var working: nat
    var byProtocol: map<Proto, nat>
    var byAnonymity: map<AnonLevel, nat>
    var byCountry: map<string, nat>
    var errors: map<string, nat>
    var respTimes: seq<real>
    ghost var history: seq<Proxy>

    function Abs(): Tallies
      reads this
    {
      Tallies(total, working, byProtocol, byAnonymity, byCountry, errors, respTimes)
    }

    ghost predicate Valid()
      reads this
    {
      Sound(Abs(), history)
    }

    constructor ()
      ensures Valid() && history == []
    {
      total, working, byProtocol, byAnonymity, byCountry, errors, respTimes := 0, 0, map[], map[], map[], map[], [];
      history := [];
    }

    method RecordTypes(types: TypeMap)
      modifies this`byProtocol, this`byAnonymity
      ensures Abs() == WithTypes(old(Abs()), types, |ALL|)
    {
      for i := 0 to |ALL|
        invariant Abs() == WithTypes(old(Abs()), types, i)
      {
        var proto := ALL[i];
        if proto in types {
          byProtocol := Bump(byProtocol, proto, 1);
          if proto == Http {
            var level := types[proto];
            if level.Some? {
              byAnonymity := Bump(byAnonymity, level.value, 1);
            }
          }
        }
      }
    }

    method RecordBucket(e: ProxyError, ghost todo: multiset<ProxyError>, n: nat, ghost marks: multiset<Mark>)
      requires Reflects(Abs(), marks) && e in todo && n == todo[e]
      modifies this`errors
      ensures Reflects(Abs(), marks + Times(OfError(ErrorName(e)), n))
      ensures MapSum(errors) + |todo[e := 0]| == old(MapSum(errors)) + |todo|
      ensures marks + Times(OfError(ErrorName(e)), n) + ErrorMarks(todo[e := 0]) == marks + ErrorMarks(todo)
    {
      ErrorStep(Abs(), marks, todo, e);
      errors := Bump(errors, ErrorName(e), n);
    }

    /** The histogram in its arbitrary order. */
    method RecordErrors(histogram: multiset<ProxyError>, ghost marks: multiset<Mark>)
      requires Reflects(Abs(), marks)
      modifies this`errors
      ensures Reflects(Abs(), marks + ErrorMarks(histogram))
      ensures MapSum(errors) == old(MapSum(errors)) + |histogram|
    {
      var todo := histogram;
      ghost var soFar := marks;
      while todo != multiset{}
        invariant Reflects(Abs(), soFar) && soFar + ErrorMarks(todo) == marks + ErrorMarks(histogram)
        invariant MapSum(errors) + |todo| == old(MapSum(errors)) + |histogram|
        decreases |todo|
      {
        var e: ProxyError :| e in todo;
        RecordBucket(e, todo, todo[e], soFar);
        soFar := soFar + Times(OfError(ErrorName(e)), todo[e]);
        todo := todo[e := 0];
      }
      assert soFar + ErrorMarks(multiset{}) == soFar;
    }

    method Prepare(p: Proxy)
      modifies this`total, this`working, this`byProtocol, this`byAnonymity, this`byCountry
      ensures Abs() == Prepared(old(Abs()), p)
    {
      total := total + 1;
      if p.IsWorking() {
        working := working + 1;
      }
      assert Abs() == WithHead(old(Abs()), p.IsWorking());
      RecordTypes(p.types);
      var country := CountryCode(p);
      byCountry := Bump(byCountry, country, 1);
    }

    method RecordTime(seconds: real, ghost marks: multiset<Mark>)
      requires Reflects(Abs(), marks)
      modifies this`respTimes
      ensures Reflects(Abs(), marks + TimeMarks(seconds))
    {
      WithTimeReflects(Abs(), marks, seconds);
      if seconds > 0.0 {
        respTimes := respTimes + [seconds];
      }
    }

    method RecordCounts(p: Proxy, ghost marks: multiset<Mark>)
      requires Reflects(Abs(), marks)
      modifies this`total, this`working, this`byProtocol, this`byAnonymity, this`byCountry
      ensures Reflects(Abs(), marks + PreparedMarks(p))
      ensures total == old(total) + 1
      ensures MapSum(byCountry) == old(MapSum(byCountry)) + 1
      ensures MapSum(byProtocol) == old(MapSum(byProtocol)) + |p.types|
    {
      PreparedReflects(Abs(), marks, p);
      Prepare(p);
    }

    method RecordOutcome(p: Proxy, ghost marks: multiset<Mark>)
      requires Reflects(Abs(), marks)
      modifies this`errors, this`respTimes
      ensures Reflects(Abs(), marks + ErrorMarks(p.errors) + TimeMarks(p.AvgRespTime()))
      ensures MapSum(errors) == old(MapSum(errors)) + p.ErrorsTotal()
    {
      RecordErrors(p.errors, marks);
      RecordTime(p.AvgRespTime(), marks + ErrorMarks(p.errors));
    }

    method RecordFields(p: Proxy, ghost marks: multiset<Mark>)
      requires Reflects(Abs(), marks)
      modifies this`total, this`working, this`byProtocol, this`byAnonymity, this`byCountry, this`errors, this`respTimes
      ensures Reflects(Abs(), marks + Marks(p)) && Moved(old(Abs()), Abs(), p)
    {
      RecordCounts(p, marks);
      RecordOutcome(p, marks + PreparedMarks(p));
      MarksSplit(marks, p);
    }

    method Record(p: Proxy)
      requires Valid()
      modifies this
      ensures Valid() && history == old(history) + [p]
    {
      ghost var before := Abs();
      RecordFields(p, AllMarks(history));
      RecordSound(before, Abs(), history, p);
      history := history + [p];
    }

    /** `finish`. */
    method Finish() returns (stats: StatsReport)
      requires Valid()
      ensures stats == Report(Abs())
      ensures stats.total == |history| == MapSum(stats.byCountry)
      ensures MapSum(stats.byProtocol) == TypeCount(history) && MapSum(stats.errors) == ErrorCount(history)
      ensures stats.p50 <= stats.p90 <= stats.p95
    {
      stats := StatsReport(
        total, working, byProtocol, byAnonymity, byCountry, errors,
        if respTimes == [] then 0.0 else Round2(Sum(respTimes) / |respTimes| as real),
        Percentile(respTimes, 0.5), Percentile(respTimes, 0.9), Percentile(respTimes, 0.95));
      ReportedQuantiles(Abs());
    }
  }

  /** `Stats::from_proxies`: record each, then finish. The report is conserved. */
  method FromProxies(proxies: seq<Proxy>) returns (stats: StatsReport)
    ensures exists t: Tallies :: Reflects(t, AllMarks(proxies)) && stats == Report(t)
    ensures stats.total == |proxies| == MapSum(stats.byCountry)
    ensures MapSum(stats.byProtocol) == TypeCount(proxies) && MapSum(stats.errors) == ErrorCount(proxies)
    ensures stats.p50 <= stats.p90 <= stats.p95
  {
    var c := RecordAll(proxies);
    stats := c.Finish();
    assert Reflects(c.Abs(), AllMarks(proxies));
  }

  method RecordAll(proxies: seq<Proxy>) returns (c: StatsCollector)
    ensures fresh(c) && c.Valid() && c.history == proxies
  {
    c := new StatsCollector();
    var i := 0;
    while i < |proxies|
      invariant i <= |proxies| && fresh(c) && c.Valid() && c.history == proxies[..i]
    {
      Prefix(proxies, i);
      c.Record(proxies[i]);
      i := i + 1;
    }
  }

  lemma Prefix<T>(s: seq<T>, i: nat)
    requires i < |s|
    ensures s[..i + 1] == s[..i] + [s[i]]
  {
  }

  // ----- the report -----

  datatype StatsReport = StatsReport(total: nat, working: nat, byProtocol: map<Proto, nat>,
                                     byAnonymity: map<AnonLevel, nat>, byCountry: map<string, nat>,
                                     errors: map<string, nat>, avg: real, p50: real, p90: real, p95: real)

  function Report(t: Tallies): StatsReport
  {
    StatsReport(t.total, t.working, t.byProtocol, t.byAnonymity, t.byCountry, t.errors, MeanRounded(t.respTimes),
                Percentile(t.respTimes, 0.5), Percentile(t.respTimes, 0.9), Percentile(t.respTimes, 0.95))
  }

  lemma SameCounts<K(!new)>(a: map<K, nat>, b: map<K, nat>, mark: K -> Mark, marks: multiset<Mark>)
    requires Counts(a, mark, marks) && Counts(b, mark, marks)
    ensures a == b
  {
    forall k ensures k in a <==> k in b { assert Get(a, k) == Get(b, k); }
    forall k | k in a ensures a[k] == b[k] { assert Get(a, k) == Get(b, k); }
  }

  lemma {:induction false} SumConcat(a: seq<real>, b: seq<real>)
    ensures Sum(a + b) == Sum(a) + Sum(b)
  {
    if b == [] {
      assert a + b == a;
    } else {
      SumConcat(a, b[..|b| - 1]);
      assert (a + b)[..|a + b| - 1] == a + b[..|b| - 1];
    }
  }

  lemma SumWithout(xs: seq<real>, i: nat)
    requires i < |xs|
    ensures Sum(xs) == Sum(xs[..i] + xs[i + 1..]) + xs[i]
  {
    var (a, x, b) := (xs[..i], xs[i], xs[i + 1..]);
    Rejoin(xs, i);
    SumConcat(a + [x], b);
    SumConcat(a, b);
    SumPush(a, x);
  }

  lemma SumPush(a: seq<real>, x: real)
    ensures Sum(a + [x]) == Sum(a) + x
  {
    assert (a + [x])[..|a|] == a;
  }

  /** Real sums do not depend on the order of the summands. */
  lemma {:induction false} SumIsOrderFree(a: seq<real>, b: seq<real>)
    requires multiset(a) == multiset(b)
    ensures Sum(a) == Sum(b)
    decreases |a|
  {
    SameSize(a, b);
    if a != [] {
      var n := |a| - 1;
      var i := FoundIn(a, b, a[n]);
      CountsWithout(a, n);
      CountsWithout(b, i);
      assert a[..n] + a[n + 1..] == a[..n];
      SumIsOrderFree(a[..n], b[..i] + b[i + 1..]);
      SumWithout(b, i);
    }
  }

  /** Two tallies of the same marks give the same report. */
  lemma ReportDetermined(s: Tallies, t: Tallies, marks: multiset<Mark>)
    requires Reflects(s, marks) && Reflects(t, marks)
    ensures Report(s) == Report(t)
  {
    SameCounts(s.byProtocol, t.byProtocol, ProtoMark, marks);
    SameCounts(s.byAnonymity, t.byAnonymity, LevelMark, marks);
    SameCounts(s.byCountry, t.byCountry, CountryMark, marks);
    SameCounts(s.errors, t.errors, ErrorMark, marks);
    SameTimes(s.respTimes, t.respTimes, marks);
  }

  lemma SameTimes(a: seq<real>, b: seq<real>, marks: multiset<Mark>)
    requires Timed(a, marks) && Timed(b, marks)
    ensures MeanRounded(a) == MeanRounded(b)
    ensures Percentile(a, 0.5) == Percentile(b, 0.5) && Percentile(a, 0.9) == Percentile(b, 0.9)
    ensures Percentile(a, 0.95) == Percentile(b, 0.95)
  {
    forall x ensures multiset(a)[x] == multiset(b)[x] { assert multiset(a)[x] == marks[Took(x)]; }
    assert multiset(a) == multiset(b);
    SumIsOrderFree(a, b);
    SameSize(a, b);
    OrderDoesNotMatter(a, b, 0.5);
    OrderDoesNotMatter(a, b, 0.9);
    OrderDoesNotMatter(a, b, 0.95);
  }

  /** The report does not depend on the order in which concurrent checks record their proxies. */
  lemma ReportIsOrderFree(a: seq<Proxy>, b: seq<Proxy>, s: Tallies, t: Tallies)
    requires multiset(a) == multiset(b)
    requires Reflects(s, AllMarks(a)) && Reflects(t, AllMarks(b))
    ensures Report(s) == Report(t)
  {
    TotalIsOrderFree(Marks, a, b);
    ReportDetermined(s, t, AllMarks(a));
  }

  /** The three reported quantiles come in order. */
  lemma ReportedQuantiles(t: Tallies)
    ensures Report(t).p50 <= Report(t).p90 <= Report(t).p95
  {
    QuantilesOrdered(t.respTimes, 0.5, 0.9);
    QuantilesOrdered(t.respTimes, 0.9, 0.95);
  }
}
