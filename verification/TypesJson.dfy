/** `src/persist.rs` and `src/types.rs`: the confirmed types of a proxy as a JSON column. */
module TypesJson {
  import opened Prelude
  import opened Proxies

  /** `Proto::ALL`, which is also the order a `BTreeMap` iterates in. */
  const ALL: seq<Proto> := [Http, Https, Socks4, Socks5, Connect80, Connect25]

  const LEVELS: seq<AnonLevel> := [Transparent, Anonymous, High]

  function ProtoName(p: Proto): string
  {
    match p
    case Http => "HTTP"
    case Https => "HTTPS"
    case Socks4 => "SOCKS4"
    case Socks5 => "SOCKS5"
    case Connect80 => "CONNECT:80"
    case Connect25 => "CONNECT:25"
  }

  function LevelName(l: AnonLevel): string
  {
    match l
    case Transparent => "Transparent"
    case Anonymous => "Anonymous"
    case High => "High"
  }

  function LowerChar(c: char): char
  {
    if 'A' <= c <= 'Z' then (c as int + 32) as char else c
  }

  predicate SameIgnoringCase(a: string, b: string)
  {
    |a| == |b| && forall i :: 0 <= i < |a| ==> LowerChar(a[i]) == LowerChar(b[i])
  }

  /** The first protocol from position `i` on whose name matches. */
  function FindProto(s: string, i: nat): Option<Proto>
    decreases |ALL| - i
  {
    if i >= |ALL| then None
    else if SameIgnoringCase(ProtoName(ALL[i]), s) then Some(ALL[i])
    else FindProto(s, i + 1)
  }

  function FindLevel(s: string, i: nat): Option<AnonLevel>
    decreases |LEVELS| - i
  {
    if i >= |LEVELS| then None
    else if SameIgnoringCase(LevelName(LEVELS[i]), s) then Some(LEVELS[i])
    else FindLevel(s, i + 1)
  }

  function ParseProto(s: string): Option<Proto> { FindProto(s, 0) }

  function ParseLevel(s: string): Option<AnonLevel> { FindLevel(s, 0) }

  lemma NamesDiffer(p: Proto, q: Proto)
    requires p != q
    ensures !SameIgnoringCase(ProtoName(p), ProtoName(q))
  {
    var (a, b) := (ProtoName(p), ProtoName(q));
    if |a| == |b| {
      assert LowerChar(a[|a| - 1]) != LowerChar(b[|b| - 1]);
    }
  }

  lemma {:induction false} FindOwnName(p: Proto, i: nat)
    requires i <= |ALL| && p in ALL[i..]
    ensures FindProto(ProtoName(p), i) == Some(p)
    decreases |ALL| - i
  {
    if ALL[i] != p {
      NamesDiffer(ALL[i], p);
      FindOwnName(p, i + 1);
    }
  }

  lemma AllListed(p: Proto)
    ensures p in ALL[..|ALL|] && p in ALL[0..]
  {
    assert ALL[..|ALL|] == ALL == ALL[0..];
    assert ALL[0] == Http && ALL[1] == Https && ALL[2] == Socks4;
    assert ALL[3] == Socks5 && ALL[4] == Connect80 && ALL[5] == Connect25;
  }

  /** A protocol's and a level's name read back as themselves. */
  lemma NamesReadBack(p: Proto, l: AnonLevel)
    ensures ParseProto(ProtoName(p)) == Some(p)
    ensures LevelName(l) != "" && ParseLevel(LevelName(l)) == Some(l)
  {
    AllListed(p);
    FindOwnName(p, 0);
    assert LevelName(Transparent)[0] == 'T' && LevelName(Anonymous)[0] == 'A';
    assert FindLevel(LevelName(High), 2) == Some(High);
    assert FindLevel(LevelName(Anonymous), 1) == Some(Anonymous);
  }

  // ----- the array of objects -----

  /** One element of the array; a missing level is the empty string. */
  datatype Entry = Entry(level: string, kind: string)

  function EntryOf(p: Proto, level: Option<AnonLevel>): Entry
  {
    Entry(if level.Some? then LevelName(level.value) else "", ProtoName(p))
  }

  /** The entries of the first `i` protocols. */
  function EntriesUpTo(types: TypeMap, i: nat): seq<Entry>
    requires i <= |ALL|
  {
    if i == 0 then []
    else EntriesUpTo(types, i - 1) + (if ALL[i - 1] in types then [EntryOf(ALL[i - 1], types[ALL[i - 1]])] else [])
  }

  function Entries(types: TypeMap): seq<Entry> { EntriesUpTo(types, |ALL|) }

  function LevelOf(e: Entry): Option<AnonLevel>
  {
    if e.level == "" then None else ParseLevel(e.level)
  }

  /** Insert one entry; an unknown protocol is skipped, an unknown level is no level. */
  function Absorb(types: TypeMap, e: Entry): TypeMap
  {
    match ParseProto(e.kind)
    case None => types
    case Some(p) => types[p := LevelOf(e)]
  }

  function Collected(entries: seq<Entry>): TypeMap
  {
    if entries == [] then map[] else Absorb(Collected(entries[..|entries| - 1]), entries[|entries| - 1])
  }

  /** The loop of `types_from_json`. */
  method Collect(entries: seq<Entry>) returns (types: TypeMap)
    ensures types == Collected(entries)
  {
    types := map[];
    for i := 0 to |entries|
      invariant types == Collected(entries[..i])
    {
      assert entries[..i + 1][..i] == entries[..i];
      var kind := ParseProto(entries[i].kind);
      if kind.Some? {
        types := types[kind.value := LevelOf(entries[i])];
      }
    }
    assert entries[..|entries|] == entries;
  }

  /** The confirmed types among the first `i` protocols. */
  function UpTo(types: TypeMap, i: nat): TypeMap
    requires i <= |ALL|
  {
    map p | p in types && p in ALL[..i] :: types[p]
  }

  lemma UpToNext(types: TypeMap, i: nat)
    requires i < |ALL|
    ensures UpTo(types, i + 1) == if ALL[i] in types then UpTo(types, i)[ALL[i] := types[ALL[i]]] else UpTo(types, i)
  {
    assert ALL[..i + 1] == ALL[..i] + [ALL[i]];
  }

  lemma UpToAll(types: TypeMap)
    ensures UpTo(types, |ALL|) == types
  {
    forall p | p in types ensures p in ALL[..|ALL|] {
      AllListed(p);
    }
  }

  lemma CollectedNext(entries: seq<Entry>, e: Entry)
    ensures Collected(entries + [e]) == Absorb(Collected(entries), e)
  {
    assert (entries + [e])[..|entries|] == entries;
  }

  lemma AbsorbOwn(types: TypeMap, p: Proto, level: Option<AnonLevel>)
    ensures Absorb(types, EntryOf(p, level)) == types[p := level]
  {
    NamesReadBack(p, if level.Some? then level.value else High);
  }

  lemma CollectedOwn(entries: seq<Entry>, p: Proto, level: Option<AnonLevel>)
    ensures Collected(entries + [EntryOf(p, level)]) == Collected(entries)[p := level]
  {
    CollectedNext(entries, EntryOf(p, level));
    AbsorbOwn(Collected(entries), p, level);
  }

  lemma EntriesNext(types: TypeMap, i: nat)
    requires i < |ALL|
    ensures EntriesUpTo(types, i + 1)
            == if ALL[i] in types then EntriesUpTo(types, i) + [EntryOf(ALL[i], types[ALL[i]])]
               else EntriesUpTo(types, i)
  {
  }

  lemma CollectNone(types: TypeMap)
    ensures Collected(EntriesUpTo(types, 0)) == UpTo(types, 0)
  {
    assert UpTo(types, 0) == map[];
  }

  lemma CollectNext(types: TypeMap, i: nat)
    requires i < |ALL| && Collected(EntriesUpTo(types, i)) == UpTo(types, i)
    ensures Collected(EntriesUpTo(types, i + 1)) == UpTo(types, i + 1)
  {
    EntriesNext(types, i);
    UpToNext(types, i);
    if ALL[i] in types { CollectedOwn(EntriesUpTo(types, i), ALL[i], types[ALL[i]]); }
  }

  lemma CollectUpTo(types: TypeMap, i: nat)
    requires i <= |ALL|
    ensures Collected(EntriesUpTo(types, i)) == UpTo(types, i)
  {
    CollectNone(types);
    for k := 0 to i
      invariant Collected(EntriesUpTo(types, k)) == UpTo(types, k)
    {
      CollectNext(types, k);
    }
  }

  lemma CollectEntries(types: TypeMap)
    ensures Collected(Entries(types)) == types
  {
    CollectUpTo(types, |ALL|);
    UpToAll(types);
  }

  // ----- its text -----

  const QUOTE := '"'
  const BEFORE_LEVEL := "{\"level\":\""
  const BEFORE_TYPE := ",\"type\":\""
  const AFTER_TYPE := "}"

  /** A string that prints between quotes without an escape. */
  predicate Plain(s: string)
  {
    QUOTE !in s && '\\' !in s
  }

  function EntryText(e: Entry): string
  {
    BEFORE_LEVEL + (e.level + [QUOTE] + (BEFORE_TYPE + (e.kind + [QUOTE] + AFTER_TYPE)))
  }

  /** The elements after the first, and the closing bracket. */
  function RestText(entries: seq<Entry>): string
  {
    if entries == [] then "]" else "," + (EntryText(entries[0]) + RestText(entries[1..]))
  }

  /** `serde_json::to_string` of the array: keys sorted, no spaces. */
  function ArrayText(entries: seq<Entry>): string
  {
    if entries == [] then "[]" else "[" + (EntryText(entries[0]) + RestText(entries[1..]))
  }

  function Skip(literal: string, s: string): Option<string>
  {
    if literal <= s then Some(s[|literal|..]) else None
  }

  /** Everything before the next quote, and everything after it. */
  function ReadWord(s: string): Option<(string, string)>
  {
    if s == "" then None
    else if s[0] == QUOTE then Some(("", s[1..]))
    else match ReadWord(s[1..])
      case None => None
      case Some((w, rest)) => Some(([s[0]] + w, rest))
  }

  function ReadAfter(literal: string, s: string): Option<(string, string)>
  {
    match Skip(literal, s)
    case None => None
    case Some(t) => ReadWord(t)
  }

  function ReadEntry(s: string): (r: Option<(Entry, string)>)
    ensures r.Some? ==> |r.value.1| < |s|
  {
    match ReadAfter(BEFORE_LEVEL, s)
    case None => None
    case Some((level, t)) =>
      ReadWordShrinks(s[|BEFORE_LEVEL|..]);
      match ReadAfter(BEFORE_TYPE, t)
      case None => None
      case Some((kind, u)) =>
        ReadWordShrinks(t[|BEFORE_TYPE|..]);
        match Skip(AFTER_TYPE, u)
        case None => None
        case Some(rest) => Some((Entry(level, kind), rest))
  }

  function ReadRest(s: string): Option<seq<Entry>>
    decreases |s|
  {
    if s == "]" then Some([])
    else match Skip(",", s)
      case None => None
      case Some(t) =>
        match ReadEntry(t)
        case None => None
        case Some((e, rest)) =>
          match ReadRest(rest)
          case None => None
          case Some(es) => Some([e] + es)
  }

  function ReadArray(s: string): Option<seq<Entry>>
  {
    if s == "[]" then Some([])
    else match Skip("[", s)
      case None => None
      case Some(t) =>
        match ReadEntry(t)
        case None => None
        case Some((e, rest)) =>
          match ReadRest(rest)
          case None => None
          case Some(es) => Some([e] + es)
  }

  lemma {:induction false} ReadWordShrinks(s: string)
    ensures ReadWord(s).Some? ==> |ReadWord(s).value.1| < |s|
  {
    if s != "" && s[0] != QUOTE { ReadWordShrinks(s[1..]); }
  }

  lemma SkipLiteral(literal: string, rest: string)
    ensures Skip(literal, literal + rest) == Some(rest)
  {
    assert (literal + rest)[|literal|..] == rest;
  }

  lemma {:induction false} ReadPlainWord(w: string, rest: string)
    requires Plain(w)
    ensures ReadWord(w + [QUOTE] + rest) == Some((w, rest))
  {
    var s := w + [QUOTE] + rest;
    if w == "" {
      assert s[1..] == rest;
    } else {
      assert s[1..] == w[1..] + [QUOTE] + rest;
      ReadPlainWord(w[1..], rest);
      assert [w[0]] + w[1..] == w;
    }
  }

  lemma ReadEntryText(e: Entry, rest: string)
    requires Plain(e.level) && Plain(e.kind)
    ensures ReadEntry(EntryText(e) + rest) == Some((e, rest))
  {
    var last := AFTER_TYPE + rest;
    var kind := BEFORE_TYPE + (e.kind + [QUOTE] + last);
    var level := e.level + [QUOTE] + kind;
    assert EntryText(e) + rest == BEFORE_LEVEL + level;
    SkipLiteral(BEFORE_LEVEL, level);
    ReadPlainWord(e.level, kind);
    SkipLiteral(BEFORE_TYPE, e.kind + [QUOTE] + last);
    ReadPlainWord(e.kind, last);
    SkipLiteral(AFTER_TYPE, rest);
  }

  predicate AllPlain(entries: seq<Entry>)
  {
    forall i :: 0 <= i < |entries| ==> Plain(entries[i].level) && Plain(entries[i].kind)
  }

  lemma {:induction false} ReadRestText(entries: seq<Entry>)
    requires AllPlain(entries)
    ensures ReadRest(RestText(entries)) == Some(entries)
  {
    if entries != [] {
      var after := RestText(entries[1..]);
      SkipLiteral(",", EntryText(entries[0]) + after);
      ReadEntryText(entries[0], after);
      ReadRestText(entries[1..]);
      assert [entries[0]] + entries[1..] == entries;
      assert RestText(entries)[0] == ',';
    }
  }

  lemma ReadArrayText(entries: seq<Entry>)
    requires AllPlain(entries)
    ensures ReadArray(ArrayText(entries)) == Some(entries)
    ensures ArrayText(entries) == "[]" <==> entries == []
  {
    if entries != [] {
      var after := RestText(entries[1..]);
      SkipLiteral("[", EntryText(entries[0]) + after);
      ReadEntryText(entries[0], after);
      ReadRestText(entries[1..]);
      assert [entries[0]] + entries[1..] == entries;
      assert ArrayText(entries)[1] == '{';
    }
  }

  // ----- the two functions of the stores -----

  function TypesToJson(types: TypeMap): string
  {
    ArrayText(Entries(types))
  }

  /** Text that is not such an array holds no types. */
  function TypesFromJson(s: string): TypeMap
  {
    match ReadArray(s)
    case None => map[]
    case Some(entries) => Collected(entries)
  }

  lemma {:induction false} EntriesPlain(types: TypeMap, i: nat)
    requires i <= |ALL|
    ensures AllPlain(EntriesUpTo(types, i))
    ensures EntriesUpTo(types, i) == [] <==> forall p | p in ALL[..i] :: p !in types
  {
    if i != 0 {
      EntriesPlain(types, i - 1);
      assert ALL[..i] == ALL[..i - 1] + [ALL[i - 1]];
      NamePlain(ALL[i - 1]);
    }
  }

  lemma NamePlain(p: Proto)
    ensures Plain(ProtoName(p))
    ensures Plain("") && forall l :: Plain(LevelName(l))
  {
  }

  /** The column reads back as the map it was written from, and `[]` is written for no types only. */
  lemma TypesRoundTrip(types: TypeMap)
    ensures TypesFromJson(TypesToJson(types)) == types
    ensures TypesToJson(types) == "[]" <==> types == map[]
  {
    EntriesPlain(types, |ALL|);
    ReadArrayText(Entries(types));
    CollectEntries(types);
    assert Collected([]) == map[];
  }
}
