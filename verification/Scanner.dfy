/** `src/parse.rs`: finding `IP:port` pairs in text. */
module Scanner {
  import opened Prelude
  import opened Decimal
  import opened Patterns

  /** Where a pattern matches, as a function of the start. */
  type Matches = nat -> Option<nat>

  ghost predicate AdvancesWithin(m: Matches, n: nat)
  {
    forall i: nat :: m(i).Some? ==> i < m(i).value <= n
  }

  /** `find_at`: the leftmost match from `i` on, as its start and end. */
  function FindAt(m: Matches, n: nat, i: nat): (found: Option<(nat, nat)>)
    requires i <= n && AdvancesWithin(m, n)
    ensures found.Some? ==> i <= found.value.0 < found.value.1 <= n
    decreases n - i
  {
    if m(i).Some? then Some((i, m(i).value))
    else if i == n then None
    else FindAt(m, n, i + 1)
  }

  /**
   * The nearest token after an address: `""` for another address (one that starts where a port
   * also does wins), the digits of a port, or nothing.
   */
  function Follow(address: Matches, port: Matches, s: string, i: nat): Option<string>
    requires i <= |s| && AdvancesWithin(address, |s|) && AdvancesWithin(port, |s|)
    decreases |s| - i
  {
    if address(i).Some? then Some("")
    else if port(i).Some? then Some(s[i..port(i).value])
    else if i == |s| then None
    else Follow(address, port, s, i + 1)
  }

  /** What the address at `i..end` adds to the result. */
  function Emit(address: Matches, port: Matches, s: string, i: nat, end: nat): seq<(string, string)>
    requires i <= end <= |s| && AdvancesWithin(address, |s|) && AdvancesWithin(port, |s|)
  {
    var token := Follow(address, port, s, end);
    if token.Some? then [(s[i..end], token.value)] else []
  }

  /** One pass over the text: every leftmost address, with what follows it. */
  function Scan(address: Matches, port: Matches, s: string, i: nat): seq<(string, string)>
    requires i <= |s| && AdvancesWithin(address, |s|) && AdvancesWithin(port, |s|)
    decreases |s| - i
  {
    if address(i).Some? then
      Emit(address, port, s, i, address(i).value) + Scan(address, port, s, address(i).value)
    else if i == |s| then []
    else Scan(address, port, s, i + 1)
  }

  /** `find_at` for both patterns and the comparison of starts amount to the walk of `Follow`. */
  lemma {:induction false} NearestToken(address: Matches, port: Matches, s: string, i: nat)
    requires i <= |s| && AdvancesWithin(address, |s|) && AdvancesWithin(port, |s|)
    ensures var (a, p) := (FindAt(address, |s|, i), FindAt(port, |s|, i));
            Follow(address, port, s, i) ==
              if p.Some? && (a.None? || p.value.0 < a.value.0) then Some(s[p.value.0..p.value.1])
              else if a.Some? then Some("")
              else None
    decreases |s| - i
  {
    if address(i).None? && port(i).None? && i < |s| {
      NearestToken(address, port, s, i + 1);
    }
  }

  /** A scan goes on from the next address found, if there is one. */
  lemma {:induction false} ScanStep(address: Matches, port: Matches, s: string, i: nat)
    requires i <= |s| && AdvancesWithin(address, |s|) && AdvancesWithin(port, |s|)
    ensures FindAt(address, |s|, i).None? ==> Scan(address, port, s, i) == []
    ensures FindAt(address, |s|, i).Some? ==>
              var (start, end) := FindAt(address, |s|, i).value;
              Scan(address, port, s, i) == Emit(address, port, s, start, end) + Scan(address, port, s, end)
    decreases |s| - i
  {
    if address(i).None? && i < |s| {
      ScanStep(address, port, s, i + 1);
    }
  }

  /** Every address of a text with its port, with an empty port, or not at all. */
  function GlobalPairs(text: string, nd: char -> bool): seq<(string, string)>
  {
    BothAdvance(text, nd);
    Scan(Matcher(IPV4, text, nd), Matcher(PORT, text, nd), text, 0)
  }

  lemma BothAdvance(s: string, nd: char -> bool)
    ensures AdvancesWithin(Matcher(IPV4, s, nd), |s|)
    ensures AdvancesWithin(Matcher(PORT, s, nd), |s|)
  {
    forall i: nat ensures Matcher(IPV4, s, nd)(i).Some? ==> i < Matcher(IPV4, s, nd)(i).value <= |s| {
      PatternsAdvance(s, nd, i);
    }
    forall i: nat ensures Matcher(PORT, s, nd)(i).Some? ==> i < Matcher(PORT, s, nd)(i).value <= |s| {
      PatternsAdvance(s, nd, i);
    }
  }

  /** `find_addrs_global`: `search_from` moves past each address found. */
  method FindAddrsGlobal(text: string, nd: char -> bool) returns (out: seq<(string, string)>)
    ensures out == GlobalPairs(text, nd)
  {
    BothAdvance(text, nd);
    var (address, port) := (Matcher(IPV4, text, nd), Matcher(PORT, text, nd));
    out := [];
    var searchFrom := 0;
    var ip := FindAt(address, |text|, searchFrom);
    while ip.Some?
      invariant searchFrom <= |text| && ip == FindAt(address, |text|, searchFrom)
      invariant out + Scan(address, port, text, searchFrom) == GlobalPairs(text, nd)
      decreases |text| - searchFrom
    {
      ScanStep(address, port, text, searchFrom);
      var (start, after) := ip.value;
      var nextIp := FindAt(address, |text|, after);
      var nextPort := FindAt(port, |text|, after);
      NearestToken(address, port, text, after);
      var token :=
        if nextPort.Some? && nextIp.Some? && nextPort.value.0 < nextIp.value.0 then
          Some(text[nextPort.value.0..nextPort.value.1])
        else if nextPort.Some? && nextIp.None? then Some(text[nextPort.value.0..nextPort.value.1])
        else if nextIp.Some? then Some("")
        else None;
      Regroup(out, Emit(address, port, text, start, after), Scan(address, port, text, after));
      assert out + [] == out;
      if token.Some? {
        out := out + [(text[start..after], token.value)];
      }
      searchFrom := after;
      ip := FindAt(address, |text|, searchFrom);
    }
    ScanStep(address, port, text, searchFrom);
    assert out + [] == out;
  }

  // ----- one pair per line -----

  /** `text.split('\n')`. */
  function SplitLines(text: string): (lines: seq<string>)
    ensures lines != []
  {
    if text == "" then [""]
    else
      var rest := SplitLines(text[1..]);
      if text[0] == '\n' then [""] + rest else [[text[0]] + rest[0]] + rest[1..]
  }

  /** The first address of a line with the first port after it. */
  function LinePair(line: string, nd: char -> bool): Option<(string, string)>
  {
    BothAdvance(line, nd);
    match FindAt(Matcher(IPV4, line, nd), |line|, 0)
    case None => None
    case Some((start, end)) =>
      var tail := line[end..];
      BothAdvance(tail, nd);
      match FindAt(Matcher(PORT, tail, nd), |tail|, 0)
      case None => None
      case Some((from, to)) => Some((line[start..end], tail[from..to]))
  }

  function LinePairs(lines: seq<string>, nd: char -> bool): seq<(string, string)>
  {
    if lines == [] then []
    else
      var pair := LinePair(lines[|lines| - 1], nd);
      LinePairs(lines[..|lines| - 1], nd) + (if pair.Some? then [pair.value] else [])
  }

  /** `find_addrs_line`. */
  method FindAddrsLine(text: string, nd: char -> bool) returns (out: seq<(string, string)>)
    ensures out == LinePairs(SplitLines(text), nd)
  {
    var lines := SplitLines(text);
    out := [];
    for i := 0 to |lines|
      invariant out == LinePairs(lines[..i], nd)
    {
      assert lines[..i + 1][..i] == lines[..i];
      BothAdvance(lines[i], nd);
      var ip := FindAt(Matcher(IPV4, lines[i], nd), |lines[i]|, 0);
      if ip.Some? {
        var tail := lines[i][ip.value.1..];
        BothAdvance(tail, nd);
        var port := FindAt(Matcher(PORT, tail, nd), |tail|, 0);
        if port.Some? {
          out := out + [(lines[i][ip.value.0..ip.value.1], tail[port.value.0..port.value.1])];
        }
      }
    }
    assert lines[..|lines|] == lines;
  }

  // ----- what comes out -----

  predicate PortShaped(t: string, nd: char -> bool)
  {
    2 <= |t| <= 5 && DigitsIn(t, 0, |t|, nd)
  }

  lemma SliceDigits(s: string, i: nat, j: nat, nd: char -> bool)
    requires i <= j <= |s| && DigitsIn(s, i, j, nd)
    ensures DigitsIn(s[i..j], 0, j - i, nd)
  {
    forall k | 0 <= k < j - i ensures DigitAt(s[i..j], k, nd) {
      assert DigitAt(s, i + k, nd);
    }
  }

  lemma {:induction false} FollowShape(s: string, i: nat, nd: char -> bool)
    requires i <= |s|
    requires AdvancesWithin(Matcher(IPV4, s, nd), |s|) && AdvancesWithin(Matcher(PORT, s, nd), |s|)
    ensures var t := Follow(Matcher(IPV4, s, nd), Matcher(PORT, s, nd), s, i);
            t.Some? ==> t.value == "" || PortShaped(t.value, nd)
    decreases |s| - i
  {
    PatternsAdvance(s, nd, i);
    var port := Matcher(PORT, s, nd)(i);
    if Matcher(IPV4, s, nd)(i).Some? {
    } else if port.Some? {
      SliceDigits(s, i, port.value, nd);
    } else if i < |s| {
      FollowShape(s, i + 1, nd);
    }
  }

  lemma {:induction false} ScanShape(s: string, i: nat, nd: char -> bool, k: nat)
    requires i <= |s|
    requires AdvancesWithin(Matcher(IPV4, s, nd), |s|) && AdvancesWithin(Matcher(PORT, s, nd), |s|)
    requires k < |Scan(Matcher(IPV4, s, nd), Matcher(PORT, s, nd), s, i)|
    ensures var t := Scan(Matcher(IPV4, s, nd), Matcher(PORT, s, nd), s, i)[k].1;
            t == "" || PortShaped(t, nd)
    decreases |s| - i
  {
    var (address, port) := (Matcher(IPV4, s, nd), Matcher(PORT, s, nd));
    if address(i).Some? {
      var end := address(i).value;
      FollowShape(s, end, nd);
      var n := |Emit(address, port, s, i, end)|;
      if k >= n { ScanShape(s, end, nd, k - n); }
    } else {
      ScanShape(s, i + 1, nd, k);
    }
  }

  /** Every port found in a text is empty or two to five digits. */
  lemma GlobalShape(text: string, nd: char -> bool, k: nat)
    requires k < |GlobalPairs(text, nd)|
    ensures GlobalPairs(text, nd)[k].1 == "" || PortShaped(GlobalPairs(text, nd)[k].1, nd)
  {
    BothAdvance(text, nd);
    ScanShape(text, 0, nd, k);
  }

  /** The addresses a scan comes across, as their starts and ends. */
  function Found(address: Matches, n: nat, i: nat): (found: seq<(nat, nat)>)
    requires i <= n && AdvancesWithin(address, n)
    ensures forall k :: 0 <= k < |found| ==> i <= found[k].0 < found[k].1 <= n
    decreases n - i
  {
    if address(i).Some? then [(i, address(i).value)] + Found(address, n, address(i).value)
    else if i == n then []
    else Found(address, n, i + 1)
  }

  /** What an address found should be emitted as. */
  function Token(address: Matches, port: Matches, s: string, at: (nat, nat)): Option<(string, string)>
    requires at.0 <= at.1 <= |s| && AdvancesWithin(address, |s|) && AdvancesWithin(port, |s|)
  {
    match Follow(address, port, s, at.1)
    case None => None
    case Some(token) => Some((s[at.0..at.1], token))
  }

  lemma {:induction false} NothingFollows(address: Matches, port: Matches, s: string, i: nat)
    requires i <= |s| && AdvancesWithin(address, |s|) && AdvancesWithin(port, |s|)
    requires Follow(address, port, s, i).None?
    ensures Found(address, |s|, i) == [] && Scan(address, port, s, i) == []
    decreases |s| - i
  {
    if i < |s| { NothingFollows(address, port, s, i + 1); }
  }

  /** The pairs emitted are the addresses found, except a last one without a token. */
  predicate Paired(address: Matches, port: Matches, s: string, out: seq<(string, string)>, found: seq<(nat, nat)>)
    requires AdvancesWithin(address, |s|) && AdvancesWithin(port, |s|)
    requires forall k :: 0 <= k < |found| ==> found[k].0 <= found[k].1 <= |s|
  {
    && |out| <= |found| <= |out| + 1
    && (forall k :: 0 <= k < |out| ==> Token(address, port, s, found[k]) == Some(out[k]))
    && (|out| < |found| <==> found != [] && Token(address, port, s, found[|found| - 1]).None?)
  }

  lemma PairedCons(address: Matches, port: Matches, s: string, at: (nat, nat), out: seq<(string, string)>,
                   found: seq<(nat, nat)>)
    requires AdvancesWithin(address, |s|) && AdvancesWithin(port, |s|) && at.0 <= at.1 <= |s|
    requires forall k :: 0 <= k < |found| ==> found[k].0 <= found[k].1 <= |s|
    requires Paired(address, port, s, out, found) && Token(address, port, s, at).Some?
    ensures Paired(address, port, s, [Token(address, port, s, at).value] + out, [at] + found)
  {
    var all := [at] + found;
    assert forall k :: 0 < k < |all| ==> all[k] == found[k - 1];
  }

  lemma FoundFirst(address: Matches, port: Matches, s: string, i: nat)
    requires i <= |s| && AdvancesWithin(address, |s|) && AdvancesWithin(port, |s|)
    requires address(i).Some? && Follow(address, port, s, address(i).value).Some?
    ensures var (end, at) := (address(i).value, (i, address(i).value));
            && Found(address, |s|, i) == [at] + Found(address, |s|, end)
            && Scan(address, port, s, i) == [Token(address, port, s, at).value] + Scan(address, port, s, end)
  {
  }

  /**
   * The k-th pair emitted is the k-th address found, with its token. Only the last address can be
   * dropped, and it is exactly when neither an address nor a port follows it.
   */
  lemma {:induction false} OnlyTheLastIsDropped(address: Matches, port: Matches, s: string, i: nat)
    requires i <= |s| && AdvancesWithin(address, |s|) && AdvancesWithin(port, |s|)
    ensures var (out, found) := (Scan(address, port, s, i), Found(address, |s|, i));
            && |out| <= |found| <= |out| + 1
            && (forall k :: 0 <= k < |out| ==> Token(address, port, s, found[k]) == Some(out[k]))
            && (|out| < |found| <==> found != [] && Token(address, port, s, found[|found| - 1]).None?)
    decreases |s| - i
  {
    if address(i).Some? {
      var end := address(i).value;
      if Follow(address, port, s, end).None? {
        NothingFollows(address, port, s, end);
      } else {
        OnlyTheLastIsDropped(address, port, s, end);
        FoundFirst(address, port, s, i);
        PairedCons(address, port, s, (i, end), Scan(address, port, s, end), Found(address, |s|, end));
      }
    } else if i < |s| {
      OnlyTheLastIsDropped(address, port, s, i + 1);
    }
  }

  // ----- reading back a written list -----

  /** One `ip:port` line; octets may have leading zeros. */
  datatype Entry = Entry(a: string, b: string, c: string, d: string, port: string)
  {
    function Ip(): string { Dotted(a, b, c, d) }

    predicate Written()
    {
      && IsOctet(a) && IsOctet(b) && IsOctet(c) && IsOctet(d)
      && port != "" && AllDigits(port)
    }

    function Line(): string { Ip() + (":" + port) }

    function Pair(): (string, string) { (Ip(), port) }
  }

  predicate AllWritten(entries: seq<Entry>)
  {
    forall i :: 0 <= i < |entries| ==> entries[i].Written()
  }

  function Render(entries: seq<Entry>): string
  {
    if entries == [] then "" else entries[0].Line() + "\n" + Render(entries[1..])
  }

  function Pairs(entries: seq<Entry>): seq<(string, string)>
  {
    seq(|entries|, i requires 0 <= i < |entries| => entries[i].Pair())
  }

  /** Digits that no dot ends do not begin an address. */
  lemma NoAddress(s: string, i: nat, c: nat, nd: char -> bool)
    requires i <= c <= |s| && (forall k :: i <= k < c ==> '0' <= s[k] <= '9')
    requires c < |s| ==> !DigitAt(s, c, nd) && s[c] != '.'
    ensures Matcher(IPV4, s, nd)(i).None?
  {
    forall d | i < d < |s| && DigitsIn(s, i, d, nd) ensures s[d] != '.' {
      assert d <= c;
    }
    var ends := Ends(IPV4, s, i, nd);
    assert ends != [] ==> ends[0] in ends;
    forall e | e in ends ensures false {
      AddressShape(s, i, nd, e);
    }
  }

  lemma {:induction false} RunIs(s: string, i: nat, n: nat, max: nat, nd: char -> bool)
    requires i + n <= |s| && n <= max && DigitsIn(s, i, i + n, nd) && !DigitAt(s, i + n, nd)
    ensures Run(s, i, max, nd) == n
    decreases n
  {
    if n != 0 {
      assert DigitAt(s, i, nd);
      RunIs(s, i + 1, n - 1, max - 1, nd);
    }
  }

  lemma {:induction false} SkipTo(address: Matches, port: Matches, s: string, i: nat, j: nat)
    requires i <= j <= |s| && AdvancesWithin(address, |s|) && AdvancesWithin(port, |s|)
    requires forall k: nat :: i <= k < j ==> address(k).None?
    ensures Scan(address, port, s, i) == Scan(address, port, s, j)
    ensures FindAt(address, |s|, i) == FindAt(address, |s|, j)
    decreases j - i
  {
    if i < j { SkipTo(address, port, s, i + 1, j); }
  }

  /** An entry stands in a text: its address, its colon, and its port up to `end`. */
  predicate Stands(s: string, i: nat, e: Entry, end: nat)
  {
    var colon := i + |e.Ip()|;
    && colon < end <= |s| && s[i..colon] == e.Ip() && s[colon] == ':' && s[colon + 1..end] == e.port
    && (forall k :: colon < k < end ==> '0' <= s[k] <= '9')
    && (end < |s| ==> s[end] == '\n')
  }

  lemma LineStands(s: string, i: nat, e: Entry, end: nat)
    requires e.Written() && i <= end == i + |e.Line()| <= |s| && s[i..end] == e.Line()
    requires end < |s| ==> s[end] == '\n'
    ensures Stands(s, i, e, end)
  {
    var colon := i + |e.Ip()|;
    StandsSplit(s, i, e.Ip(), ":" + e.port);
    StandsSplit(s, colon, ":", e.port);
    assert s[colon] == s[colon..colon + 1][0] == ':';
    forall k | colon < k < end ensures '0' <= s[k] <= '9' {
      assert s[k] == s[colon + 1..end][k - colon - 1] == e.port[k - colon - 1];
    }
  }

  lemma AddressStands(s: string, i: nat, e: Entry, end: nat, nd: char -> bool)
    requires e.Written() && Stands(s, i, e, end)
    ensures Matcher(IPV4, s, nd)(i) == Some(i + |e.Ip()|)
    ensures forall k: nat :: i + |e.Ip()| <= k <= end ==> Matcher(IPV4, s, nd)(k).None?
  {
    var colon := i + |e.Ip()|;
    AddressMatched(s, i, e.a, e.b, e.c, e.d, nd);
    forall k: nat | colon <= k <= end ensures Matcher(IPV4, s, nd)(k).None? {
      NoAddress(s, k, if k == colon then k else end, nd);
    }
  }

  lemma PortStands(s: string, colon: nat, n: nat, nd: char -> bool)
    requires colon + 1 + n <= |s| && s[colon] == ':' && 2 <= n <= 5
    requires (forall k :: colon < k <= colon + n ==> '0' <= s[k] <= '9') && !DigitAt(s, colon + 1 + n, nd)
    ensures Matcher(PORT, s, nd)(colon).None?
    ensures Matcher(PORT, s, nd)(colon + 1) == Some(colon + 1 + n)
  {
    PortMatched(s, colon, nd);
    RunIs(s, colon, 0, 5, nd);
    PortMatched(s, colon + 1, nd);
    RunIs(s, colon + 1, n, 5, nd);
  }

  lemma EntryScanned(s: string, i: nat, e: Entry, end: nat, nd: char -> bool)
    requires e.Written() && 2 <= |e.port| <= 5 && Stands(s, i, e, end) && end < |s|
    requires AdvancesWithin(Matcher(IPV4, s, nd), |s|) && AdvancesWithin(Matcher(PORT, s, nd), |s|)
    ensures Scan(Matcher(IPV4, s, nd), Matcher(PORT, s, nd), s, i)
            == [e.Pair()] + Scan(Matcher(IPV4, s, nd), Matcher(PORT, s, nd), s, end + 1)
  {
    AddressStands(s, i, e, end, nd);
    PortStands(s, i + |e.Ip()|, |e.port|, nd);
    PairScanned(Matcher(IPV4, s, nd), Matcher(PORT, s, nd), s, i, i + |e.Ip()|, end);
  }

  /** An address, one character, a port, and one more character. */
  lemma PairScanned(address: Matches, port: Matches, s: string, i: nat, colon: nat, end: nat)
    requires i < colon < end < |s| && AdvancesWithin(address, |s|) && AdvancesWithin(port, |s|)
    requires address(i) == Some(colon) && port(colon).None? && port(colon + 1) == Some(end)
    requires forall k: nat :: colon <= k <= end ==> address(k).None?
    ensures Scan(address, port, s, i) == [(s[i..colon], s[colon + 1..end])] + Scan(address, port, s, end + 1)
  {
    assert Follow(address, port, s, colon) == Follow(address, port, s, colon + 1) == Some(s[colon + 1..end]);
    SkipTo(address, port, s, colon, end + 1);
  }

  lemma FirstLine(s: string, i: nat, line: string, rest: string)
    requires i <= |s| && s[i..] == line + "\n" + rest
    ensures var end := i + |line|;
            end < |s| && s[i..end] == line && s[end] == '\n' && s[end + 1..] == rest
  {
    var (t, end) := (s[i..], i + |line|);
    assert t[..|line|] == line && t[|line|] == '\n' && t[|line| + 1..] == rest;
    assert s[i..end] == t[..|line|] && s[end] == t[|line|] && s[end + 1..] == t[|line| + 1..];
  }

  lemma FirstEntry(entries: seq<Entry>)
    requires entries != []
    ensures Pairs(entries) == [entries[0].Pair()] + Pairs(entries[1..])
    ensures Render(entries) == entries[0].Line() + "\n" + Render(entries[1..])
  {
  }

  /** Every entry is written, with a port the pattern can read. */
  predicate Readable(entries: seq<Entry>)
  {
    entries == [] || (entries[0].Written() && 2 <= |entries[0].port| <= 5 && Readable(entries[1..]))
  }

  lemma {:induction false} AllReadable(entries: seq<Entry>)
    requires AllWritten(entries) && (forall k :: 0 <= k < |entries| ==> 2 <= |entries[k].port| <= 5)
    ensures Readable(entries)
  {
    if entries != [] {
      assert forall k :: 0 <= k < |entries[1..]| ==> entries[1..][k] == entries[k + 1];
      AllReadable(entries[1..]);
    }
  }

  /** The scan of a written list emits its first entry and goes on with the rest. */
  lemma ScanFirst(s: string, i: nat, entries: seq<Entry>, nd: char -> bool)
    requires entries != [] && Readable(entries) && i <= |s| && s[i..] == Render(entries)
    requires AdvancesWithin(Matcher(IPV4, s, nd), |s|) && AdvancesWithin(Matcher(PORT, s, nd), |s|)
    ensures var next := i + |entries[0].Line()| + 1;
            && next <= |s| && s[next..] == Render(entries[1..])
            && Scan(Matcher(IPV4, s, nd), Matcher(PORT, s, nd), s, i)
               == [entries[0].Pair()] + Scan(Matcher(IPV4, s, nd), Matcher(PORT, s, nd), s, next)
  {
    var (e, rest) := (entries[0], entries[1..]);
    FirstEntry(entries);
    FirstLine(s, i, e.Line(), Render(rest));
    LineStands(s, i, e, i + |e.Line()|);
    EntryScanned(s, i, e, i + |e.Line()|, nd);
  }

  lemma ScanEnd(address: Matches, port: Matches, s: string)
    requires AdvancesWithin(address, |s|) && AdvancesWithin(port, |s|) && address(|s|).None?
    ensures Scan(address, port, s, |s|) == []
  {
  }

  lemma {:induction false} ScanRendered(s: string, i: nat, entries: seq<Entry>, nd: char -> bool)
    requires Readable(entries) && i <= |s| && s[i..] == Render(entries)
    requires AdvancesWithin(Matcher(IPV4, s, nd), |s|) && AdvancesWithin(Matcher(PORT, s, nd), |s|)
    ensures Scan(Matcher(IPV4, s, nd), Matcher(PORT, s, nd), s, i) == Pairs(entries)
    decreases |entries|
  {
    if entries == [] {
      assert i == |s|;
      NoAddress(s, i, i, nd);
      ScanEnd(Matcher(IPV4, s, nd), Matcher(PORT, s, nd), s);
    } else {
      ScanFirst(s, i, entries, nd);
      ScanRendered(s, i + |entries[0].Line()| + 1, entries[1..], nd);
      FirstEntry(entries);
    }
  }

  lemma GlobalForces(entries: seq<Entry>, nd: char -> bool, k: nat)
    requires k < |entries| && entries[k].Written()
    requires GlobalPairs(Render(entries), nd) == Pairs(entries)
    ensures 2 <= |entries[k].port| <= 5
  {
    assert Pairs(entries)[k].1 == entries[k].port;
    GlobalShape(Render(entries), nd, k);
  }

  /**
   * The whole-text scanner reads a written list back exactly when every port has two to five
   * digits.
   */
  lemma GlobalReadsBack(entries: seq<Entry>, nd: char -> bool)
    requires AllWritten(entries)
    ensures GlobalPairs(Render(entries), nd) == Pairs(entries)
      <==> forall k :: 0 <= k < |entries| ==> 2 <= |entries[k].port| <= 5
  {
    var text := Render(entries);
    if forall k :: 0 <= k < |entries| ==> 2 <= |entries[k].port| <= 5 {
      BothAdvance(text, nd);
      AllReadable(entries);
      assert text[0..] == text;
      ScanRendered(text, 0, entries, nd);
    }
    if GlobalPairs(text, nd) == Pairs(entries) {
      forall k | 0 <= k < |entries| ensures 2 <= |entries[k].port| <= 5 {
        GlobalForces(entries, nd, k);
      }
    }
  }

  // ----- the same for the line scanner -----

  lemma {:induction false} SplitOff(line: string, rest: string)
    requires '\n' !in line
    ensures SplitLines(line + "\n" + rest) == [line] + SplitLines(rest)
  {
    var text := line + "\n" + rest;
    if line == "" {
      assert text[1..] == rest;
    } else {
      assert text[1..] == line[1..] + "\n" + rest;
      SplitOff(line[1..], rest);
      assert [line[0]] + line[1..] == line;
    }
  }

  function LinesOf(entries: seq<Entry>): seq<string>
  {
    seq(|entries|, i requires 0 <= i < |entries| => entries[i].Line())
  }

  lemma {:induction false} SplitRendered(entries: seq<Entry>)
    requires AllWritten(entries)
    ensures SplitLines(Render(entries)) == LinesOf(entries) + [""]
  {
    if entries != [] {
      var e := entries[0];
      assert '\n' !in e.Line() by { OneLine(e); }
      SplitOff(e.Line(), Render(entries[1..]));
      SplitRendered(entries[1..]);
      assert LinesOf(entries) == [e.Line()] + LinesOf(entries[1..]);
    }
  }

  lemma OneLine(e: Entry)
    requires e.Written()
    ensures '\n' !in e.Line()
  {
    assert '\n' !in e.port;
    assert '\n' !in e.a && '\n' !in e.b && '\n' !in e.c && '\n' !in e.d;
  }

  lemma LineShape(line: string, nd: char -> bool)
    ensures LinePair(line, nd).Some? ==> PortShaped(LinePair(line, nd).value.1, nd)
  {
    BothAdvance(line, nd);
    var ip := FindAt(Matcher(IPV4, line, nd), |line|, 0);
    if ip.Some? {
      var tail := line[ip.value.1..];
      BothAdvance(tail, nd);
      PortShape(tail, 0, nd);
    }
  }

  lemma {:induction false} PortShape(s: string, i: nat, nd: char -> bool)
    requires i <= |s| && AdvancesWithin(Matcher(PORT, s, nd), |s|)
    ensures var m := FindAt(Matcher(PORT, s, nd), |s|, i);
            m.Some? ==> PortShaped(s[m.value.0..m.value.1], nd)
    decreases |s| - i
  {
    var port := Matcher(PORT, s, nd)(i);
    PatternsAdvance(s, nd, i);
    if port.Some? {
      SliceDigits(s, i, port.value, nd);
    } else if i < |s| {
      PortShape(s, i + 1, nd);
    }
  }

  lemma LineRead(e: Entry, nd: char -> bool)
    requires e.Written() && 2 <= |e.port| <= 5
    ensures LinePair(e.Line(), nd) == Some(e.Pair())
  {
    var (line, colon) := (e.Line(), |e.Ip()|);
    BothAdvance(line, nd);
    assert line[0..|line|] == line;
    LineStands(line, 0, e, |line|);
    AddressStands(line, 0, e, |line|, nd);
    assert line[colon..] == ":" + e.port && line[0..colon] == e.Ip();
    TailRead(e.port, nd);
  }

  lemma ColonDigits(port: string, nd: char -> bool)
    requires AllDigits(port)
    ensures var tail := ":" + port;
            && |tail| == 1 + |port| && tail[0] == ':' && tail[1..] == port && tail[1..|port| + 1] == port
            && (forall k :: 0 < k <= |port| ==> '0' <= tail[k] <= '9') && !DigitAt(tail, 1 + |port|, nd)
  {
  }

  lemma FoundSecond(m: Matches, n: nat, end: nat)
    requires 1 <= n && AdvancesWithin(m, n) && m(0).None? && m(1) == Some(end)
    ensures FindAt(m, n, 0) == Some((1, end))
  {
    assert FindAt(m, n, 0) == FindAt(m, n, 1);
  }

  /** A colon and a written port up to the end of the text. */
  lemma ColonPortRead(s: string, n: nat, nd: char -> bool)
    requires |s| == n + 1 && s[0] == ':' && 2 <= n <= 5
    requires (forall k :: 0 < k <= n ==> '0' <= s[k] <= '9') && !DigitAt(s, 1 + n, nd)
    ensures AdvancesWithin(Matcher(PORT, s, nd), n + 1)
    ensures FindAt(Matcher(PORT, s, nd), n + 1, 0) == Some((1, n + 1))
  {
    BothAdvance(s, nd);
    PortStands(s, 0, n, nd);
    FoundSecond(Matcher(PORT, s, nd), n + 1, n + 1);
  }

  /** The part of a line after its address. */
  lemma TailRead(port: string, nd: char -> bool)
    requires AllDigits(port) && 2 <= |port| <= 5
    ensures AdvancesWithin(Matcher(PORT, ":" + port, nd), |port| + 1)
    ensures FindAt(Matcher(PORT, ":" + port, nd), |port| + 1, 0) == Some((1, |port| + 1))
    ensures (":" + port)[1..|port| + 1] == port
  {
    ColonDigits(port, nd);
    ColonPortRead(":" + port, |port|, nd);
  }

  lemma LinePairsAppend(lines: seq<string>, last: string, nd: char -> bool)
    ensures LinePairs(lines + [last], nd)
            == LinePairs(lines, nd) + (if LinePair(last, nd).Some? then [LinePair(last, nd).value] else [])
  {
    assert (lines + [last])[..|lines|] == lines;
  }

  lemma LinesAppend(entries: seq<Entry>, e: Entry)
    ensures LinesOf(entries + [e]) == LinesOf(entries) + [e.Line()]
    ensures Pairs(entries + [e]) == Pairs(entries) + [e.Pair()]
  {
  }

  lemma {:induction false} LinesRead(entries: seq<Entry>, nd: char -> bool)
    requires AllWritten(entries) && (forall k :: 0 <= k < |entries| ==> 2 <= |entries[k].port| <= 5)
    ensures LinePairs(LinesOf(entries), nd) == Pairs(entries)
  {
    if entries != [] {
      var (init, e) := (entries[..|entries| - 1], entries[|entries| - 1]);
      LinesRead(init, nd);
      LineRead(e, nd);
      LinesAppend(init, e);
      assert init + [e] == entries;
      LinePairsAppend(LinesOf(init), e.Line(), nd);
    }
  }

  lemma {:induction false} LinePairsShape(lines: seq<string>, nd: char -> bool, k: nat)
    requires k < |LinePairs(lines, nd)|
    ensures PortShaped(LinePairs(lines, nd)[k].1, nd)
  {
    var init := lines[..|lines| - 1];
    if k < |LinePairs(init, nd)| {
      LinePairsShape(init, nd, k);
    } else {
      LineShape(lines[|lines| - 1], nd);
    }
  }

  /** So does the line scanner, under the same condition. */
  lemma LinesReadBack(entries: seq<Entry>, nd: char -> bool)
    requires AllWritten(entries)
    ensures LinePairs(SplitLines(Render(entries)), nd) == Pairs(entries)
      <==> forall k :: 0 <= k < |entries| ==> 2 <= |entries[k].port| <= 5
  {
    var lines := SplitLines(Render(entries));
    if forall k :: 0 <= k < |entries| ==> 2 <= |entries[k].port| <= 5 {
      SplitRendered(entries);
      LinesRead(entries, nd);
      LinePairsAppend(LinesOf(entries), "", nd);
      EmptyLine(nd);
      assert Pairs(entries) + [] == Pairs(entries);
    }
    if LinePairs(lines, nd) == Pairs(entries) {
      forall k | 0 <= k < |entries| ensures 2 <= |entries[k].port| <= 5 {
        assert Pairs(entries)[k].1 == entries[k].port;
        LinePairsShape(lines, nd, k);
      }
    }
  }

  lemma EmptyLine(nd: char -> bool)
    ensures LinePair("", nd) == None
  {
    BothAdvance("", nd);
    NoAddress("", 0, 0, nd);
  }

  /** Printed octets and ports are written ones; a port has two digits from 10 on. */
  lemma PrintedEntry(a: nat, b: nat, c: nat, d: nat, port: Port)
    requires a <= 255 && b <= 255 && c <= 255 && d <= 255
    ensures var e := Entry(Show(a), Show(b), Show(c), Show(d), Show(port));
            e.Written() && (2 <= |e.port| <= 5 <==> port >= 10)
  {
    PrintedOctet(a);
    PrintedOctet(b);
    PrintedOctet(c);
    PrintedOctet(d);
    PrintedPort(port);
  }

  lemma PrintedPort(port: Port)
    ensures 2 <= |Show(port)| <= 5 <==> port >= 10
  {
    ShowWidth(port);
  }

  lemma PrintedOctet(n: nat)
    requires n <= 255
    ensures IsOctet(Show(n))
  {
    ShowWidth(n);
    if n >= 100 {
      assert Show(n) == Show(n / 10) + [(n % 10 + '0' as int) as char];
      assert Show(n / 10) == Show(n / 100) + [(n / 10 % 10 + '0' as int) as char];
    }
  }
}
