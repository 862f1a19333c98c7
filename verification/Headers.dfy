/** `src/server.rs`: reading, stripping and injecting header lines in a buffered HTTP head. */
module Headers {
  import opened Prelude

  type Bytes = seq<byte>

  const CR: byte := 13
  const LF: byte := 10
  const CRLF: Bytes := [13, 10]

  /** The bytes of an ASCII text. */
  function Text(s: string): Bytes
  {
    seq(|s|, i requires 0 <= i < |s| => (s[i] as int) % 256)
  }

  function AsText(s: Bytes): string
  {
    seq(|s|, i requires 0 <= i < |s| => s[i] as char)
  }

  function LowerByte(b: byte): byte
  {
    if 65 <= b <= 90 then b + 32 else b
  }

  function Lower(s: Bytes): (r: Bytes)
    ensures |r| == |s|
  {
    seq(|s|, i requires 0 <= i < |s| => LowerByte(s[i]))
  }

  /** A header name: no line terminator in it. */
  predicate IsName(name: Bytes)
  {
    CR !in name && LF !in name
  }

  /** `name:` stands at position `j`, ignoring ASCII case. */
  predicate FieldAt(s: Bytes, j: nat, name: Bytes)
  {
    && j + |name| < |s|
    && Lower(s[j..j + |name|]) == Lower(name)
    && s[j + |name|] == COLON
  }

  predicate CrlfStarts(s: Bytes, i: nat)
  {
    i + 1 < |s| && s[i] == CR && s[i + 1] == LF
  }

  /** The first CRLF, or the length when there is none. */
  function CrlfAt(s: Bytes): (i: nat)
    ensures i <= |s|
    ensures i < |s| ==> CrlfStarts(s, i)
    ensures forall j: nat :: j < i ==> !CrlfStarts(s, j)
  {
    if |s| < 2 then |s|
    else if s[0] == CR && s[1] == LF then 0
    else
      var k := CrlfAt(s[1..]);
      assert forall j: nat :: 1 <= j ==> (CrlfStarts(s, j) <==> CrlfStarts(s[1..], j - 1));
      1 + k
  }

  // ----- the functions of the source -----

  /** What the strip loop keeps of the line that `rest` starts with; the first line is never a header. */
  function Kept(rest: Bytes, name: Bytes, first: bool): Bytes
    requires CrlfAt(rest) < |rest|
  {
    if !first && FieldAt(rest[..CrlfAt(rest)], 0, name) then [] else rest[..CrlfAt(rest) + 2]
  }

  /** The strip loop from `rest` on. */
  function Strip(rest: Bytes, name: Bytes, first: bool): Bytes
    decreases |rest|
  {
    var pos := CrlfAt(rest);
    if pos == |rest| then rest else Kept(rest, name, first) + Strip(rest[pos + 2..], name, false)
  }

  /** What the loop still owes: quantified, so that the loop itself never unfolds `Strip`. */
  ghost predicate Owes(out: Bytes, rest: Bytes, name: Bytes, first: bool, whole: Bytes)
  {
    forall text: Bytes | text == rest :: out + Strip(text, name, first) == whole
  }

  method StripHeader(raw: Bytes, name: Bytes) returns (out: Bytes)
    ensures out == Strip(raw, name, true)
  {
    out := [];
    var rest := raw;
    var first := true;
    ghost var whole := Strip(raw, name, true);
    assert out + whole == whole;
    while CrlfAt(rest) < |rest|
      invariant Owes(out, rest, name, first, whole)
      decreases |rest|
    {
      var pos := CrlfAt(rest);
      var advance := pos + 2;
      var isTarget := !first && FieldAt(rest[..pos], 0, name);
      StripStep(out, rest, name, first, isTarget, whole);
      if !isTarget {
        out := out + rest[..advance];
      }
      rest := rest[advance..];
      first := false;
    }
    StripEnd(out, rest, name, first, whole);
    out := out + rest;
  }

  lemma StripStep(out: Bytes, rest: Bytes, name: Bytes, first: bool, isTarget: bool, whole: Bytes)
    requires CrlfAt(rest) < |rest| && Owes(out, rest, name, first, whole)
    requires isTarget == (!first && FieldAt(rest[..CrlfAt(rest)], 0, name))
    ensures Owes(if isTarget then out else out + rest[..CrlfAt(rest) + 2], rest[CrlfAt(rest) + 2..], name, false, whole)
  {
    Regroup(out, Kept(rest, name, first), Strip(rest[CrlfAt(rest) + 2..], name, false));
    assert out + [] == out;
    assert out + Strip(rest, name, first) == whole;
  }

  lemma StripEnd(out: Bytes, rest: Bytes, name: Bytes, first: bool, whole: Bytes)
    requires CrlfAt(rest) == |rest| && Owes(out, rest, name, first, whole)
    ensures out + rest == whole
  {
    assert out + Strip(rest, name, first) == whole;
  }

  /** Insert a header line after the first CRLF. */
  function InjectHeader(raw: Bytes, headerLine: Bytes): Bytes
  {
    var pos := CrlfAt(raw);
    if pos == |raw| then raw else raw[..pos + 2] + headerLine + raw[pos + 2..]
  }

  /** The LF-separated lines after the first are searched for the name: the start of the match. */
  function FindField(raw: Bytes, name: Bytes, from: nat): (r: Option<nat>)
    requires 1 <= from
    ensures r.Some? ==> from <= r.value < |raw| && raw[r.value - 1] == LF && FieldAt(raw, r.value, name)
    ensures r.Some? ==> forall j :: from <= j < r.value ==> !(raw[j - 1] == LF && FieldAt(raw, j, name))
    ensures r.None? ==> forall j :: from <= j < |raw| ==> !(raw[j - 1] == LF && FieldAt(raw, j, name))
    decreases |raw| - from
  {
    if from >= |raw| then None
    else if raw[from - 1] == LF && FieldAt(raw, from, name) then Some(from)
    else FindField(raw, name, from + 1)
  }

  predicate IsSpace(b: byte)
  {
    b == 32 || 9 <= b <= 13
  }

  function TrimStart(s: Bytes): Bytes
  {
    if s != [] && IsSpace(s[0]) then TrimStart(s[1..]) else s
  }

  function TrimEnd(s: Bytes): Bytes
  {
    if s != [] && IsSpace(s[|s| - 1]) then TrimEnd(s[..|s| - 1]) else s
  }

  /** The text up to the next LF. */
  function LineFrom(s: Bytes): Bytes
  {
    if s == [] || s[0] == LF then [] else [s[0]] + LineFrom(s[1..])
  }

  function Trim(s: Bytes): Bytes { TrimEnd(TrimStart(s)) }

  function HeaderValue(raw: Bytes, name: Bytes): Option<Bytes>
  {
    match FindField(raw, name, 1)
    case None => None
    case Some(j) => Some(Trim(LineFrom(raw[j + |name| + 1..])))
  }

  // ----- the lines of a head -----

  /** The CRLF-terminated lines, without their terminators. */
  function Lines(s: Bytes): seq<Bytes>
    decreases |s|
  {
    var pos := CrlfAt(s);
    if pos == |s| then [] else [s[..pos]] + Lines(s[pos + 2..])
  }

  /** What follows the last CRLF. */
  function Tail(s: Bytes): Bytes
    decreases |s|
  {
    var pos := CrlfAt(s);
    if pos == |s| then s else Tail(s[pos + 2..])
  }

  /** The lines a strip should leave: the first one, and every one that is not the named header. */
  function Keep(lines: seq<Bytes>, name: Bytes, first: bool): seq<Bytes>
  {
    if lines == [] then []
    else (if !first && FieldAt(lines[0], 0, name) then [] else [lines[0]]) + Keep(lines[1..], name, false)
  }

  lemma CrlfAtUnique(s: Bytes, i: nat)
    requires i <= |s| && (i < |s| ==> CrlfStarts(s, i))
    requires forall j: nat :: j < i ==> !CrlfStarts(s, j)
    ensures CrlfAt(s) == i
  {
    var k := CrlfAt(s);
    assert k < |s| ==> CrlfStarts(s, k);
    assert i < |s| ==> k <= i;
  }

  /** A line without a CRLF in it is read back as one line. */
  lemma LineThenRest(line: Bytes, rest: Bytes)
    requires CrlfAt(line) == |line|
    ensures var s := line + CRLF + rest;
            CrlfAt(s) == |line| && Lines(s) == [line] + Lines(rest) && Tail(s) == Tail(rest)
  {
    var s := line + CRLF + rest;
    assert s[|line|] == CR && s[|line| + 1] == LF;
    forall j: nat | j < |line|
      ensures !CrlfStarts(s, j)
    {
      assert !CrlfStarts(line, j);
      assert s[j] == line[j] && (j + 1 < |line| ==> s[j + 1] == line[j + 1]);
    }
    CrlfAtUnique(s, |line|);
    assert s[..|line|] == line && s[|line| + 2..] == rest;
  }

  lemma PrefixIsClean(s: Bytes, pos: nat)
    requires pos <= |s| && forall j: nat :: j < pos ==> !CrlfStarts(s, j)
    ensures CrlfAt(s[..pos]) == pos
  {
    var line := s[..pos];
    forall j: nat | j < pos
      ensures !CrlfStarts(line, j)
    {
      assert !CrlfStarts(s, j);
      assert j + 1 < pos ==> line[j] == s[j] && line[j + 1] == s[j + 1];
    }
    CrlfAtUnique(line, pos);
  }

  lemma CutAtCrlf(s: Bytes, pos: nat)
    requires CrlfStarts(s, pos)
    ensures s == s[..pos] + CRLF + s[pos + 2..]
  {
    assert s[pos..pos + 2] == CRLF;
  }

  lemma PrefixIsLine(s: Bytes)
    requires CrlfAt(s) < |s|
    ensures CrlfAt(s[..CrlfAt(s)]) == CrlfAt(s)
    ensures s == s[..CrlfAt(s)] + CRLF + s[CrlfAt(s) + 2..]
  {
    PrefixIsClean(s, CrlfAt(s));
    CutAtCrlf(s, CrlfAt(s));
  }

  /** Stripping is exactly keeping the other lines, in order, with the tail untouched. */
  lemma {:induction false} StripKeepsLines(raw: Bytes, name: Bytes, first: bool)
    ensures Lines(Strip(raw, name, first)) == Keep(Lines(raw), name, first)
    ensures Tail(Strip(raw, name, first)) == Tail(raw)
    decreases |raw|
  {
    var pos := CrlfAt(raw);
    if pos < |raw| {
      var rest := raw[pos + 2..];
      StripKeepsLines(rest, name, false);
      PrefixIsLine(raw);
      assert Lines(raw)[1..] == Lines(rest);
      if first || !FieldAt(raw[..pos], 0, name) {
        assert raw[..pos + 2] == raw[..pos] + CRLF;
        LineThenRest(raw[..pos], Strip(rest, name, false));
      } else {
        assert Strip(raw, name, first) == Strip(rest, name, false);
      }
    }
  }

  lemma {:induction false} KeepIdempotent(lines: seq<Bytes>, name: Bytes, first: bool)
    ensures first && lines != [] ==> Keep(lines, name, first) != [] && Keep(lines, name, first)[0] == lines[0]
    ensures forall k :: (if first then 1 else 0) <= k < |Keep(lines, name, first)| ==>
                          !FieldAt(Keep(lines, name, first)[k], 0, name)
    ensures Keep(Keep(lines, name, first), name, first) == Keep(lines, name, first)
  {
    if lines != [] {
      KeepIdempotent(lines[1..], name, false);
      var tail := Keep(lines[1..], name, false);
      var all := Keep(lines, name, first);
      if first || !FieldAt(lines[0], 0, name) {
        assert all == [lines[0]] + tail && all[1..] == tail;
      } else {
        assert all == tail;
      }
    }
  }

  /** The bytes are determined by the lines and the tail. */
  lemma {:induction false} SameLinesSameBytes(a: Bytes, b: Bytes)
    requires Lines(a) == Lines(b) && Tail(a) == Tail(b)
    ensures a == b
    decreases |a|
  {
    var (i, j) := (CrlfAt(a), CrlfAt(b));
    if i < |a| && j < |b| {
      PrefixIsLine(a);
      PrefixIsLine(b);
      assert Lines(a)[0] == Lines(b)[0] && Lines(a)[1..] == Lines(b)[1..];
      assert Lines(a[i + 2..]) == Lines(a)[1..] && Lines(b[j + 2..]) == Lines(b)[1..];
      SameLinesSameBytes(a[i + 2..], b[j + 2..]);
    } else {
      assert i < |a| ==> Lines(a) != [];
      assert j < |b| ==> Lines(b) != [];
    }
  }

  /** Stripping twice is stripping once. */
  lemma StripIdempotent(raw: Bytes, name: Bytes)
    ensures Strip(Strip(raw, name, true), name, true) == Strip(raw, name, true)
  {
    var once := Strip(raw, name, true);
    StripKeepsLines(raw, name, true);
    StripKeepsLines(once, name, true);
    KeepIdempotent(Lines(raw), name, true);
    SameLinesSameBytes(Strip(once, name, true), once);
  }

  /** What `relay` sends upstream: stripped, then given the upstream's own header if it has credentials. */
  function Sanitized(raw: Bytes, name: Bytes, credentials: Option<Bytes>): Bytes
  {
    match credentials
    case None => Strip(raw, name, true)
    case Some(value) => InjectHeader(Strip(raw, name, true), name + [COLON] + value + CRLF)
  }

  /** An injected header becomes the second line and moves nothing else. */
  lemma InjectedLines(raw: Bytes, header: Bytes)
    requires CrlfAt(raw) < |raw| && CrlfAt(header) == |header|
    ensures Lines(InjectHeader(raw, header + CRLF)) == [Lines(raw)[0]] + [header] + Lines(raw)[1..]
    ensures Tail(InjectHeader(raw, header + CRLF)) == Tail(raw)
  {
    var pos := CrlfAt(raw);
    var (line, rest) := (raw[..pos], raw[pos + 2..]);
    PrefixIsLine(raw);
    LineThenRest(header, rest);
    LineThenRest(line, header + CRLF + rest);
    InjectedBytes(line, header, rest);
    ListWithSecond(line, header, Lines(rest));
  }

  lemma InjectedBytes(line: Bytes, header: Bytes, rest: Bytes)
    requires CrlfAt(line + CRLF + rest) == |line|
    ensures InjectHeader(line + CRLF + rest, header + CRLF) == line + CRLF + (header + CRLF + rest)
  {
    var raw := line + CRLF + rest;
    CutBack(line + CRLF, rest);
    assert raw[..|line| + 2] == line + CRLF && raw[|line| + 2..] == rest;
    assert line + CRLF + (header + CRLF) + rest == line + CRLF + (header + CRLF + rest);
  }

  lemma ListWithSecond<T>(first: T, second: T, tail: seq<T>)
    ensures [first] + ([second] + tail) == [([first] + tail)[0]] + [second] + ([first] + tail)[1..]
  {
  }

  /**
   * What goes upstream: the request line unchanged, then that one header exactly when the upstream
   * has credentials, then no line with that name.
   */
  lemma SanitizedLines(raw: Bytes, name: Bytes, credentials: Option<Bytes>)
    requires Lines(raw) != []
    requires credentials.Some? ==> CrlfAt(name + [COLON] + credentials.value) == |name| + 1 + |credentials.value|
    ensures var sent := Sanitized(raw, name, credentials);
            var own := match credentials case None => [] case Some(value) => [name + [COLON] + value];
            var kept := Keep(Lines(raw), name, true);
            && Lines(sent) == [Lines(raw)[0]] + own + kept[1..]
            && Tail(sent) == Tail(raw)
            && forall k :: 1 <= k < |kept| ==> !FieldAt(kept[k], 0, name)
  {
    var stripped := Strip(raw, name, true);
    var kept := Keep(Lines(raw), name, true);
    StripKeepsLines(raw, name, true);
    KeepIdempotent(Lines(raw), name, true);
    assert kept != [] && kept[0] == Lines(raw)[0];
    if credentials.Some? {
      LinesMeanCrlf(stripped);
      InjectedLines(stripped, name + [COLON] + credentials.value);
    } else {
      assert [kept[0]] + [] + kept[1..] == kept;
    }
  }

  lemma LinesMeanCrlf(s: Bytes)
    requires Lines(s) != []
    ensures CrlfAt(s) < |s|
  {
  }

  // ----- does the client's secret survive? -----

  /** A line break that is not a CRLF stands inside the line, right before the named header. */
  predicate BareLfField(line: Bytes, name: Bytes)
  {
    exists j :: 1 <= j < |line| && line[j - 1] == LF && FieldAt(line, j, name)
  }

  predicate AnyBareLfField(lines: seq<Bytes>, name: Bytes)
  {
    exists k :: 0 <= k < |lines| && BareLfField(lines[k], name)
  }

  /** `header_value` finds something exactly when some LF is followed by the name and a colon. */
  predicate HasField(s: Bytes, name: Bytes)
  {
    exists j :: 1 <= j < |s| && s[j - 1] == LF && FieldAt(s, j, name)
  }

  lemma HeaderValueNoneIff(s: Bytes, name: Bytes)
    ensures HeaderValue(s, name).None? <==> !HasField(s, name)
  {
    var r := FindField(s, name, 1);
    if r.Some? { assert HasField(s, name); }
  }

  lemma FieldHasNoCr(s: Bytes, j: nat, name: Bytes)
    requires IsName(name) && FieldAt(s, j, name)
    ensures forall i :: j <= i <= j + |name| ==> s[i] != CR
  {
    var w := s[j..j + |name|];
    forall i | j <= i < j + |name|
      ensures s[i] != CR
    {
      assert w[i - j] == s[i];
      assert Lower(w)[i - j] == Lower(name)[i - j];
    }
  }

  /** A name, which has no CR, cannot reach past the end of the line it starts in. */
  lemma FieldStaysInLine(line: Bytes, rest: Bytes, name: Bytes, j: nat)
    requires IsName(name) && j <= |line|
    ensures FieldAt(line + CRLF + rest, j, name) <==> FieldAt(line, j, name)
  {
    var s := line + CRLF + rest;
    assert s[|line|] == CR;
    if FieldAt(s, j, name) {
      FieldHasNoCr(s, j, name);
    }
    if j + |name| < |line| {
      assert s[j..j + |name|] == line[j..j + |name|];
    }
  }

  lemma FieldInRest(line: Bytes, rest: Bytes, name: Bytes, j: nat)
    requires |line| + 2 <= j
    ensures FieldAt(line + CRLF + rest, j, name) <==> FieldAt(rest, j - |line| - 2, name)
  {
    var s := line + CRLF + rest;
    var k := j - |line| - 2;
    if j + |name| < |s| {
      assert s[j..j + |name|] == rest[k..k + |name|];
      assert s[j + |name|] == rest[k + |name|];
    }
  }

  lemma HasFieldFromParts(line: Bytes, rest: Bytes, name: Bytes)
    requires IsName(name)
    requires BareLfField(line, name) || FieldAt(rest, 0, name) || HasField(rest, name)
    ensures HasField(line + CRLF + rest, name)
  {
    var s := line + CRLF + rest;
    if BareLfField(line, name) {
      var j :| 1 <= j < |line| && line[j - 1] == LF && FieldAt(line, j, name);
      FieldStaysInLine(line, rest, name, j);
      assert s[j - 1] == LF;
    } else if FieldAt(rest, 0, name) {
      FieldInRest(line, rest, name, |line| + 2);
      assert s[|line| + 1] == LF;
    } else {
      var j :| 1 <= j < |rest| && rest[j - 1] == LF && FieldAt(rest, j, name);
      FieldInRest(line, rest, name, |line| + 2 + j);
      assert s[|line| + 1 + j] == LF;
    }
  }

  lemma HasFieldToParts(line: Bytes, rest: Bytes, name: Bytes, j: nat)
    requires IsName(name)
    requires var s := line + CRLF + rest; 1 <= j < |s| && s[j - 1] == LF && FieldAt(s, j, name)
    ensures BareLfField(line, name) || FieldAt(rest, 0, name) || HasField(rest, name)
  {
    var s := line + CRLF + rest;
    assert s[|line|] == CR;
    if j <= |line| {
      FieldStaysInLine(line, rest, name, j);
      assert s[j - 1] == line[j - 1];
    } else {
      assert j != |line| + 1;
      FieldInRest(line, rest, name, j);
      var k := j - |line| - 2;
      assert k > 0 ==> rest[k - 1] == s[j - 1];
    }
  }

  /** Where a head carries the field: inside its first line, at the head of the next one, or later. */
  lemma HasFieldSplit(line: Bytes, rest: Bytes, name: Bytes)
    requires IsName(name)
    ensures HasField(line + CRLF + rest, name)
      <==> BareLfField(line, name) || FieldAt(rest, 0, name) || HasField(rest, name)
  {
    var s := line + CRLF + rest;
    if BareLfField(line, name) || FieldAt(rest, 0, name) || HasField(rest, name) {
      HasFieldFromParts(line, rest, name);
    } else if HasField(s, name) {
      var j :| 1 <= j < |s| && s[j - 1] == LF && FieldAt(s, j, name);
      HasFieldToParts(line, rest, name, j);
    }
  }

  /** No line has the name at its head. */
  predicate NoneHeaded(lines: seq<Bytes>, name: Bytes)
  {
    forall k :: 0 <= k < |lines| ==> !FieldAt(lines[k], 0, name)
  }

  lemma AnySplit(line: Bytes, tail: seq<Bytes>, name: Bytes)
    ensures AnyBareLfField([line] + tail, name) <==> BareLfField(line, name) || AnyBareLfField(tail, name)
  {
    var lines := [line] + tail;
    if BareLfField(line, name) { assert BareLfField(lines[0], name); }
    if AnyBareLfField(tail, name) {
      var k :| 0 <= k < |tail| && BareLfField(tail[k], name);
      assert BareLfField(lines[k + 1], name);
    }
  }

  lemma NoneHeadedTail(tail: seq<Bytes>, name: Bytes)
    requires NoneHeaded(tail, name)
    ensures tail != [] ==> !FieldAt(tail[0], 0, name) && NoneHeaded(tail[1..], name)
  {
  }

  lemma {:induction false} HasFieldByLines(s: Bytes, name: Bytes)
    requires IsName(name) && Tail(s) == []
    requires Lines(s) != [] ==> NoneHeaded(Lines(s)[1..], name)
    ensures HasField(s, name) <==> AnyBareLfField(Lines(s), name)
    decreases |s|
  {
    var pos := CrlfAt(s);
    if pos < |s| {
      var (line, rest) := (s[..pos], s[pos + 2..]);
      PrefixIsLine(s);
      HasFieldSplit(line, rest, name);
      assert Lines(s)[1..] == Lines(rest);
      NoneHeadedTail(Lines(rest), name);
      HasFieldByLines(rest, name);
      FirstLineField(rest, name);
      AnySplit(line, Lines(rest), name);
    }
  }

  lemma FirstLineField(rest: Bytes, name: Bytes)
    requires IsName(name) && Tail(rest) == []
    requires Lines(rest) != [] ==> !FieldAt(Lines(rest)[0], 0, name)
    ensures !FieldAt(rest, 0, name)
  {
    var pos := CrlfAt(rest);
    if pos < |rest| {
      PrefixIsLine(rest);
      FieldStaysInLine(rest[..pos], rest[pos + 2..], name, 0);
    }
  }

  /**
   * The stripped head still shows the named header to an LF-splitting reader exactly when a line
   * that was kept holds it behind a bare LF.
   */
  lemma StrippedFieldHiddenIff(raw: Bytes, name: Bytes)
    requires IsName(name) && Tail(raw) == []
    ensures HeaderValue(Strip(raw, name, true), name).None?
      <==> !AnyBareLfField(Keep(Lines(raw), name, true), name)
  {
    var stripped := Strip(raw, name, true);
    StripKeepsLines(raw, name, true);
    KeepIdempotent(Lines(raw), name, true);
    HasFieldByLines(stripped, name);
    HeaderValueNoneIff(stripped, name);
  }

  predicate EveryLfFollowsCr(s: Bytes)
  {
    forall j :: 0 <= j < |s| && s[j] == LF ==> 0 < j && s[j - 1] == CR
  }

  lemma EveryLfTail(s: Bytes, n: nat)
    requires EveryLfFollowsCr(s) && 1 <= n <= |s| && s[n - 1] == LF
    ensures EveryLfFollowsCr(s[n..])
  {
    var rest := s[n..];
    forall j | 0 <= j < |rest| && rest[j] == LF ensures 0 < j && rest[j - 1] == CR {
      assert s[n + j] == LF;
      assert s[n + j - 1] == CR;
    }
  }

  lemma FirstLineHasNoLf(s: Bytes)
    requires EveryLfFollowsCr(s)
    ensures LF !in s[..CrlfAt(s)]
  {
    forall j | 0 <= j < CrlfAt(s) ensures s[j] != LF {
      if j > 0 { assert !CrlfStarts(s, j - 1); }
    }
  }

  lemma {:induction false} CleanLinesHaveNoLf(s: Bytes, k: nat)
    requires EveryLfFollowsCr(s) && k < |Lines(s)|
    ensures LF !in Lines(s)[k]
    decreases |s|
  {
    var pos := CrlfAt(s);
    if k == 0 {
      FirstLineHasNoLf(s);
    } else {
      EveryLfTail(s, pos + 2);
      CleanLinesHaveNoLf(s[pos + 2..], k - 1);
    }
  }

  lemma {:induction false} KeepIsSubset(lines: seq<Bytes>, name: Bytes, first: bool)
    ensures forall l :: l in Keep(lines, name, first) ==> l in lines
  {
    if lines != [] { KeepIsSubset(lines[1..], name, false); }
  }

  /** With CRLF line ends throughout, the client's secret never goes upstream. */
  lemma NoBareLfNoLeak(raw: Bytes, name: Bytes)
    requires IsName(name) && Tail(raw) == [] && EveryLfFollowsCr(raw)
    ensures HeaderValue(Strip(raw, name, true), name).None?
  {
    var kept := Keep(Lines(raw), name, true);
    forall k | 0 <= k < |kept|
      ensures !BareLfField(kept[k], name)
    {
      KeepIsSubset(Lines(raw), name, true);
      assert kept[k] in Lines(raw);
      var i :| 0 <= i < |Lines(raw)| && Lines(raw)[i] == kept[k];
      CleanLinesHaveNoLf(raw, i);
    }
    StrippedFieldHiddenIff(raw, name);
  }

  /** Otherwise it can: every head whose second line hides the header behind a bare LF leaks it. */
  lemma BareLfLeaks(requestLine: Bytes, line: Bytes, name: Bytes)
    requires IsName(name)
    requires CrlfAt(requestLine) == |requestLine| && CrlfAt(line) == |line|
    requires !FieldAt(line, 0, name) && BareLfField(line, name)
    ensures var raw := requestLine + CRLF + (line + CRLF + CRLF);
            Tail(raw) == [] && HeaderValue(Strip(raw, name, true), name).Some?
  {
    var raw := requestLine + CRLF + (line + CRLF + CRLF);
    BlankLine();
    LineThenRest(line, CRLF);
    LineThenRest(requestLine, line + CRLF + CRLF);
    var kept := Keep(Lines(raw), name, true);
    var after := Keep(Lines(raw)[1..], name, false);
    assert Lines(raw)[0] == requestLine && Lines(raw)[1] == line;
    assert kept == [requestLine] + after;
    assert Lines(raw)[1..][0] == line;
    assert after[0] == line;
    assert kept[1] == line;
    StrippedFieldHiddenIff(raw, name);
  }

  lemma BlankLine()
    ensures Lines(CRLF) == [[]] && Tail(CRLF) == []
  {
    var empty: Bytes := [];
    assert CrlfAt(empty) == 0 && Lines(empty) == [] && Tail(empty) == [];
    LineThenRest(empty, empty);
    assert empty + CRLF + empty == CRLF;
  }
}
