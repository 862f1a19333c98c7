/**
 * `src/negotiator.rs` and `src/server.rs`: the CONNECT request a negotiator prints, and the head a
 * server reads and parses. Text is its UTF-8 bytes.
 */
module Connect {
  import opened Prelude
  import opened Proxies
  import opened Headers
  import opened Decimal
  import Base64
  import Relay

  // ----- white space -----

  /**
   * The length of the white-space character at `i`, or 0: the Unicode White_Space set that
   * `split_whitespace` uses, in UTF-8.
   */
  function SpaceLen(s: Bytes, i: nat): (n: nat)
    ensures i <= |s| ==> i + n <= |s|
  {
    if i >= |s| then 0
    else if IsSpace(s[i]) then 1
    else if i + 1 < |s| && s[i] == 0xC2 && (s[i + 1] == 0x85 || s[i + 1] == 0xA0) then 2
    else if i + 2 < |s| && s[i] == 0xE1 && s[i + 1] == 0x9A && s[i + 2] == 0x80 then 3
    else if i + 2 < |s| && s[i] == 0xE2 && s[i + 1] == 0x80
            && (0x80 <= s[i + 2] <= 0x8A || s[i + 2] == 0xA8 || s[i + 2] == 0xA9 || s[i + 2] == 0xAF) then 3
    else if i + 2 < |s| && s[i] == 0xE2 && s[i + 1] == 0x81 && s[i + 2] == 0x9F then 3
    else if i + 2 < |s| && s[i] == 0xE3 && s[i + 1] == 0x80 && s[i + 2] == 0x80 then 3
    else 0
  }

  predicate NoSpace(s: Bytes)
  {
    forall i :: 0 <= i < |s| ==> SpaceLen(s, i) == 0
  }

  function WordStart(s: Bytes, i: nat): (r: nat)
    requires i <= |s|
    ensures i <= r <= |s|
    decreases |s| - i
  {
    if SpaceLen(s, i) > 0 then WordStart(s, i + SpaceLen(s, i)) else i
  }

  function WordEnd(s: Bytes, i: nat): (r: nat)
    requires i <= |s|
    ensures i <= r <= |s|
    ensures forall k :: i <= k < r ==> SpaceLen(s, k) == 0
    decreases |s| - i
  {
    if i == |s| || SpaceLen(s, i) > 0 then i else WordEnd(s, i + 1)
  }

  /** The next item of `split_whitespace`, as its bounds. */
  function Word(s: Bytes, i: nat): (w: Option<(nat, nat)>)
    requires i <= |s|
    ensures w.Some? ==> i <= w.value.0 <= w.value.1 <= |s|
  {
    var from := WordStart(s, i);
    if from == |s| then None else Some((from, WordEnd(s, from)))
  }

  // ----- host and port -----

  const OPEN: byte := 91
  const CLOSE: byte := 93

  /** The first `]:`, or the length. */
  function BracketColon(s: Bytes): (i: nat)
    ensures i <= |s|
    ensures i < |s| ==> i + 1 < |s| && s[i] == CLOSE && s[i + 1] == COLON
    ensures forall j :: 0 <= j < i && j + 1 < |s| ==> !(s[j] == CLOSE && s[j + 1] == COLON)
  {
    if |s| < 2 then |s|
    else if s[0] == CLOSE && s[1] == COLON then 0
    else 1 + BracketColon(s[1..])
  }

  /** The last colon. */
  function LastColon(s: Bytes): (i: Option<nat>)
    ensures i.Some? ==> i.value < |s| && s[i.value] == COLON && COLON !in s[i.value + 1..]
    ensures i.None? ==> COLON !in s
  {
    if s == [] then None
    else if s[|s| - 1] == COLON then Some(|s| - 1)
    else
      var r := LastColon(s[..|s| - 1]);
      assert s == s[..|s| - 1] + [s[|s| - 1]];
      assert r.Some? ==> s[r.value + 1..] == s[..|s| - 1][r.value + 1..] + [s[|s| - 1]];
      r
  }

  function PortOr(s: Bytes, default: Port): Port
  {
    match ParseU16(AsText(s)) case None => default case Some(p) => p
  }

  /** `split_host_port`. */
  function SplitHostPort(s: Bytes, default: Port): (Bytes, Port)
  {
    if s != [] && s[0] == OPEN && BracketColon(s[1..]) < |s[1..]| then
      var (rest, i) := (s[1..], BracketColon(s[1..]));
      (rest[..i], PortOr(rest[i + 2..], default))
    else if s != [] && s[0] == OPEN && s[1..] != [] && s[|s| - 1] == CLOSE then
      (s[1..|s| - 1], default)
    else match LastColon(s)
      case None => (s, default)
      case Some(i) => if i == 0 then (s, default) else (s[..i], PortOr(s[i + 1..], default))
  }

  // ----- the request parser -----

  /** `ClientRequest`. */
  datatype ClientRequest = ClientRequest(scheme: Scheme, frontend: Relay.Frontend, host: Bytes, port: Port,
                                         raw: Bytes, proxyAuth: Option<Bytes>, path: Bytes)

  const HEAD_CAP: nat := 65536
  const CONNECT := Text("CONNECT")
  const HTTP_PREFIX := Text("http://")
  const SLASH: byte := 47

  predicate EndsBlank(s: Bytes)
  {
    |s| >= 4 && s[|s| - 4..] == CRLF + CRLF
  }

  /** How many bytes the read loop takes, with `n` taken so far; `None` if the stream ends first. */
  function HeadLen(stream: Bytes, n: nat): (r: Option<nat>)
    requires n <= HEAD_CAP
    ensures r.Some? ==> n < r.value <= |stream| && r.value <= HEAD_CAP + 1
    decreases |stream| - n
  {
    if n >= |stream| then None
    else if EndsBlank(stream[..n + 1]) || n + 1 > HEAD_CAP then Some(n + 1)
    else HeadLen(stream, n + 1)
  }

  /** The read loop after the first byte has been sniffed. */
  method ReadClientHead(stream: Bytes) returns (buf: Option<Bytes>, rest: Bytes)
    ensures stream != [] && HeadLen(stream, 1).Some? ==>
              buf == Some(stream[..HeadLen(stream, 1).value]) && rest == stream[HeadLen(stream, 1).value..]
    ensures stream == [] || HeadLen(stream, 1).None? ==> buf == None
  {
    if stream == [] { return None, []; }
    var taken := stream[..1];
    rest := stream[1..];
    while true
      invariant 1 <= |taken| <= HEAD_CAP && taken + rest == stream
      invariant HeadLen(stream, |taken|) == HeadLen(stream, 1)
      decreases |rest|
    {
      if rest == [] { return None, rest; }
      OneMoreByte(taken, rest);
      taken := taken + [rest[0]];
      rest := rest[1..];
      if EndsBlank(taken) || |taken| > HEAD_CAP { return Some(taken), rest; }
    }
  }

  lemma OneMoreByte(taken: Bytes, rest: Bytes)
    requires rest != []
    ensures var (stream, next) := (taken + rest, taken + [rest[0]]);
            next + rest[1..] == stream && stream[..|next|] == next && stream[|next|..] == rest[1..]
  {
  }

  /** The authority a plain HTTP request is for: the absolute URI's, or the Host header's. */
  function ForwardTarget(buf: Bytes, uri: Bytes): Option<Bytes>
  {
    if HTTP_PREFIX <= uri then Some(UpToSlash(uri[|HTTP_PREFIX|..])) else HeaderValue(buf, Text("Host"))
  }

  function UpToSlash(s: Bytes): Bytes
  {
    if s == [] || s[0] == SLASH then [] else [s[0]] + UpToSlash(s[1..])
  }

  /** What a buffered head asks for. */
  function ParseHead(buf: Bytes): Option<ClientRequest>
  {
    var line := LineFrom(buf);
    match Word(line, 0)
    case None => None
    case Some((from, to)) =>
      match Word(line, to)
      case None => None
      case Some((uriFrom, uriTo)) =>
        var uri := line[uriFrom..uriTo];
        var proxyAuth := HeaderValue(buf, Relay.PROXY_AUTHORIZATION);
        if Lower(line[from..to]) == Lower(CONNECT) then
          var (host, port) := SplitHostPort(uri, 443);
          Some(ClientRequest(TlsHttps, Relay.HttpConnect, host, port, [], proxyAuth, uri))
        else
          match ForwardTarget(buf, uri)
          case None => None
          case Some(target) =>
            var (host, port) := SplitHostPort(target, 80);
            Some(ClientRequest(PlainHttp, Relay.HttpForward, host, port, buf, proxyAuth, uri))
  }

  /** `parse_client_request` on a stream that does not open with the SOCKS5 version byte. */
  function ParseHttp(stream: Bytes): Option<(ClientRequest, Bytes)>
  {
    if stream == [] then None
    else match HeadLen(stream, 1)
      case None => None
      case Some(n) =>
        match ParseHead(stream[..n])
        case None => None
        case Some(request) => Some((request, stream[n..]))
  }

  // ----- the printer -----

  datatype Login = Login(username: Bytes, password: Bytes)

  /** The host without one pair of brackets around it. */
  function Bare(host: Bytes): Bytes
  {
    if |host| >= 2 && host[0] == OPEN && host[|host| - 1] == CLOSE then host[1..|host| - 1] else host
  }

  function Authority(bare: Bytes, port: Port): Bytes
  {
    if COLON in bare then [OPEN] + bare + [CLOSE, COLON] + Text(Show(port)) else bare + [COLON] + Text(Show(port))
  }

  function HostHeader(bare: Bytes): Bytes
  {
    if COLON in bare then [OPEN] + bare + [CLOSE] else bare
  }

  function BasicValue(login: Login): Bytes
  {
    Text("Basic ") + Text(Base64.Encode(login.username + [COLON] + login.password))
  }

  /** `connect_request`, for the package version given. */
  function ConnectRequest(host: Bytes, port: Port, login: Option<Login>, version: Bytes): Bytes
  {
    var bare := Bare(host);
    var auth := match login
      case None => []
      case Some(l) => Text("Proxy-Authorization: ") + BasicValue(l) + CRLF;
    Text("CONNECT ") + Authority(bare, port) + Text(" HTTP/1.1\r\nHost: ") + HostHeader(bare)
    + Text("\r\nUser-Agent: PxBroker/") + version + Text("/\r\n") + auth + Text("Connection: keep-alive\r\n\r\n")
  }

  // ----- white space in slices and concatenations -----

  lemma SpaceInSlice(s: Bytes, i: nat, j: nat, k: nat)
    requires i <= j <= |s| && k < j - i && SpaceLen(s[i..j], k) > 0
    ensures SpaceLen(s, i + k) > 0
  {
    assert s[i..j][k] == s[i + k];
    if k + 1 < j - i { assert s[i..j][k + 1] == s[i + k + 1]; }
    if k + 2 < j - i { assert s[i..j][k + 2] == s[i + k + 2]; }
  }

  /** A part of a text without white space has none either. */
  lemma SliceNoSpace(s: Bytes, i: nat, j: nat)
    requires i <= j <= |s| && forall k :: i <= k < j ==> SpaceLen(s, k) == 0
    ensures NoSpace(s[i..j])
  {
    forall k | 0 <= k < j - i ensures SpaceLen(s[i..j], k) == 0 {
      if SpaceLen(s[i..j], k) > 0 { SpaceInSlice(s, i, j, k); }
    }
  }

  /** An ASCII byte never completes a longer white-space character. */
  lemma SpaceBefore(s: Bytes, t: Bytes, i: nat)
    requires i < |s| && (t == [] || t[0] < 128)
    ensures SpaceLen(s + t, i) == SpaceLen(s, i)
  {
  }

  lemma SpaceAfter(s: Bytes, t: Bytes, i: nat)
    requires i <= |t|
    ensures SpaceLen(s + t, |s| + i) == SpaceLen(t, i)
  {
  }

  lemma JoinNoSpace(s: Bytes, t: Bytes)
    requires NoSpace(s) && NoSpace(t) && (t == [] || t[0] < 128 || Visible(s))
    ensures NoSpace(s + t)
  {
    forall i | 0 <= i < |s + t| ensures SpaceLen(s + t, i) == 0 {
      if i >= |s| {
        SpaceAfter(s, t, i - |s|);
      } else if t == [] || t[0] < 128 {
        SpaceBefore(s, t, i);
      } else {
        assert (s + t)[i] == s[i];
      }
    }
  }

  /** Visible ASCII. */
  predicate Visible(s: Bytes)
  {
    forall i :: 0 <= i < |s| ==> 32 < s[i] < 127
  }

  lemma VisibleNoSpace(s: Bytes)
    requires Visible(s)
    ensures NoSpace(s)
  {
  }

  lemma DigitsVisible(n: nat)
    ensures Visible(Text(Show(n))) && Text(Show(n)) != [] && COLON !in Text(Show(n)) && CLOSE !in Text(Show(n))
    ensures AsText(Text(Show(n))) == Show(n)
  {
    var (t, b) := (Show(n), Text(Show(n)));
    forall i | 0 <= i < |b| ensures 48 <= b[i] <= 57 && b[i] as char == t[i] {
      assert IsDigit(t[i]);
    }
    assert AsText(b) == t;
  }

  /** The words of a line `w u ...`. */
  lemma TwoWords(w: Bytes, u: Bytes, tail: Bytes)
    requires w != [] && u != [] && Visible(w) && NoSpace(u) && tail != [] && tail[0] == 32
    ensures var line := w + [32] + u + tail;
            && Word(line, 0) == Some((0, |w|))
            && Word(line, |w|) == Some((|w| + 1, |w| + 1 + |u|))
            && line[..|w|] == w && line[|w| + 1..|w| + 1 + |u|] == u
  {
    var line := w + [32] + u + tail;
    VisibleNoSpace(w);
    var after := [32] + u + tail;
    assert line == w + after;
    forall i | 0 <= i < |w| ensures SpaceLen(line, i) == 0 { SpaceBefore(w, after, i); }
    WordEndIs(line, 0, |w|);
    assert line == (w + [32]) + (u + tail);
    forall k | |w| + 1 <= k < |w| + 1 + |u| ensures SpaceLen(line, k) == 0 {
      SpaceAfter(w + [32], u + tail, k - |w| - 1);
      SpaceBefore(u, tail, k - |w| - 1);
    }
    WordEndIs(line, |w| + 1, |w| + 1 + |u|);
    assert WordStart(line, |w|) == WordStart(line, |w| + 1) == |w| + 1;
  }

  lemma {:induction false} WordEndIs(s: Bytes, i: nat, j: nat)
    requires i <= j < |s| && SpaceLen(s, j) > 0
    requires forall k :: i <= k < j ==> SpaceLen(s, k) == 0
    ensures WordEnd(s, i) == j
    decreases j - i
  {
    if i < j { WordEndIs(s, i + 1, j); }
  }

  // ----- the authority -----

  /** What `split_host_port` can undo: no `]:` in a bracketed host, no brackets around a plain one. */
  predicate Splittable(bare: Bytes)
  {
    if COLON in bare then BracketColon(bare) == |bare|
    else bare != [] && !(bare[0] == OPEN && bare[|bare| - 1] == CLOSE)
  }

  lemma BracketColonIs(s: Bytes, i: nat)
    requires i + 1 < |s| && s[i] == CLOSE && s[i + 1] == COLON
    requires forall j :: 0 <= j < i ==> !(s[j] == CLOSE && s[j + 1] == COLON)
    ensures BracketColon(s) == i
  {
    var k := BracketColon(s);
    assert k <= i;
  }

  lemma {:induction false} LastColonIs(s: Bytes, i: nat)
    requires i < |s| && s[i] == COLON && COLON !in s[i + 1..]
    ensures LastColon(s) == Some(i)
  {
    if i < |s| - 1 {
      var shorter := s[..|s| - 1];
      assert s[|s| - 1] == s[i + 1..][|s| - 2 - i];
      assert shorter[i + 1..] == s[i + 1..][..|s| - 2 - i];
      LastColonIs(shorter, i);
    }
  }

  lemma PortReads(port: Port, default: Port)
    ensures PortOr(Text(Show(port)), default) == port
  {
    DigitsVisible(port);
    ParseShow(port);
  }

  lemma SplitAtBracket(s: Bytes, default: Port)
    requires s != [] && s[0] == OPEN && BracketColon(s[1..]) < |s[1..]|
    ensures var (rest, i) := (s[1..], BracketColon(s[1..]));
            SplitHostPort(s, default) == (rest[..i], PortOr(rest[i + 2..], default))
  {
  }

  lemma SplitAtColon(s: Bytes, i: nat, default: Port)
    requires 0 < i < |s| && LastColon(s) == Some(i) && s[|s| - 1] != CLOSE
    requires s[0] == OPEN ==> BracketColon(s[1..]) == |s[1..]|
    ensures SplitHostPort(s, default) == (s[..i], PortOr(s[i + 1..], default))
  {
  }

  /** Where the first `]:` of a bracketed authority is. */
  lemma BracketPosition(bare: Bytes, digits: Bytes)
    ensures var i := BracketColon(bare + ([CLOSE, COLON] + digits));
            i <= |bare| && (i == |bare| <==> BracketColon(bare) == |bare|)
  {
    var rest := bare + ([CLOSE, COLON] + digits);
    assert rest[|bare|] == CLOSE && rest[|bare| + 1] == COLON;
    if BracketColon(bare) == |bare| {
      forall j | 0 <= j < |bare| ensures !(rest[j] == CLOSE && rest[j + 1] == COLON) {
        if j + 1 == |bare| { assert rest[j + 1] == CLOSE; }
      }
      BracketColonIs(rest, |bare|);
    } else {
      var k := BracketColon(bare);
      assert rest[k] == CLOSE && rest[k + 1] == COLON;
    }
  }

  lemma BracketedSplits(bare: Bytes, port: Port, default: Port)
    requires COLON in bare
    ensures SplitHostPort(Authority(bare, port), default).0 == bare <==> Splittable(bare)
    ensures Splittable(bare) ==> SplitHostPort(Authority(bare, port), default) == (bare, port)
  {
    var digits := Text(Show(port));
    var rest := bare + ([CLOSE, COLON] + digits);
    assert Authority(bare, port) == [OPEN] + rest;
    CutBack([OPEN], rest);
    BracketPosition(bare, digits);
    SplitAtBracket([OPEN] + rest, default);
    assert rest[..|bare|] == bare && rest[|bare| + 2..] == digits;
    PortReads(port, default);
  }

  lemma PlainSplits(bare: Bytes, port: Port, default: Port)
    requires COLON !in bare
    ensures SplitHostPort(Authority(bare, port), default).0 == bare <==> Splittable(bare)
    ensures Splittable(bare) ==> SplitHostPort(Authority(bare, port), default) == (bare, port)
  {
    var digits := Text(Show(port));
    DigitsVisible(port);
    var s := bare + [COLON] + digits;
    PlainParts(bare, digits);
    if bare == [] {
      assert s[0] == COLON;
    } else if bare[0] == OPEN && bare[|bare| - 1] == CLOSE {
      SplitAtBracket(s, default);
    } else {
      SplitAtColon(s, |bare|, default);
      PortReads(port, default);
    }
  }

  lemma PlainParts(bare: Bytes, digits: Bytes)
    requires COLON !in bare && digits != [] && COLON !in digits && CLOSE !in digits
    ensures var s := bare + [COLON] + digits;
            && LastColon(s) == Some(|bare|) && s[..|bare|] == bare && s[|bare| + 1..] == digits
            && s[|s| - 1] != CLOSE
            && (bare != [] && bare[0] == OPEN ==>
                  BracketColon(s[1..]) == if bare[|bare| - 1] == CLOSE then |bare| - 2 else |s[1..]|)
  {
    var s := bare + [COLON] + digits;
    assert s[|bare|] == COLON && s[|bare| + 1..] == digits && s[..|bare|] == bare;
    LastColonIs(s, |bare|);
    assert s[|s| - 1] == digits[|digits| - 1];
    if bare != [] {
      assert s[1..] == bare[1..] + [COLON] + digits;
      NoOtherColon(bare[1..], digits);
    }
  }

  /** With a single colon, `]:` can only stand at it. */
  lemma NoOtherColon(before: Bytes, after: Bytes)
    requires COLON !in before && COLON !in after
    ensures var s := before + [COLON] + after;
            BracketColon(s) == if before != [] && before[|before| - 1] == CLOSE then |before| - 1 else |s|
  {
    var s := before + [COLON] + after;
    forall j | 0 <= j < |s| && j != |before| ensures s[j] != COLON {
      if j < |before| { assert s[j] == before[j]; } else { assert s[j] == after[j - |before| - 1]; }
    }
    if before != [] && before[|before| - 1] == CLOSE {
      assert s[|before| - 1] == CLOSE;
      BracketColonIs(s, |before| - 1);
    }
  }

  /** The authority reads back exactly when the host is splittable. */
  lemma AuthoritySplits(bare: Bytes, port: Port, default: Port)
    ensures SplitHostPort(Authority(bare, port), default).0 == bare <==> Splittable(bare)
    ensures Splittable(bare) ==> SplitHostPort(Authority(bare, port), default) == (bare, port)
  {
    if COLON in bare { BracketedSplits(bare, port, default); } else { PlainSplits(bare, port, default); }
  }

  // ----- the lines of a head -----

  /** A line: not empty, and no terminator in it. */
  predicate IsLine(l: Bytes)
  {
    l != [] && CR !in l && LF !in l
  }

  predicate AllLines(lines: seq<Bytes>)
  {
    forall i :: 0 <= i < |lines| ==> IsLine(lines[i])
  }

  /** A line that a CRLF can end: not empty and without a CR, though a bare LF may be in it. */
  predicate Unbroken(l: Bytes)
  {
    l != [] && CR !in l
  }

  predicate AllUnbroken(lines: seq<Bytes>)
  {
    forall i :: 0 <= i < |lines| ==> Unbroken(lines[i])
  }

  function Join(lines: seq<Bytes>): Bytes
  {
    if lines == [] then [] else lines[0] + CRLF + Join(lines[1..])
  }

  lemma BlankBytes(s: Bytes, n: nat)
    requires n <= |s|
    ensures EndsBlank(s[..n]) <==> n >= 4 && s[n - 4] == CR && s[n - 3] == LF && s[n - 2] == CR && s[n - 1] == LF
  {
    if n >= 4 {
      var t := s[..n];
      assert t[|t| - 4..] == [s[n - 4], s[n - 3], s[n - 2], s[n - 1]];
      assert CRLF + CRLF == [CR, LF, CR, LF];
    }
  }

  /** No CRLFCRLF starts inside a line. */
  lemma NotInside(line: Bytes, rest: Bytes, n: nat)
    requires Unbroken(line) && 4 <= n <= |line| + 2 + |rest|
    requires EndsBlank((line + CRLF + rest)[..n])
    ensures n == |line| + 4 || n >= |line| + 6
    ensures n == |line| + 4 ==> rest[0] == CR
  {
    var s := line + CRLF + rest;
    BlankBytes(s, n);
    forall k | 0 <= k < |line| ensures s[k] != CR { assert s[k] == line[k]; }
  }

  /** Past a line, the same bytes end the rest of the head. */
  lemma BlankShifts(line: Bytes, rest: Bytes, n: nat)
    requires |line| + 6 <= n <= |line| + 2 + |rest| && EndsBlank((line + CRLF + rest)[..n])
    ensures EndsBlank(rest[..n - |line| - 2])
  {
    BlankBytes(line + CRLF + rest, n);
    BlankBytes(rest, n - |line| - 2);
  }

  /** A head of at least one line ends at its blank line and not before. */
  lemma {:induction false} FirstBlank(lines: seq<Bytes>, n: nat)
    requires lines != [] && AllUnbroken(lines)
    requires 4 <= n <= |Join(lines) + CRLF| && EndsBlank((Join(lines) + CRLF)[..n])
    ensures n == |Join(lines) + CRLF|
  {
    var (line, tail) := (lines[0], lines[1..]);
    var rest := Join(tail) + CRLF;
    JoinFirst(lines);
    assert Unbroken(lines[0]);
    NotInside(line, rest, n);
    if tail == [] {
      assert rest == CRLF;
    } else {
      assert Unbroken(lines[1]) && tail[0] == lines[1];
      JoinFirst(tail);
      assert rest[0] == tail[0][0];
      BlankShifts(line, rest, n);
      FirstBlank(tail, n - |line| - 2);
    }
  }

  lemma {:induction false} EndsWithBlank(lines: seq<Bytes>)
    requires lines != []
    ensures EndsBlank(Join(lines) + CRLF)
  {
    if |lines| == 1 {
      assert Join(lines) + CRLF == lines[0] + (CRLF + CRLF);
    } else {
      EndsWithBlank(lines[1..]);
      var rest := Join(lines[1..]) + CRLF;
      assert Join(lines) + CRLF == (lines[0] + CRLF) + rest;
    }
  }

  lemma {:induction false} HeadLenIs(stream: Bytes, n: nat, m: nat)
    requires n < m <= |stream| && m <= HEAD_CAP + 1 && EndsBlank(stream[..m])
    requires forall k: nat | n < k < m :: !EndsBlank(stream[..k])
    ensures HeadLen(stream, n) == Some(m)
    decreases m - n
  {
    if n + 1 < m { HeadLenIs(stream, n + 1, m); }
  }

  /** The read loop takes exactly the head when it fits the cap, and never takes more than the cap allows. */
  lemma HeadTaken(lines: seq<Bytes>, after: Bytes)
    requires lines != [] && AllUnbroken(lines)
    ensures var head := Join(lines) + CRLF;
            HeadLen(head + after, 1) == Some(|head|) <==> |head| <= HEAD_CAP + 1
  {
    var head := Join(lines) + CRLF;
    var stream := head + after;
    if |head| <= HEAD_CAP + 1 {
      assert stream[..|head|] == head;
      EndsWithBlank(lines);
      forall k: nat | 1 < k < |head| ensures !EndsBlank(stream[..k]) {
        assert stream[..k] == head[..k];
        if EndsBlank(head[..k]) { FirstBlank(lines, k); }
      }
      HeadLenIs(stream, 1, |head|);
    }
  }

  // ----- finding a header among the lines -----

  /** The first line from `i` on that is the named header. */
  function HeaderLine(lines: seq<Bytes>, name: Bytes): Option<Bytes>
  {
    if lines == [] then None
    else if FieldAt(lines[0], 0, name) then Some(lines[0])
    else HeaderLine(lines[1..], name)
  }

  lemma FieldShifts(pre: Bytes, t: Bytes, j: nat, name: Bytes)
    ensures FieldAt(pre + t, |pre| + j, name) <==> FieldAt(t, j, name)
  {
    if j + |name| < |t| {
      assert (pre + t)[|pre| + j..|pre| + j + |name|] == t[j..j + |name|];
    }
  }

  /** A line starts at `k` with that name. */
  predicate FieldStarts(raw: Bytes, k: nat, name: Bytes)
  {
    1 <= k < |raw| && raw[k - 1] == LF && FieldAt(raw, k, name)
  }

  lemma {:induction false} FindSkips(raw: Bytes, name: Bytes, i: nat, j: nat)
    requires 1 <= i <= j <= |raw| && forall k :: i <= k < j ==> !FieldStarts(raw, k, name)
    ensures FindField(raw, name, i) == FindField(raw, name, j)
    decreases j - i
  {
    if i < j {
      assert !FieldStarts(raw, i, name);
      FindSkips(raw, name, i + 1, j);
    }
  }

  lemma BlankIsNoField(pre: Bytes, name: Bytes)
    requires pre != [] && IsName(name)
    ensures FindField(pre + CRLF, name, |pre|) == None
  {
    FieldShifts(pre, CRLF, 0, name);
    FieldStaysInLine([], [], name, 0);
    assert [] + CRLF + [] == CRLF;
    FindSkips(pre + CRLF, name, |pre|, |pre| + 2);
  }

  /** What the search from a line start should find: the first line with that name. */
  predicate Finds(raw: Bytes, from: nat, name: Bytes, line: Option<Bytes>)
    requires 1 <= from
  {
    var found := FindField(raw, name, from);
    match line
    case None => found.None?
    case Some(l) =>
      found.Some? && |name| < |l| && LineFrom(raw[found.value + |name| + 1..]) == l[|name| + 1..] + [CR]
  }

  lemma FindsHere(pre: Bytes, line: Bytes, rest: Bytes, name: Bytes)
    requires pre != [] && pre[|pre| - 1] == LF && IsLine(line) && FieldAt(line, 0, name)
    requires FieldAt(pre + (line + CRLF + rest), |pre|, name)
    ensures Finds(pre + (line + CRLF + rest), |pre|, name, Some(line))
  {
    var raw := pre + (line + CRLF + rest);
    assert raw[|pre| - 1] == LF;
    assert raw[|pre| + |name| + 1..] == line[|name| + 1..] + [CR] + ([LF] + rest);
    SliceOfLine(line, |name| + 1);
    LineFromIs(line[|name| + 1..] + [CR], rest);
  }

  lemma FindsFrom(raw: Bytes, i: nat, j: nat, name: Bytes, found: Option<Bytes>)
    requires 1 <= i <= j && FindField(raw, name, i) == FindField(raw, name, j) && Finds(raw, j, name, found)
    ensures Finds(raw, i, name, found)
  {
  }

  lemma FindsLater(pre: Bytes, line: Bytes, rest: Bytes, name: Bytes, found: Option<Bytes>)
    requires pre != [] && IsLine(line) && rest != [] && !FieldAt(pre + (line + CRLF + rest), |pre|, name)
    requires Finds((pre + line + CRLF) + rest, |pre + line + CRLF|, name, found)
    ensures Finds(pre + (line + CRLF + rest), |pre|, name, found)
  {
    LineInMiddle(pre, line, rest);
    SkipLine(pre, line, rest, name);
    FindsFrom(pre + (line + CRLF + rest), |pre|, |pre + line + CRLF|, name, found);
  }

  lemma {:induction false} FindInLines(pre: Bytes, lines: seq<Bytes>, name: Bytes)
    requires pre != [] && pre[|pre| - 1] == LF && IsName(name) && AllLines(lines)
    ensures Finds(pre + (Join(lines) + CRLF), |pre|, name, HeaderLine(lines, name))
    decreases |lines|
  {
    if lines == [] {
      assert Join(lines) + CRLF == CRLF;
      BlankIsNoField(pre, name);
    } else {
      var (line, tail) := (lines[0], lines[1..]);
      var rest := Join(tail) + CRLF;
      assert IsLine(lines[0]) && AllLines(tail);
      JoinFirst(lines);
      FieldShifts(pre, line + CRLF + rest, 0, name);
      FieldStaysInLine(line, rest, name, 0);
      if FieldAt(line, 0, name) {
        FindsHere(pre, line, rest, name);
      } else {
        FindInLines(pre + line + CRLF, tail, name);
        FindsLater(pre, line, rest, name, HeaderLine(tail, name));
      }
    }
  }

  lemma JoinFirst(lines: seq<Bytes>)
    requires lines != []
    ensures Join(lines) + CRLF == lines[0] + CRLF + (Join(lines[1..]) + CRLF)
  {
  }

  lemma SliceOfLine(line: Bytes, n: nat)
    requires n <= |line| && LF !in line
    ensures LF !in line[n..] + [CR]
  {
    assert forall b | b in line[n..] :: b in line;
  }

  lemma LineInMiddle(pre: Bytes, line: Bytes, rest: Bytes)
    ensures var raw := pre + (line + CRLF + rest);
            && raw == (pre + line + CRLF) + rest
            && |pre + line + CRLF| == |pre| + |line| + 2 <= |raw|
            && raw[|pre|..|pre| + |line|] == line && raw[|pre| + |line|] == CR
  {
  }

  /** No field starts inside a line or in its line break. */
  lemma SkipLineAt(raw: Bytes, at: nat, n: nat, name: Bytes)
    requires 1 <= at && at + n + 2 <= |raw| && !FieldAt(raw, at, name)
    requires LF !in raw[at..at + n] && raw[at + n] == CR
    ensures FindField(raw, name, at) == FindField(raw, name, at + n + 2)
  {
    forall k | at <= k < at + n + 2 ensures !FieldStarts(raw, k, name) {
      if at < k <= at + n { assert raw[k - 1] == raw[at..at + n][k - 1 - at]; }
    }
    FindSkips(raw, name, at, at + n + 2);
  }

  lemma SkipLine(pre: Bytes, line: Bytes, rest: Bytes, name: Bytes)
    requires pre != [] && IsLine(line) && rest != []
    requires !FieldAt(pre + (line + CRLF + rest), |pre|, name)
    ensures FindField(pre + (line + CRLF + rest), name, |pre|)
            == FindField(pre + (line + CRLF + rest), name, |pre + line + CRLF|)
  {
    LineInMiddle(pre, line, rest);
    SkipLineAt(pre + (line + CRLF + rest), |pre|, |line|, name);
  }

  lemma {:induction false} LineFromIs(line: Bytes, rest: Bytes)
    requires LF !in line
    ensures LineFrom(line + ([LF] + rest)) == line
  {
    if line != [] {
      assert (line + ([LF] + rest))[1..] == line[1..] + ([LF] + rest);
      assert forall b | b in line[1..] :: b in line;
      LineFromIs(line[1..], rest);
    }
  }

  function ValueIn(line: Option<Bytes>, name: Bytes): Option<Bytes>
  {
    if line.Some? && |name| < |line.value| then Some(Trim(line.value[|name| + 1..] + [CR])) else None
  }

  lemma FoundValue(raw: Bytes, from: nat, name: Bytes, line: Option<Bytes>)
    requires 1 <= from && Finds(raw, from, name, line) && FindField(raw, name, 1) == FindField(raw, name, from)
    ensures HeaderValue(raw, name) == ValueIn(line, name)
  {
  }

  /** `header_value` on a head: the value of the first such line after the request line. */
  lemma HeaderValueIs(first: Bytes, lines: seq<Bytes>, name: Bytes)
    requires IsLine(first) && AllLines(lines) && IsName(name)
    ensures HeaderValue(Join([first] + lines) + CRLF, name) == ValueIn(HeaderLine(lines, name), name)
  {
    var pre := first + CRLF;
    var rest := Join(lines) + CRLF;
    assert ([first] + lines)[1..] == lines;
    JoinFirst([first] + lines);
    SkipFirst(first, rest, name);
    FindInLines(pre, lines, name);
    FoundValue(pre + rest, |pre|, name, HeaderLine(lines, name));
  }

  lemma SkipFirst(first: Bytes, rest: Bytes, name: Bytes)
    requires IsLine(first)
    ensures FindField(first + CRLF + rest, name, 1) == FindField(first + CRLF + rest, name, |first + CRLF|)
  {
    var raw := first + CRLF + rest;
    forall k | 1 <= k < |first| + 2 ensures !FieldStarts(raw, k, name) {
      if k <= |first| { assert raw[k - 1] == first[k - 1]; }
    }
    FindSkips(raw, name, 1, |first| + 2);
  }

  /** A value framed by one space and the line's CR trims to itself. */
  lemma TrimFramed(v: Bytes)
    requires v != [] && !IsSpace(v[0]) && !IsSpace(v[|v| - 1])
    ensures Trim([32] + v + [CR]) == v
  {
    var s := [32] + v + [CR];
    var t := v + [CR];
    assert s[1..] == t && TrimStart(s) == TrimStart(t) == t;
    assert t[..|t| - 1] == v && TrimEnd(t) == TrimEnd(v) == v;
  }

  // ----- printing, then parsing -----

  lemma {:induction false} EncodePrintable(input: seq<byte>)
    ensures Visible(Text(Base64.Encode(input)))
  {
    if input != [] {
      var k := Min(3, |input|);
      EncodePrintable(input[k..]);
      TextCut(Base64.Encode(input), Base64.Quantum(input[..k]), Base64.Encode(input[k..]));
      QuantumPrintable(input[..k]);
    }
  }

  lemma QuantumPrintable(chunk: seq<byte>)
    requires 1 <= |chunk| <= 3
    ensures Visible(Text(Base64.Quantum(chunk)))
  {
    var q := Base64.Quantum(chunk);
    forall i | 0 <= i < |q| ensures 32 < Text(q)[i] < 127 {
      assert Text(q)[i] == q[i] as int;
    }
  }

  const HTTP_11 := Text(" HTTP/1.1")
  const HOST := Text("Host: ")
  const AGENT := Text("User-Agent: PxBroker/")
  const KEEP_ALIVE := Text("Connection: keep-alive")

  function RequestLine(bare: Bytes, port: Port): Bytes
  {
    CONNECT + [32] + Authority(bare, port) + HTTP_11
  }

  function AuthLine(login: Login): Bytes
  {
    Relay.PROXY_AUTHORIZATION + [COLON] + ([32] + BasicValue(login))
  }

  function FieldLines(bare: Bytes, login: Option<Login>, version: Bytes): seq<Bytes>
  {
    [HOST + HostHeader(bare)]
    + ([AGENT + version + Text("/")]
       + ((if login.Some? then [AuthLine(login.value)] else [])
          + [KEEP_ALIVE]))
  }

  /** A literal cut in two. */
  lemma TextCut(whole: string, a: string, b: string)
    requires whole == a + b
    ensures Text(whole) == Text(a) + Text(b)
  {
  }

  lemma ShortTexts()
    ensures Text(" ") == [32] && Text("\r\n") == CRLF && Text(": ") == [COLON] + [32]
    ensures Text("\r\n\r\n") == CRLF + CRLF
  {
  }

  lemma RequestTexts()
    ensures Text("CONNECT ") == CONNECT + [32]
    ensures Text("Proxy-Authorization: ") == Relay.PROXY_AUTHORIZATION + [COLON] + [32]
    ensures Text("Connection: keep-alive\r\n\r\n") == KEEP_ALIVE + CRLF + CRLF
  {
    ShortTexts();
    TextCut("CONNECT ", "CONNECT", " ");
    TextCut("Proxy-Authorization: ", "Proxy-Authorization", ": ");
    TextCut("Connection: keep-alive\r\n\r\n", "Connection: keep-alive", "\r\n\r\n");
  }

  lemma VersionText()
    ensures Text(" HTTP/1.1\r\nHost: ") == HTTP_11 + CRLF + HOST
  {
    ShortTexts();
    TextCut(" HTTP/1.1\r\nHost: ", " HTTP/1.1\r\n", "Host: ");
    TextCut(" HTTP/1.1\r\n", " HTTP/1.1", "\r\n");
  }

  lemma SeparatorTexts()
    ensures Text("\r\nUser-Agent: PxBroker/") == CRLF + AGENT
    ensures Text("/\r\n") == Text("/") + CRLF
  {
    ShortTexts();
    TextCut("\r\nUser-Agent: PxBroker/", "\r\n", "User-Agent: PxBroker/");
    TextCut("/\r\n", "/", "\r\n");
  }

  lemma JoinCons(a: Bytes, rest: seq<Bytes>)
    ensures Join([a] + rest) == a + CRLF + Join(rest)
  {
    assert ([a] + rest)[1..] == rest;
  }

  lemma FieldsJoined(bare: Bytes, login: Option<Login>, version: Bytes)
    ensures Join(FieldLines(bare, login, version))
            == (HOST + HostHeader(bare)) + CRLF + ((AGENT + version + Text("/")) + CRLF
               + ((if login.Some? then AuthLine(login.value) + CRLF else []) + (KEEP_ALIVE + CRLF)))
  {
    var auth := if login.Some? then [AuthLine(login.value)] else [];
    JoinCons(HOST + HostHeader(bare), [AGENT + version + Text("/")] + (auth + [KEEP_ALIVE]));
    JoinCons(AGENT + version + Text("/"), auth + [KEEP_ALIVE]);
    JoinCons(KEEP_ALIVE, []);
    assert [KEEP_ALIVE] + [] == [KEEP_ALIVE] && KEEP_ALIVE + CRLF + [] == KEEP_ALIVE + CRLF;
    if login.Some? {
      JoinCons(AuthLine(login.value), [KEEP_ALIVE]);
    } else {
      assert auth + [KEEP_ALIVE] == [KEEP_ALIVE];
      assert [] + (KEEP_ALIVE + CRLF) == KEEP_ALIVE + CRLF;
    }
  }

  lemma AuthText(l: Login)
    ensures Text("Proxy-Authorization: ") + BasicValue(l) + CRLF == AuthLine(l) + CRLF
  {
    RequestTexts();
    var (name, value) := (Relay.PROXY_AUTHORIZATION, BasicValue(l));
    assert name + [COLON] + [32] + value == name + [COLON] + ([32] + value);
  }

  /** The printed text, with its literals cut into lines. */
  lemma RequestText(host: Bytes, port: Port, login: Option<Login>, version: Bytes)
    ensures var bare := Bare(host);
            ConnectRequest(host, port, login, version)
            == (CONNECT + [32]) + Authority(bare, port) + (HTTP_11 + CRLF + HOST) + HostHeader(bare)
               + (CRLF + AGENT) + version + (Text("/") + CRLF)
               + (if login.Some? then AuthLine(login.value) + CRLF else []) + (KEEP_ALIVE + CRLF + CRLF)
  {
    RequestTexts();
    VersionText();
    SeparatorTexts();
    if login.Some? { AuthText(login.value); }
  }

  /** The printed text, line by line. */
  lemma PrintedLines(host: Bytes, port: Port, login: Option<Login>, version: Bytes)
    ensures var bare := Bare(host);
            ConnectRequest(host, port, login, version)
            == Join([RequestLine(bare, port)] + FieldLines(bare, login, version)) + CRLF
  {
    var bare := Bare(host);
    var authText := if login.Some? then AuthLine(login.value) + CRLF else [];
    RequestText(host, port, login, version);
    JoinCons(RequestLine(bare, port), FieldLines(bare, login, version));
    FieldsJoined(bare, login, version);
    PrintedOrder(CONNECT + [32] + Authority(bare, port), HTTP_11, HOST, HostHeader(bare), AGENT, version, Text("/"),
            authText, KEEP_ALIVE);
  }

  lemma PrintedOrder(a: Bytes, b: Bytes, c: Bytes, d: Bytes, e: Bytes, f: Bytes, g: Bytes, h: Bytes, k: Bytes)
    ensures a + (b + CRLF + c) + d + (CRLF + e) + f + (g + CRLF) + h + (k + CRLF + CRLF)
            == a + b + CRLF + ((c + d) + CRLF + ((e + f + g) + CRLF + (h + (k + CRLF)))) + CRLF
  {
    var (x, y, z) := (a + b + CRLF, c + d + CRLF, e + f + g + CRLF);
    assert a + (b + CRLF + c) + d + (CRLF + e) + f + (g + CRLF) == x + (y + z) by {
      assert a + (b + CRLF + c) + d + (CRLF + e) == x + y + e;
      assert x + y + e + f + (g + CRLF) == x + y + z;
    }
    var end := h + (k + CRLF) + CRLF;
    assert h + (k + CRLF + CRLF) == end;
    assert x + (y + z) + h + (k + CRLF + CRLF) == x + (y + z) + end;
    assert (c + d) + CRLF + ((e + f + g) + CRLF + (h + (k + CRLF))) + CRLF == y + z + end;
  }

  lemma NoSpaceNoBreak(s: Bytes)
    requires NoSpace(s)
    ensures CR !in s && LF !in s
  {
    forall i | 0 <= i < |s| ensures s[i] != CR && s[i] != LF { assert SpaceLen(s, i) == 0; }
  }

  lemma AuthorityNoSpace(bare: Bytes, port: Port)
    requires NoSpace(bare)
    ensures NoSpace(Authority(bare, port)) && NoSpace(HostHeader(bare))
  {
    var digits := Text(Show(port));
    DigitsVisible(port);
    VisibleNoSpace([OPEN]);
    VisibleNoSpace([COLON] + digits);
    JoinNoSpace(bare, [COLON] + digits);
    assert bare + [COLON] + digits == bare + ([COLON] + digits);
    VisibleNoSpace([CLOSE]);
    VisibleNoSpace([CLOSE, COLON] + digits);
    JoinNoSpace([OPEN], bare);
    JoinNoSpace([OPEN] + bare, [CLOSE]);
    JoinNoSpace([OPEN] + bare, [CLOSE, COLON] + digits);
    assert [OPEN] + bare + [CLOSE, COLON] + digits == [OPEN] + bare + ([CLOSE, COLON] + digits);
  }

  lemma ConstantsUnbroken()
    ensures CR !in CONNECT && LF !in CONNECT && CR !in HTTP_11 && LF !in HTTP_11
    ensures CR !in HOST && LF !in HOST && CR !in AGENT && LF !in AGENT
    ensures CR !in KEEP_ALIVE && LF !in KEEP_ALIVE
    ensures IsName(Relay.PROXY_AUTHORIZATION) && CR !in Text("Basic ") && LF !in Text("Basic ")
  {
    TextUnbroken("CONNECT");
    TextUnbroken(" HTTP/1.1");
    TextUnbroken("Host: ");
    TextUnbroken("User-Agent: PxBroker/");
    TextUnbroken("Connection: keep-alive");
    TextUnbroken("Proxy-Authorization");
    TextUnbroken("Basic ");
  }

  lemma TextUnbroken(s: string)
    requires forall i :: 0 <= i < |s| ==> ' ' <= s[i] <= '~'
    ensures CR !in Text(s) && LF !in Text(s)
  {
    forall i | 0 <= i < |s| ensures Text(s)[i] != CR && Text(s)[i] != LF {
      assert Text(s)[i] == s[i] as int;
    }
  }

  lemma BasicUnbroken(login: Login)
    ensures CR !in BasicValue(login) && LF !in BasicValue(login)
    ensures !IsSpace(BasicValue(login)[0]) && !IsSpace(BasicValue(login)[|BasicValue(login)| - 1])
  {
    var input := login.username + [COLON] + login.password;
    EncodePrintable(input);
    Base64.EncodeShape(input);
    ConstantsUnbroken();
    assert |Base64.Encode(input)| > 0;
  }

  lemma LinesOfRequest(bare: Bytes, port: Port, login: Option<Login>, version: Bytes)
    requires NoSpace(bare) && Visible(version)
    ensures IsLine(RequestLine(bare, port)) && AllLines(FieldLines(bare, login, version))
  {
    AuthorityNoSpace(bare, port);
    NoSpaceNoBreak(Authority(bare, port));
    NoSpaceNoBreak(HostHeader(bare));
    ConstantsUnbroken();
    assert CR !in version && LF !in version;
    if login.Some? { BasicUnbroken(login.value); }
  }

  lemma OtherInitial(line: Bytes, name: Bytes)
    requires line != [] && name != [] && LowerByte(line[0]) != LowerByte(name[0])
    ensures !FieldAt(line, 0, name)
  {
    if |name| < |line| {
      assert line[0..0 + |name|][0] == line[0];
      assert Lower(line[0..0 + |name|])[0] == LowerByte(line[0]) && Lower(name)[0] == LowerByte(name[0]);
    }
  }

  lemma Initials()
    ensures LowerByte(HOST[0]) != LowerByte(Relay.PROXY_AUTHORIZATION[0])
    ensures LowerByte(AGENT[0]) != LowerByte(Relay.PROXY_AUTHORIZATION[0])
    ensures LowerByte(KEEP_ALIVE[0]) != LowerByte(Relay.PROXY_AUTHORIZATION[0])
  {
    assert "Host: "[0] == 'H' && "User-Agent: PxBroker/"[0] == 'U' && "Connection: keep-alive"[0] == 'C'
        && "Proxy-Authorization"[0] == 'P';
  }

  /** The authorization line is found when it is there, and no other line passes for it. */
  lemma AuthFound(bare: Bytes, login: Option<Login>, version: Bytes)
    ensures HeaderLine(FieldLines(bare, login, version), Relay.PROXY_AUTHORIZATION)
            == if login.Some? then Some(AuthLine(login.value)) else None
  {
    var name := Relay.PROXY_AUTHORIZATION;
    Initials();
    OtherInitial(HOST + HostHeader(bare), name);
    OtherInitial(AGENT + version + Text("/"), name);
    OtherInitial(KEEP_ALIVE, name);
    var auth := if login.Some? then [AuthLine(login.value)] else [];
    PassesOver(HOST + HostHeader(bare), [AGENT + version + Text("/")] + (auth + [KEEP_ALIVE]), name);
    PassesOver(AGENT + version + Text("/"), auth + [KEEP_ALIVE], name);
    if login.Some? {
      var line := AuthLine(login.value);
      assert line[0..0 + |name|] == name && line[|name|] == COLON;
      StopsAt(line, [KEEP_ALIVE], name);
    } else {
      PassesOver(KEEP_ALIVE, [], name);
      assert [KEEP_ALIVE] + [] == auth + [KEEP_ALIVE];
    }
  }

  lemma PassesOver(line: Bytes, lines: seq<Bytes>, name: Bytes)
    requires !FieldAt(line, 0, name)
    ensures HeaderLine([line] + lines, name) == HeaderLine(lines, name)
  {
    assert ([line] + lines)[1..] == lines;
  }

  lemma StopsAt(line: Bytes, lines: seq<Bytes>, name: Bytes)
    requires FieldAt(line, 0, name)
    ensures HeaderLine([line] + lines, name) == Some(line)
  {
  }

  function AuthValue(login: Option<Login>): Option<Bytes>
  {
    if login.Some? then Some(BasicValue(login.value)) else None
  }

  lemma AuthLineValue(login: Login)
    ensures ValueIn(Some(AuthLine(login)), Relay.PROXY_AUTHORIZATION) == Some(BasicValue(login))
  {
    var (name, v) := (Relay.PROXY_AUTHORIZATION, BasicValue(login));
    assert AuthLine(login)[|name| + 1..] + [CR] == [32] + v + [CR];
    BasicUnbroken(login);
    TrimFramed(v);
  }

  lemma AuthRead(bare: Bytes, port: Port, login: Option<Login>, version: Bytes)
    requires NoSpace(bare) && Visible(version)
    ensures HeaderValue(Join([RequestLine(bare, port)] + FieldLines(bare, login, version)) + CRLF,
                        Relay.PROXY_AUTHORIZATION) == AuthValue(login)
  {
    var name := Relay.PROXY_AUTHORIZATION;
    LinesOfRequest(bare, port, login, version);
    ConstantsUnbroken();
    AuthFound(bare, login, version);
    HeaderValueIs(RequestLine(bare, port), FieldLines(bare, login, version), name);
    if login.Some? { AuthLineValue(login.value); }
  }

  lemma RequestLineRead(bare: Bytes, port: Port, fields: seq<Bytes>)
    requires NoSpace(bare)
    ensures var line := LineFrom(Join([RequestLine(bare, port)] + fields) + CRLF);
            var a := Authority(bare, port);
            && Word(line, 0) == Some((0, |CONNECT|)) && line[..|CONNECT|] == CONNECT
            && Word(line, |CONNECT|) == Some((|CONNECT| + 1, |CONNECT| + 1 + |a|))
            && line[|CONNECT| + 1..|CONNECT| + 1 + |a|] == a
  {
    var (r, a) := (RequestLine(bare, port), Authority(bare, port));
    AuthorityNoSpace(bare, port);
    NoSpaceNoBreak(a);
    ConstantsUnbroken();
    var rest := Join(fields) + CRLF;
    assert ([r] + fields)[1..] == fields;
    assert Join([r] + fields) + CRLF == (r + [CR]) + ([LF] + rest);
    LineFromIs(r + [CR], rest);
    assert r + [CR] == CONNECT + [32] + a + (HTTP_11 + [CR]);
    assert " HTTP/1.1"[0] == ' ';
    ConnectVisible();
    TwoWords(CONNECT, a, HTTP_11 + [CR]);
  }

  lemma ConnectVisible()
    ensures CONNECT != [] && Visible(CONNECT) && CONNECT[0] == 67
  {
    assert "CONNECT"[0] == 'C';
  }

  /** A printed head parses to what was printed, up to splitting the authority. */
  lemma HeadParsed(bare: Bytes, port: Port, login: Option<Login>, version: Bytes)
    requires NoSpace(bare) && Visible(version)
    ensures var (h, p) := SplitHostPort(Authority(bare, port), 443);
            ParseHead(Join([RequestLine(bare, port)] + FieldLines(bare, login, version)) + CRLF)
            == Some(ClientRequest(TlsHttps, Relay.HttpConnect, h, p, [], AuthValue(login), Authority(bare, port)))
  {
    RequestLineRead(bare, port, FieldLines(bare, login, version));
    AuthRead(bare, port, login, version);
  }

  lemma SplitHostIsSlice(s: Bytes, default: Port) returns (i: nat, j: nat)
    ensures i <= j <= |s| && SplitHostPort(s, default).0 == s[i..j]
  {
    var h := SplitHostPort(s, default).0;
    if s != [] && s[0] == OPEN && BracketColon(s[1..]) < |s[1..]| {
      i, j := 1, 1 + BracketColon(s[1..]);
      assert s[1..][..j - 1] == s[1..j];
    } else if s != [] && s[0] == OPEN && s[1..] != [] && s[|s| - 1] == CLOSE {
      i, j := 1, |s| - 1;
    } else {
      i, j := 0, |h|;
      assert s[0..|s|] == s;
    }
  }

  /** A CONNECT host never has white space in it. */
  lemma ParsedHostNoSpace(buf: Bytes)
    requires ParseHead(buf).Some? && ParseHead(buf).value.frontend == Relay.HttpConnect
    ensures NoSpace(ParseHead(buf).value.host)
  {
    var uri := ParseHead(buf).value.path;
    var line := LineFrom(buf);
    var (from, to) := Word(line, Word(line, 0).value.1).value;
    SliceNoSpace(line, from, to);
    var i, j := SplitHostIsSlice(uri, 443);
    SliceNoSpace(uri, i, j);
  }

  /** What a CONNECT request should be read as. */
  function Tunnel(bare: Bytes, port: Port, login: Option<Login>): ClientRequest
  {
    ClientRequest(TlsHttps, Relay.HttpConnect, bare, port, [], AuthValue(login), Authority(bare, port))
  }

  lemma ParsedWithinCap(stream: Bytes, head: Bytes, after: Bytes, request: ClientRequest)
    requires stream == head + after && ParseHttp(stream) == Some((request, after))
    ensures HeadLen(stream, 1) == Some(|head|) && |head| <= HEAD_CAP + 1 && ParseHead(head) == Some(request)
  {
    var n := HeadLen(stream, 1).value;
    assert |stream[n..]| == |after|;
    assert stream[..n] == head;
  }

  lemma PrintedIsRead(host: Bytes, port: Port, login: Option<Login>, version: Bytes, after: Bytes)
    requires Visible(version) && NoSpace(Bare(host)) && Splittable(Bare(host))
    requires |ConnectRequest(host, port, login, version)| <= HEAD_CAP + 1
    ensures ParseHttp(ConnectRequest(host, port, login, version) + after)
            == Some((Tunnel(Bare(host), port, login), after))
  {
    var (bare, head) := (Bare(host), ConnectRequest(host, port, login, version));
    PrintedLines(host, port, login, version);
    AuthoritySplits(bare, port, 443);
    HeadParsed(bare, port, login, version);
    LinesOfRequest(bare, port, login, version);
    AllLinesCons(RequestLine(bare, port), FieldLines(bare, login, version));
    HeadTaken([RequestLine(bare, port)] + FieldLines(bare, login, version), after);
    assert (head + after)[..|head|] == head && (head + after)[|head|..] == after;
  }

  lemma AllLinesCons(first: Bytes, lines: seq<Bytes>)
    requires IsLine(first) && AllLines(lines)
    ensures AllUnbroken([first] + lines)
  {
  }

  lemma ReadWasClean(host: Bytes, port: Port, login: Option<Login>, version: Bytes, after: Bytes)
    requires Visible(version)
    requires ParseHttp(ConnectRequest(host, port, login, version) + after)
            == Some((Tunnel(Bare(host), port, login), after))
    ensures NoSpace(Bare(host)) && Splittable(Bare(host))
    ensures |ConnectRequest(host, port, login, version)| <= HEAD_CAP + 1
  {
    var (bare, head) := (Bare(host), ConnectRequest(host, port, login, version));
    ParsedWithinCap(head + after, head, after, Tunnel(bare, port, login));
    ParsedHostNoSpace(head);
    PrintedLines(host, port, login, version);
    HeadParsed(bare, port, login, version);
    AuthoritySplits(bare, port, 443);
  }

  /**
   * Printing a CONNECT request and parsing the stream that starts with it gives back the bare host,
   * the port and exactly the credentials, and leaves exactly what followed the head, if and only if
   * the host has no white space and can be split off its authority, and the head fits the read cap.
   */
  lemma ConnectRoundTripIff(host: Bytes, port: Port, login: Option<Login>, version: Bytes, after: Bytes)
    requires Visible(version)
    ensures var head := ConnectRequest(host, port, login, version);
            ParseHttp(head + after) == Some((Tunnel(Bare(host), port, login), after))
            <==> NoSpace(Bare(host)) && Splittable(Bare(host)) && |head| <= HEAD_CAP + 1
  {
    var head := ConnectRequest(host, port, login, version);
    if ParseHttp(head + after) == Some((Tunnel(Bare(host), port, login), after)) {
      ReadWasClean(host, port, login, version, after);
    } else if NoSpace(Bare(host)) && Splittable(Bare(host)) && |head| <= HEAD_CAP + 1 {
      PrintedIsRead(host, port, login, version, after);
    }
  }

  /** Two hosts that do not come back: doubled brackets around a name, and `]:` in a host with a colon. */
  lemma UnsplittableHosts(port: Port, login: Option<Login>, version: Bytes, after: Bytes)
    requires Visible(version)
    ensures var host: Bytes := [OPEN, OPEN, 97, CLOSE, CLOSE];
            ParseHttp(ConnectRequest(host, port, login, version) + after)
            != Some((Tunnel(Bare(host), port, login), after))
    ensures var host: Bytes := [97, CLOSE, COLON, 98];
            ParseHttp(ConnectRequest(host, port, login, version) + after)
            != Some((Tunnel(Bare(host), port, login), after))
  {
    var nested: Bytes := [OPEN, OPEN, 97, CLOSE, CLOSE];
    var early: Bytes := [97, CLOSE, COLON, 98];
    assert Bare(nested) == [OPEN, 97, CLOSE] && COLON !in Bare(nested);
    assert early[2] == COLON;
    BracketColonIs(early, 1);
    ConnectRoundTripIff(nested, port, login, version, after);
    ConnectRoundTripIff(early, port, login, version, after);
  }

  // ----- a request whose header survives the strip -----

  const PLAIN_REQUEST := Text("GET http://h/ HTTP/1.1")

  /** A header line that hides `Proxy-Authorization` behind a bare LF. */
  function HidingLine(secret: Bytes): Bytes
  {
    [88, LF] + (Relay.PROXY_AUTHORIZATION + [COLON] + secret)
  }

  function HidingHead(secret: Bytes): Bytes
  {
    PLAIN_REQUEST + CRLF + (HidingLine(secret) + CRLF + CRLF)
  }

  lemma PlainRequestRead(rest: Bytes)
    ensures CR !in PLAIN_REQUEST && PLAIN_REQUEST != []
    ensures var line := LineFrom(PLAIN_REQUEST + CRLF + rest);
            && Word(line, 0) == Some((0, 3)) && line[..3] == Text("GET")
            && Word(line, 3) == Some((4, 13)) && line[4..13] == HTTP_PREFIX + Text("h/")
  {
    var uri := HTTP_PREFIX + Text("h/");
    TextCut("GET http://h/ HTTP/1.1", "GET ", "http://h/ HTTP/1.1");
    TextCut("http://h/ HTTP/1.1", "http://h/", " HTTP/1.1");
    TextCut("http://h/", "http://", "h/");
    TextCut("GET ", "GET", " ");
    ShortTexts();
    TextUnbroken("GET http://h/ HTTP/1.1");
    assert PLAIN_REQUEST + CRLF + rest == (PLAIN_REQUEST + [CR]) + ([LF] + rest);
    LineFromIs(PLAIN_REQUEST + [CR], rest);
    assert PLAIN_REQUEST + [CR] == Text("GET") + [32] + uri + (HTTP_11 + [CR]);
    TextVisible("GET");
    TextVisible("http://h/");
    VisibleNoSpace(uri);
    assert " HTTP/1.1"[0] == ' ';
    TwoWords(Text("GET"), uri, HTTP_11 + [CR]);
  }

  lemma TextVisible(s: string)
    requires forall i :: 0 <= i < |s| ==> ' ' < s[i] <= '~'
    ensures Visible(Text(s)) && |Text(s)| == |s|
  {
    forall i | 0 <= i < |s| ensures 32 < Text(s)[i] < 127 {
      assert Text(s)[i] == s[i] as int;
    }
  }

  lemma HidingHeadParsed(secret: Bytes)
    ensures var r := ParseHead(HidingHead(secret));
            && r.Some? && r.value.frontend == Relay.HttpForward && r.value.raw == HidingHead(secret)
            && r.value.proxyAuth == HeaderValue(HidingHead(secret), Relay.PROXY_AUTHORIZATION)
  {
    PlainRequestRead(HidingLine(secret) + CRLF + CRLF);
    assert |Lower(Text("GET"))| == 3 && |Lower(CONNECT)| == 7;
    assert HTTP_PREFIX <= HTTP_PREFIX + Text("h/");
  }

  lemma HidingLineHides(secret: Bytes)
    requires CR !in secret
    ensures var (line, name) := (HidingLine(secret), Relay.PROXY_AUTHORIZATION);
            Unbroken(line) && CrlfAt(line) == |line| && !FieldAt(line, 0, name) && BareLfField(line, name)
  {
    var (line, name) := (HidingLine(secret), Relay.PROXY_AUTHORIZATION);
    ConstantsUnbroken();
    Initials();
    assert CR !in line;
    CrlfAtUnique(line, |line|);
    OtherInitial(line, name);
    assert line[2..2 + |name|] == name && line[2 + |name|] == COLON;
    assert FieldAt(line, 2, name);
  }

  lemma HidingHeadTaken(secret: Bytes, after: Bytes)
    requires CR !in secret && |HidingHead(secret)| <= HEAD_CAP + 1
    ensures HeadLen(HidingHead(secret) + after, 1) == Some(|HidingHead(secret)|)
  {
    var line := HidingLine(secret);
    HidingLineHides(secret);
    PlainRequestRead(line + CRLF + CRLF);
    JoinCons(PLAIN_REQUEST, [line]);
    JoinCons(line, []);
    assert [line] + [] == [line] && [PLAIN_REQUEST] + [line] == [PLAIN_REQUEST, line];
    assert HidingHead(secret) == Join([PLAIN_REQUEST, line]) + CRLF;
    HeadTaken([PLAIN_REQUEST, line], after);
  }

  lemma HidingHeadLeaks(secret: Bytes)
    requires CR !in secret
    ensures Strip(HidingHead(secret), Relay.PROXY_AUTHORIZATION, true) == HidingHead(secret)
    ensures HeaderValue(HidingHead(secret), Relay.PROXY_AUTHORIZATION).Some?
  {
    HidingLineHides(secret);
    PlainRequestRead(HidingLine(secret) + CRLF + CRLF);
    ConstantsUnbroken();
    CrlfAtUnique(PLAIN_REQUEST, |PLAIN_REQUEST|);
    BareLfLeaks(PLAIN_REQUEST, HidingLine(secret), Relay.PROXY_AUTHORIZATION);
    NothingStripped(PLAIN_REQUEST, HidingLine(secret), Relay.PROXY_AUTHORIZATION);
  }

  lemma ParseTaken(head: Bytes, after: Bytes)
    requires head != [] && HeadLen(head + after, 1) == Some(|head|) && ParseHead(head).Some?
    ensures ParseHttp(head + after) == Some((ParseHead(head).value, after))
  {
    assert (head + after)[..|head|] == head && (head + after)[|head|..] == after;
  }

  /**
   * A request the server relays, stripped of nothing: the value that authenticates it to the local
   * server is still there for an upstream that reads lines as `header_value` does.
   */
  lemma BareLfLeakRelayed(secret: Bytes, after: Bytes)
    requires CR !in secret && |HidingHead(secret)| <= HEAD_CAP + 1
    ensures var (raw, name) := (HidingHead(secret), Relay.PROXY_AUTHORIZATION);
            var r := ParseHttp(raw + after);
            && r.Some? && r.value.1 == after
            && r.value.0.frontend == Relay.HttpForward && r.value.0.raw == raw
            && HeaderValue(Strip(raw, name, true), name).Some?
            && HeaderValue(Strip(raw, name, true), name) == r.value.0.proxyAuth
  {
    HidingHeadTaken(secret, after);
    HidingHeadParsed(secret);
    HidingHeadLeaks(secret);
    ParseTaken(HidingHead(secret), after);
  }

  lemma NothingStripped(first: Bytes, line: Bytes, name: Bytes)
    requires CrlfAt(first) == |first| && CrlfAt(line) == |line| && !FieldAt(line, 0, name)
    ensures var raw := first + CRLF + (line + CRLF + CRLF); Strip(raw, name, true) == raw
  {
    var raw := first + CRLF + (line + CRLF + CRLF);
    BlankLine();
    LineThenRest(line, CRLF);
    LineThenRest(first, line + CRLF + CRLF);
    var blank: Bytes := [];
    assert Lines(raw) == [first] + ([line] + [blank]);
    assert ([first] + ([line] + [blank]))[1..] == [line] + [blank] && ([line] + [blank])[1..] == [blank];
    assert Keep([blank][1..], name, false) == [];
    assert !FieldAt(blank, 0, name);
    assert Keep([blank], name, false) == [blank];
    assert Keep([line] + [blank], name, false) == [line] + [blank];
    assert Keep(Lines(raw), name, true) == Lines(raw);
    StripKeepsLines(raw, name, true);
    SameLinesSameBytes(Strip(raw, name, true), raw);
  }

  /** And it is not taken for a SOCKS5 greeting. */
  lemma ConnectIsHttp(host: Bytes, port: Port, login: Option<Login>, version: Bytes)
    ensures ConnectRequest(host, port, login, version)[0] == 67
  {
    PrintedLines(host, port, login, version);
    ConnectVisible();
  }

  // ----- the negotiator's side: reading the reply head -----

  datatype HeadError = EmptyReply | ReplyReset | RunawayHead

  const REPLY_CAP: nat := 8192

  /** `read_head`: byte by byte up to the blank line, so that nothing past it is taken. */
  method ReadHead(stream: Bytes) returns (head: Bytes, error: Option<HeadError>)
    ensures head <= stream && |head| <= REPLY_CAP + 1
    ensures forall k: nat | k < |head| :: !EndsBlank(head[..k])
    ensures error.None? <==> EndsBlank(head)
    ensures error == Some(RunawayHead) <==> |head| == REPLY_CAP + 1 && !EndsBlank(head)
    ensures error == Some(EmptyReply) <==> stream == []
    ensures error == Some(ReplyReset) ==> head == stream
  {
    var n := 0;
    while true
      invariant n <= |stream| && n <= REPLY_CAP
      invariant forall k: nat | k <= n :: !EndsBlank(stream[..k])
      decreases |stream| - n
    {
      if n == |stream| {
        assert stream[..n] == stream;
        return stream, Some(if n == 0 then EmptyReply else ReplyReset);
      }
      n := n + 1;
      head := stream[..n];
      assert forall k: nat | k < n :: head[..k] == stream[..k];
      if EndsBlank(head) { return head, None; }
      if n > REPLY_CAP { return head, Some(RunawayHead); }
    }
  }
}
