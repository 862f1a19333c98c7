/**
 * `src/server.rs`: the SOCKS5 front end (sections 3, 4 and 6 of RFC 1928, section 2 of RFC 1929),
 * from the byte after the sniffed version. The client's bytes are a stream read by count.
 */
module Socks5 {
  import opened Prelude
  import opened Headers
  import opened ClientAuth

  // ----- a well-formed exchange, as the client sends it -----

  datatype Target = V4(addr: Bytes, port: Port) | V6(addr: Bytes, port: Port) | Domain(name: Bytes, port: Port)
  {
    predicate WellFormed()
    {
      match this
      case V4(addr, _) => |addr| == 4
      case V6(addr, _) => |addr| == 16
      case Domain(name, _) => |name| <= 255
    }
  }

  /** The username/password message; the server does not look at its version byte. */
  datatype Login = Login(version: byte, user: Bytes, pass: Bytes)

  datatype Exchange = Exchange(methods: Bytes, login: Option<Login>, reserved: byte, target: Target)
  {
    predicate WellFormed()
    {
      && |methods| <= 255 && target.WellFormed()
      && (login.Some? ==> |login.value.user| <= 255 && |login.value.pass| <= 255)
    }

    /** What the server asks for: no authentication, or the configured pair. */
    predicate Allowed(expected: Option<AuthExpect>)
    {
      match expected
      case None => 0x00 in methods && login.None?
      case Some(e) => 0x02 in methods && login.Some? && SocksGate(e, login.value.user, login.value.pass)
    }
  }

  function PortBytes(port: Port): Bytes { [port / 256, port % 256] }

  function TargetBytes(t: Target): Bytes
    requires t.WellFormed()
  {
    match t
    case V4(addr, port) => [0x01] + (addr + PortBytes(port))
    case V6(addr, port) => [0x04] + (addr + PortBytes(port))
    case Domain(name, port) => [0x03, |name|] + (name + PortBytes(port))
  }

  function LoginBytes(l: Login): Bytes
    requires |l.user| <= 255 && |l.pass| <= 255
  {
    [l.version, |l.user|] + (l.user + ([|l.pass|] + l.pass))
  }

  function GreetingBytes(methods: Bytes): Bytes
    requires |methods| <= 255
  {
    [|methods|] + methods
  }

  function RequestBytes(reserved: byte, t: Target): Bytes
    requires t.WellFormed()
  {
    [0x05, 0x01, reserved] + TargetBytes(t)
  }

  function Encode(x: Exchange): Bytes
    requires x.WellFormed()
  {
    GreetingBytes(x.methods)
    + ((if x.login.Some? then LoginBytes(x.login.value) else []) + RequestBytes(x.reserved, x.target))
  }

  // ----- the server -----

  const NO_METHOD: Bytes := [0x05, 0xFF]
  const AUTH_OK: Bytes := [0x01, 0x00]
  const AUTH_FAILED: Bytes := [0x01, 0x01]
  const BAD_COMMAND: Bytes := [0x05, 0x07, 0x00, 0x01, 0, 0, 0, 0, 0, 0]
  const BAD_ADDRESS: Bytes := [0x05, 0x08, 0x00, 0x01, 0, 0, 0, 0, 0, 0]

  /** A stage of the handshake: go on with what is left, or stop; either way after some replies. */
  datatype Stage = Go(rest: Bytes, replies: Bytes) | Stop(replies: Bytes)

  datatype Verdict = Accepted(target: Target, rest: Bytes, replies: Bytes) | Refused(replies: Bytes)

  function Method(expected: Option<AuthExpect>): byte { if expected.None? then 0x00 else 0x02 }

  /** A length byte, that many bytes, and what is left. */
  function Counted(s: Bytes): Option<(Bytes, Bytes)>
  {
    if s == [] then None
    else
      var n: int := s[0];
      if |s[1..]| < n then None else Some((s[1..][..n], s[1..][n..]))
  }

  function Greet(s: Bytes, expected: Option<AuthExpect>): Stage
  {
    match Counted(s)
    case None => Stop([])
    case Some((methods, rest)) =>
      if Method(expected) !in methods then Stop(NO_METHOD) else Go(rest, [0x05, Method(expected)])
  }

  /** The version byte is skipped. */
  function User(s: Bytes): Option<(Bytes, Bytes)>
  {
    if s == [] then None else Counted(s[1..])
  }

  function Authenticate(s: Bytes, e: AuthExpect): Stage
  {
    match User(s)
    case None => Stop([])
    case Some((user, rest)) =>
      match Counted(rest)
      case None => Stop([])
      case Some((pass, rest')) => if SocksGate(e, user, pass) then Go(rest', AUTH_OK) else Stop(AUTH_FAILED)
  }

  function PortAt(s: Bytes, i: nat): Port
    requires i + 2 <= |s|
  {
    var high: int := s[i];
    high * 256 + s[i + 1]
  }

  /** An address of `n` bytes, a big-endian port, and what is left. */
  function AddrPort(s: Bytes, n: nat): Option<(Bytes, Port, Bytes)>
  {
    if |s| < n + 2 then None else Some((s[..n], PortAt(s, n), s[n + 2..]))
  }

  /** The address of one of the three types. */
  function ReadTarget(kind: byte, s: Bytes): Option<(Target, Bytes)>
    requires kind in {0x01, 0x03, 0x04}
  {
    if kind == 0x03 then
      if s == [] then None
      else match AddrPort(s[1..], s[0])
        case None => None
        case Some((name, port, rest)) => Some((Domain(name, port), rest))
    else
      match AddrPort(s, if kind == 0x01 then 4 else 16)
      case None => None
      case Some((addr, port, rest)) => Some((if kind == 0x01 then V4(addr, port) else V6(addr, port), rest))
  }

  function Connect(s: Bytes): Verdict
  {
    if |s| < 4 then Refused([])
    else if s[0] != 0x05 then Refused([])
    else if s[1] != 0x01 then Refused(BAD_COMMAND)
    else if s[3] !in {0x01, 0x03, 0x04} then Refused(BAD_ADDRESS)
    else
      match ReadTarget(s[3], s[4..])
      case None => Refused([])
      case Some((target, rest)) => Accepted(target, rest, [])
  }

  /** Method selection, and the sub-negotiation when credentials are configured. */
  function Admit(s: Bytes, expected: Option<AuthExpect>): Stage
  {
    match Greet(s, expected)
    case Stop(replies) => Stop(replies)
    case Go(rest, replies) =>
      if expected.None? then Go(rest, replies)
      else
        match Authenticate(rest, expected.value)
        case Stop(more) => Stop(replies + more)
        case Go(rest', more) => Go(rest', replies + more)
  }

  /** The whole exchange. */
  function Negotiate(s: Bytes, expected: Option<AuthExpect>): Verdict
  {
    match Admit(s, expected)
    case Stop(replies) => Refused(replies)
    case Go(rest, replies) => After(replies, Connect(rest))
  }

  function After(replies: Bytes, v: Verdict): Verdict
  {
    v.(replies := replies + v.replies)
  }

  /** The verdict's replies have been sent, and on acceptance the target and the unread bytes are its own. */
  predicate Carried(v: Verdict, before: Bytes, target: Option<Target>, input: Bytes, sent: Bytes)
  {
    && sent == before + v.replies
    && (if v.Accepted? then target == Some(v.target) && input == v.rest else target == None)
  }

  lemma CarriedAfter(v: Verdict, before: Bytes, replies: Bytes, target: Option<Target>, input: Bytes, sent: Bytes)
    requires Carried(v, before + replies, target, input, sent)
    ensures Carried(After(replies, v), before, target, input, sent)
  {
    assert (before + replies) + v.replies == before + (replies + v.replies);
  }

  /** The connection: bytes still unread, and bytes sent. */
  class Client {
    var input: Bytes
    var sent: Bytes

    constructor (stream: Bytes)
      ensures input == stream && sent == []
    {
      input, sent := stream, [];
    }

    /** `read_exact`: the next `n` bytes, or nothing if the stream ends first. */
    method ReadExact(n: nat) returns (r: Option<Bytes>)
      modifies this`input
      ensures n <= |old(input)| ==> r == Some(old(input)[..n]) && input == old(input)[n..]
      ensures n > |old(input)| ==> r == None
    {
      if n > |input| {
        input := [];
        return None;
      }
      r := Some(input[..n]);
      input := input[n..];
    }

    method WriteAll(bytes: Bytes)
      modifies this`sent
      ensures sent == old(sent) + bytes
    {
      sent := sent + bytes;
    }

    method ReadCounted() returns (r: Option<Bytes>)
      modifies this`input
      ensures match Counted(old(input))
              case None => r == None
              case Some((t, rest)) => r == Some(t) && input == rest
    {
      var count := ReadExact(1);
      if count.None? { return None; }
      r := ReadExact(count.value[0]);
    }

    method ReadMethods(expected: Option<AuthExpect>) returns (ok: bool)
      modifies this
      ensures match Greet(old(input), expected)
              case Stop(replies) => !ok && sent == old(sent) + replies
              case Go(rest, replies) => ok && input == rest && sent == old(sent) + replies
    {
      var methods := ReadCounted();
      if methods.None? { return false; }
      if expected.None? {
        if 0x00 !in methods.value {
          WriteAll(NO_METHOD);
          return false;
        }
        WriteAll([0x05, 0x00]);
      } else {
        if 0x02 !in methods.value {
          WriteAll(NO_METHOD);
          return false;
        }
        WriteAll([0x05, 0x02]);
      }
      return true;
    }

    method ReadLogin(e: AuthExpect) returns (ok: bool)
      modifies this
      ensures match Authenticate(old(input), e)
              case Stop(replies) => !ok && sent == old(sent) + replies
              case Go(rest, replies) => ok && input == rest && sent == old(sent) + replies
    {
      var user := ReadUser();
      if user.None? { return false; }
      var pass := ReadCounted();
      if pass.None? { return false; }
      if user.value == e.user && pass.value == e.pass {
        WriteAll(AUTH_OK);
        return true;
      }
      WriteAll(AUTH_FAILED);
      return false;
    }

    /** The version and the user's length come in one read. */
    method ReadUser() returns (user: Option<Bytes>)
      modifies this`input
      ensures match User(old(input))
              case None => user == None
              case Some((t, rest)) => user == Some(t) && input == rest
    {
      ghost var s := input;
      var head := ReadExact(2);
      if head.None? { return None; }
      assert s[1..][1..] == s[2..];
      user := ReadExact(head.value[1]);
    }

    method ReadRequest() returns (target: Option<Target>)
      modifies this
      ensures Carried(Connect(old(input)), old(sent), target, input, sent)
    {
      var head := ReadExact(4);
      if head.None? { return None; }
      if head.value[0] != 0x05 { return None; }
      if head.value[1] != 0x01 {
        WriteAll(BAD_COMMAND);
        return None;
      }
      if head.value[3] == 0x01 {
        var addr, port := ReadAddrPort(4);
        return if addr.None? then None else Some(V4(addr.value, port));
      } else if head.value[3] == 0x04 {
        var addr, port := ReadAddrPort(16);
        return if addr.None? then None else Some(V6(addr.value, port));
      } else if head.value[3] == 0x03 {
        var len := ReadExact(1);
        if len.None? { return None; }
        var addr, port := ReadAddrPort(len.value[0]);
        return if addr.None? then None else Some(Domain(addr.value, port));
      }
      WriteAll(BAD_ADDRESS);
      return None;
    }

    /** An address of known length and a big-endian port. */
    method ReadAddrPort(n: nat) returns (addr: Option<Bytes>, port: Port)
      modifies this`input
      ensures match AddrPort(old(input), n)
              case None => addr == None
              case Some((a, p, rest)) => addr == Some(a) && port == p && input == rest
    {
      port := 0;
      addr := ReadExact(n);
      if addr.None? { return None, 0; }
      var p := ReadExact(2);
      if p.None? { return None, 0; }
      port := PortAt(p.value, 0);
    }

    method ReadAdmission(expected: Option<AuthExpect>) returns (ok: bool)
      modifies this
      ensures match Admit(old(input), expected)
              case Stop(replies) => !ok && sent == old(sent) + replies
              case Go(rest, replies) => ok && input == rest && sent == old(sent) + replies
    {
      ok := ReadMethods(expected);
      if ok && expected.Some? {
        ok := ReadLogin(expected.value);
      }
    }

    /** `parse_socks5_request`. */
    method ParseSocks5(expected: Option<AuthExpect>) returns (target: Option<Target>)
      modifies this
      ensures Carried(Negotiate(old(input), expected), old(sent), target, input, sent)
    {
      ghost var before := sent;
      ghost var admitted := Admit(input, expected);
      var ok := ReadAdmission(expected);
      if !ok { return None; }
      ghost var verdict := Connect(input);
      target := ReadRequest();
      CarriedAfter(verdict, before, admitted.replies, target, input, sent);
    }
  }

  // ----- the server accepts exactly the allowed exchanges -----

  lemma CountedRead(t: Bytes, rest: Bytes)
    requires |t| <= 255
    ensures Counted([|t|] + t + rest) == Some((t, rest))
  {
    var s := [|t|] + t + rest;
    assert s[1..] == t + rest;
  }

  lemma GreetingRead(methods: Bytes, rest: Bytes, expected: Option<AuthExpect>)
    requires |methods| <= 255
    ensures Greet(GreetingBytes(methods) + rest, expected)
            == if Method(expected) in methods then Go(rest, [0x05, Method(expected)]) else Stop(NO_METHOD)
  {
    CountedRead(methods, rest);
  }

  lemma LoginRead(l: Login, rest: Bytes, e: AuthExpect)
    requires |l.user| <= 255 && |l.pass| <= 255
    ensures Authenticate(LoginBytes(l) + rest, e)
            == if SocksGate(e, l.user, l.pass) then Go(rest, AUTH_OK) else Stop(AUTH_FAILED)
  {
    var after := [|l.pass|] + l.pass + rest;
    assert (LoginBytes(l) + rest)[1..] == [|l.user|] + l.user + after;
    CountedRead(l.user, after);
    CountedRead(l.pass, rest);
  }

  lemma AddrPortRead(addr: Bytes, port: Port, rest: Bytes)
    ensures AddrPort(addr + PortBytes(port) + rest, |addr|) == Some((addr, port, rest))
  {
    var s := addr + PortBytes(port) + rest;
    assert s[|addr|] == port / 256 && s[|addr| + 1] == port % 256;
    assert s[..|addr|] == addr && s[|addr| + 2..] == rest;
  }

  function Kind(t: Target): byte
  {
    match t case V4(_, _) => 0x01 case V6(_, _) => 0x04 case Domain(_, _) => 0x03
  }

  lemma TargetRead(t: Target, rest: Bytes)
    requires t.WellFormed()
    ensures TargetBytes(t)[0] == Kind(t) && ReadTarget(Kind(t), TargetBytes(t)[1..] + rest) == Some((t, rest))
  {
    match t
    case V4(addr, port) =>
      AddrPortRead(addr, port, rest);
      CutBack([0x01], addr + PortBytes(port));
    case V6(addr, port) =>
      AddrPortRead(addr, port, rest);
      CutBack([0x04], addr + PortBytes(port));
    case Domain(name, port) =>
      AddrPortRead(name, port, rest);
      DomainTail(name, PortBytes(port), rest);
  }

  lemma DomainTail(name: Bytes, port: Bytes, rest: Bytes)
    requires |name| <= 255
    ensures var s := ([0x03, |name|] + (name + port))[1..] + rest;
            s != [] && s[0] == |name| && s[1..] == name + port + rest
  {
  }

  lemma RequestRead(reserved: byte, t: Target, rest: Bytes)
    requires t.WellFormed()
    ensures Connect(RequestBytes(reserved, t) + rest) == Accepted(t, rest, [])
  {
    TargetRead(t, rest);
    RequestHeader(reserved, TargetBytes(t), rest);
  }

  lemma RequestHeader(reserved: byte, t: Bytes, rest: Bytes)
    requires t != []
    ensures var s := [0x05, 0x01, reserved] + t + rest;
            |s| >= 4 && s[0] == 0x05 && s[1] == 0x01 && s[3] == t[0] && s[4..] == t[1..] + rest
  {
  }

  function Replies(expected: Option<AuthExpect>): Bytes
  {
    [0x05, Method(expected)] + (if expected.None? then [] else AUTH_OK)
  }

  /** An allowed exchange is accepted, with the prescribed replies, and nothing after it is read. */
  lemma AllowedIsAccepted(x: Exchange, expected: Option<AuthExpect>, rest: Bytes)
    requires x.WellFormed() && x.Allowed(expected)
    ensures Negotiate(Encode(x) + rest, expected) == Accepted(x.target, rest, Replies(expected))
  {
    var request := RequestBytes(x.reserved, x.target);
    var login := if x.login.Some? then LoginBytes(x.login.value) else [];
    JoinedExchange(GreetingBytes(x.methods), login, request, rest);
    AdmissionRead(x.methods, x.login, request + rest, expected);
    RequestRead(x.reserved, x.target, rest);
    assert Replies(expected) + [] == Replies(expected);
  }

  lemma AdmissionRead(methods: Bytes, login: Option<Login>, rest: Bytes, expected: Option<AuthExpect>)
    requires |methods| <= 255 && Method(expected) in methods && (login.Some? <==> expected.Some?)
    requires login.Some? ==> |login.value.user| <= 255 && |login.value.pass| <= 255
                             && SocksGate(expected.value, login.value.user, login.value.pass)
    ensures Admit(GreetingBytes(methods) + ((if login.Some? then LoginBytes(login.value) else []) + rest), expected)
            == Go(rest, Replies(expected))
  {
    GreetingRead(methods, (if login.Some? then LoginBytes(login.value) else []) + rest, expected);
    if expected.Some? {
      LoginRead(login.value, rest, expected.value);
    } else {
      assert [] + rest == rest;
      assert [0x05, Method(expected)] + [] == [0x05, Method(expected)];
    }
  }

  lemma CountedWas(s: Bytes)
    requires Counted(s).Some?
    ensures var (t, rest) := Counted(s).value; |t| <= 255 && s == [|t|] + t + rest
  {
  }

  lemma GreetingWas(s: Bytes, expected: Option<AuthExpect>) returns (methods: Bytes)
    requires Greet(s, expected).Go?
    ensures |methods| <= 255 && Method(expected) in methods
    ensures s == GreetingBytes(methods) + Greet(s, expected).rest
  {
    CountedWas(s);
    methods := Counted(s).value.0;
  }

  lemma LoginWas(s: Bytes, e: AuthExpect) returns (l: Login)
    requires Authenticate(s, e).Go?
    ensures |l.user| <= 255 && |l.pass| <= 255 && SocksGate(e, l.user, l.pass)
    ensures s == LoginBytes(l) + Authenticate(s, e).rest
  {
    var (user, after) := Counted(s[1..]).value;
    var (pass, rest) := Counted(after).value;
    CountedWas(s[1..]);
    CountedWas(after);
    l := Login(s[0], user, pass);
    assert s == [s[0]] + ([|user|] + user + ([|pass|] + pass + rest));
  }

  lemma AddrPortWas(s: Bytes, n: nat)
    requires AddrPort(s, n).Some?
    ensures var (addr, port, rest) := AddrPort(s, n).value; |addr| == n && s == addr + PortBytes(port) + rest
  {
    assert PortBytes(PortAt(s, n)) == s[n..n + 2];
  }

  lemma TargetWas(kind: byte, s: Bytes)
    requires kind in {0x01, 0x03, 0x04} && ReadTarget(kind, s).Some?
    ensures var (t, rest) := ReadTarget(kind, s).value; t.WellFormed() && [kind] + s == TargetBytes(t) + rest
  {
    if kind == 0x03 {
      AddrPortWas(s[1..], s[0]);
      assert s == [s[0]] + s[1..];
    } else {
      AddrPortWas(s, if kind == 0x01 then 4 else 16);
    }
  }

  lemma RequestWas(s: Bytes) returns (reserved: byte)
    requires Connect(s).Accepted?
    ensures Connect(s).target.WellFormed() && Connect(s).replies == []
    ensures s == RequestBytes(reserved, Connect(s).target) + Connect(s).rest
  {
    reserved := s[2];
    TargetWas(s[3], s[4..]);
    assert s == [0x05, 0x01, reserved] + ([s[3]] + s[4..]);
  }

  lemma AdmissionWas(s: Bytes, expected: Option<AuthExpect>) returns (methods: Bytes, login: Option<Login>)
    requires Admit(s, expected).Go?
    ensures |methods| <= 255 && Method(expected) in methods && (login.Some? <==> expected.Some?)
    ensures login.Some? ==> |login.value.user| <= 255 && |login.value.pass| <= 255
                            && SocksGate(expected.value, login.value.user, login.value.pass)
    ensures s == GreetingBytes(methods)
                 + ((if login.Some? then LoginBytes(login.value) else []) + Admit(s, expected).rest)
  {
    methods := GreetingWas(s, expected);
    login := None;
    if expected.Some? {
      var l := LoginWas(Greet(s, expected).rest, expected.value);
      login := Some(l);
    } else {
      assert [] + Admit(s, expected).rest == Admit(s, expected).rest;
    }
  }

  /** Whatever is accepted was an allowed exchange, read to its end and no further. */
  lemma AcceptedWasAllowed(s: Bytes, expected: Option<AuthExpect>) returns (x: Exchange)
    requires Negotiate(s, expected).Accepted?
    ensures x.WellFormed() && x.Allowed(expected)
    ensures s == Encode(x) + Negotiate(s, expected).rest && x.target == Negotiate(s, expected).target
  {
    var methods, login := AdmissionWas(s, expected);
    var rest := Admit(s, expected).rest;
    var reserved := RequestWas(rest);
    x := Exchange(methods, login, reserved, Connect(rest).target);
    JoinedExchange(GreetingBytes(methods), if login.Some? then LoginBytes(login.value) else [],
            RequestBytes(reserved, x.target), Connect(rest).rest);
  }

  lemma JoinedExchange(a: Bytes, b: Bytes, c: Bytes, d: Bytes)
    ensures a + (b + (c + d)) == a + (b + c) + d
  {
  }

  /** Every stream that opens with an allowed exchange is accepted. */
  lemma OpeningIsAccepted(s: Bytes, x: Exchange, expected: Option<AuthExpect>)
    requires x.WellFormed() && x.Allowed(expected) && Encode(x) <= s
    ensures Negotiate(s, expected).Accepted?
  {
    AllowedIsAccepted(x, expected, s[|Encode(x)|..]);
    assert s == Encode(x) + s[|Encode(x)|..];
  }

  /** The front end accepts a stream if and only if it opens with an allowed exchange. */
  lemma AcceptsExactlyAllowed(s: Bytes, expected: Option<AuthExpect>)
    ensures Negotiate(s, expected).Accepted?
      <==> exists x: Exchange :: x.WellFormed() && x.Allowed(expected) && Encode(x) <= s
  {
    if Negotiate(s, expected).Accepted? {
      var x := AcceptedWasAllowed(s, expected);
      assert Encode(x) <= s;
    }
    if x: Exchange :| x.WellFormed() && x.Allowed(expected) && Encode(x) <= s {
      OpeningIsAccepted(s, x, expected);
    }
  }

  /** A greeting without the required method, and a wrong pair, get the prescribed refusals. */
  lemma Refusals(x: Exchange, expected: Option<AuthExpect>, rest: Bytes)
    requires x.WellFormed() && (expected.Some? ==> x.login.Some?)
    ensures Method(expected) !in x.methods ==> Negotiate(Encode(x) + rest, expected) == Refused(NO_METHOD)
    ensures expected.Some? && 0x02 in x.methods
            && !SocksGate(expected.value, x.login.value.user, x.login.value.pass)
            ==> Negotiate(Encode(x) + rest, expected) == Refused([0x05, 0x02] + AUTH_FAILED)
  {
    var request := RequestBytes(x.reserved, x.target);
    var login := if x.login.Some? then LoginBytes(x.login.value) else [];
    JoinedExchange(GreetingBytes(x.methods), login, request, rest);
    GreetingRead(x.methods, login + (request + rest), expected);
    if expected.Some? {
      LoginRead(x.login.value, request + rest, expected.value);
    }
  }
}
