/** `src/server.rs`: the precomputed client credentials and the two gates that compare against them. */
module ClientAuth {
  import opened Prelude
  import Base64

  /** `AuthExpect`: the SOCKS5 user and password, and the HTTP header value. */
  datatype AuthExpect = AuthExpect(user: seq<byte>, pass: seq<byte>, basic: string)

  /** Position of the first colon, or the length when there is none. */
  function FirstColon(s: seq<byte>): (i: nat)
    ensures i <= |s|
    ensures COLON !in s[..i]
    ensures i < |s| ==> s[i] == COLON
    ensures i < |s| <==> COLON in s
  {
    if s == [] || s[0] == COLON then 0
    else
      var j := FirstColon(s[1..]);
      assert s[..1 + j] == [s[0]] + s[1..][..j];
      1 + j
  }

  /** `serve`: split the configured `user:pass` once, and encode all of it for the HTTP form. */
  function Expect(configured: seq<byte>): AuthExpect
  {
    var i := FirstColon(configured);
    AuthExpect(
      configured[..i],
      if i < |configured| then configured[i + 1..] else [],
      "Basic " + Base64.Encode(configured))
  }

  /** `handle_client`: the HTTP gate is string equality with the header value. */
  predicate HttpGate(expected: AuthExpect, presented: Option<string>)
  {
    presented == Some(expected.basic)
  }

  /** `parse_socks5_request`: the RFC 1929 comparison. */
  predicate SocksGate(expected: AuthExpect, user: seq<byte>, pass: seq<byte>)
  {
    user == expected.user && pass == expected.pass
  }

  /** The `Proxy-Authorization` value a client sends for some credential bytes. */
  function BasicHeader(credentials: seq<byte>): string
  {
    "Basic " + Base64.Encode(credentials)
  }

  /** Comparing encodings accepts exactly the configured bytes. */
  lemma HttpGateExact(configured: seq<byte>, credentials: seq<byte>)
    ensures HttpGate(Expect(configured), Some(BasicHeader(credentials))) <==> credentials == configured
  {
    if BasicHeader(credentials) == BasicHeader(configured) {
      var (a, b) := (Base64.Encode(credentials), Base64.Encode(configured));
      assert ("Basic " + a)[6..] == a && ("Basic " + b)[6..] == b;
      Base64.EncodeInjective(credentials, configured);
    }
  }

  lemma {:induction false} FirstColonUnique(s: seq<byte>, k: nat)
    requires k < |s| && s[k] == COLON && COLON !in s[..k]
    ensures FirstColon(s) == k
  {
    if k != 0 {
      assert s[0] in s[..k];
      assert s[1..][..k - 1] == s[1..k];
      assert forall x | x in s[1..k] :: x in s[..k];
      FirstColonUnique(s[1..], k - 1);
    }
  }

  lemma SplitJoin(user: seq<byte>, pass: seq<byte>, configured: seq<byte>)
    requires COLON !in user && COLON in configured
    ensures user + [COLON] + pass == configured
      <==> user == Expect(configured).user && pass == Expect(configured).pass
  {
    var i := FirstColon(configured);
    assert configured == configured[..i] + [COLON] + configured[i + 1..];
    var joined := user + [COLON] + pass;
    assert joined[..|user|] == user && joined[|user| + 1..] == pass;
    FirstColonUnique(joined, |user|);
  }

  /**
   * The two front ends accept the same username/password pairs exactly when the configured
   * string contains a colon. Without one, the SOCKS5 gate splits off an empty password and
   * accepts a pair that no HTTP client can present.
   */
  lemma GatesAgreeIffColon(configured: seq<byte>)
    ensures (forall user: seq<byte>, pass: seq<byte> | COLON !in user ::
               HttpGate(Expect(configured), Some(BasicHeader(user + [COLON] + pass)))
               <==> SocksGate(Expect(configured), user, pass))
      <==> COLON in configured
  {
    if COLON in configured {
      forall user: seq<byte>, pass: seq<byte> | COLON !in user
        ensures HttpGate(Expect(configured), Some(BasicHeader(user + [COLON] + pass)))
          <==> SocksGate(Expect(configured), user, pass)
      {
        HttpGateExact(configured, user + [COLON] + pass);
        SplitJoin(user, pass, configured);
      }
    } else {
      var i := FirstColon(configured);
      assert i == |configured|;
      assert configured[..i] == configured;
      assert SocksGate(Expect(configured), configured, []);
      HttpGateExact(configured, configured + [COLON] + []);
      assert COLON in configured + [COLON] + [];
    }
  }
}
