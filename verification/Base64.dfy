/** `src/utils.rs`: the hand-rolled base64 encoder (RFC 4648, section 4). */
module Base64 {
  import opened Prelude

  /** The 64-character alphabet: A-Z, a-z, 0-9, `+`, `/`. */
  function Symbol(sextet: int): (c: char)
    requires 0 <= sextet < 64
  {
    if sextet < 26 then (('A' as int) + sextet) as char
    else if sextet < 52 then (('a' as int) + sextet - 26) as char
    else if sextet < 62 then (('0' as int) + sextet - 52) as char
    else if sextet == 62 then '+' else '/'
  }

  /** One to three bytes packed into a 24-bit group, absent bytes as zero. */
  function Pack(chunk: seq<byte>): (n: int)
    requires 1 <= |chunk| <= 3
    ensures 0 <= n < 0x100_0000
  {
    var b0: int := chunk[0];
    var b1: int := if |chunk| > 1 then chunk[1] else 0;
    var b2: int := if |chunk| > 2 then chunk[2] else 0;
    b0 * 65536 + b1 * 256 + b2
  }

  /** The four characters of one group of one to three bytes. */
  function Quantum(chunk: seq<byte>): (q: string)
    requires 1 <= |chunk| <= 3
  {
    var n := Pack(chunk);
    [ Symbol(n / 262144), Symbol(n / 4096 % 64),
      if |chunk| > 1 then Symbol(n / 64 % 64) else '=',
      if |chunk| > 2 then Symbol(n % 64) else '=' ]
  }

  function Encode(input: seq<byte>): string
  {
    if input == [] then ""
    else
      var k := Min(3, |input|);
      Quantum(input[..k]) + Encode(input[k..])
  }

  /** The loop body: four characters appended one by one. */
  method PushQuantum(text: string, chunk: seq<byte>) returns (out: string)
    requires 1 <= |chunk| <= 3
    ensures out == text + Quantum(chunk)
  {
    var n := Pack(chunk);
    out := text + [Symbol(n / 262144)];
    out := out + [Symbol(n / 4096 % 64)];
    out := out + [if |chunk| > 1 then Symbol(n / 64 % 64) else '='];
    out := out + [if |chunk| > 2 then Symbol(n % 64) else '='];
  }

  /** The loop over 3-byte chunks, appending four characters per chunk. */
  method Base64Encode(input: seq<byte>) returns (out: string)
    ensures out == Encode(input)
  {
    out := "";
    var i := 0;
    while i < |input|
      invariant 0 <= i <= |input|
      invariant Encode(input) == out + Encode(input[i..])
    {
      var k := Min(3, |input| - i);
      var chunk := input[i..i + k];
      EncodeFrom(out, input, i, k);
      out := PushQuantum(out, chunk);
      i := i + k;
    }
    assert input[i..] == [];
    assert Encode(input[i..]) == "";
    assert out + "" == out;
  }

  lemma EncodeFrom(out: string, input: seq<byte>, i: nat, k: nat)
    requires i < |input| && k == Min(3, |input| - i)
    ensures out + Encode(input[i..]) == (out + Quantum(input[i..i + k])) + Encode(input[i + k..])
  {
    var rest := input[i..];
    assert rest[..k] == input[i..i + k] && rest[k..] == input[i + k..];
    assert Encode(rest) == Quantum(rest[..k]) + Encode(rest[k..]);
  }

  // ----- the reference decoder -----

  function SextetOf(c: char): Option<int>
  {
    if 'A' <= c <= 'Z' then Some(c as int - 'A' as int)
    else if 'a' <= c <= 'z' then Some(c as int - 'a' as int + 26)
    else if '0' <= c <= '9' then Some(c as int - '0' as int + 52)
    else if c == '+' then Some(62)
    else if c == '/' then Some(63)
    else None
  }

  /** Decodes one four-character group; padding may only stand in the last two places. */
  function DecodeQuantum(q: string): (r: Option<seq<byte>>)
    requires |q| == 4
  {
    var (s0, s1, s2, s3) := (SextetOf(q[0]), SextetOf(q[1]), SextetOf(q[2]), SextetOf(q[3]));
    if s0.None? || s1.None? then None
    else if s2.Some? && s3.Some? then
      var n := s0.value * 262144 + s1.value * 4096 + s2.value * 64 + s3.value;
      Some([n / 65536 % 256, n / 256 % 256, n % 256])
    else if s2.Some? && q[3] == '=' then
      var n := s0.value * 262144 + s1.value * 4096 + s2.value * 64;
      Some([n / 65536 % 256, n / 256 % 256])
    else if q[2] == '=' && q[3] == '=' then
      var n := s0.value * 262144 + s1.value * 4096;
      Some([n / 65536 % 256])
    else None
  }

  function Decode(text: string): (r: Option<seq<byte>>)
  {
    if text == "" then Some([])
    else if |text| < 4 then None
    else
      match DecodeQuantum(text[..4])
      case None => None
      case Some(head) =>
        match Decode(text[4..])
        case None => None
        case Some(tail) => Some(head + tail)
  }

  lemma SymbolInverse(s: int)
    requires 0 <= s < 64
    ensures SextetOf(Symbol(s)) == Some(s) && Symbol(s) != '='
  {
  }

  lemma UnpackGroup(b0: byte, b1: byte, b2: byte)
    ensures var n := b0 as int * 65536 + b1 as int * 256 + b2 as int;
            n / 65536 == b0 && n / 256 % 256 == b1 && n % 256 == b2 && n / 65536 % 256 == b0
  {
    var n := b0 as int * 65536 + b1 as int * 256 + b2 as int;
    assert n / 256 == b0 as int * 256 + b1;
  }

  lemma RejoinSextets(n: int)
    requires 0 <= n < 0x100_0000
    ensures n / 262144 * 262144 + n / 4096 % 64 * 4096 + n / 64 % 64 * 64 + n % 64 == n
    ensures 0 <= n / 262144 < 64
  {
    var (a, b, c) := (n / 64, n / 4096, n / 262144);
    assert a / 64 == b && b / 64 == c;
    assert n == 64 * a + n % 64 && a == 64 * b + a % 64 && b == 64 * c + b % 64;
  }

  /** Groups that came from fewer than three bytes have zero in the sextets that are padded. */
  lemma ShortGroups(k: int)
    ensures k * 256 % 64 == 0
    ensures k * 65536 / 64 % 64 == 0
  {
    assert k * 256 == 64 * (4 * k);
    assert k * 65536 == 64 * (64 * (16 * k));
  }

  lemma QuantumRoundTrip(chunk: seq<byte>)
    requires 1 <= |chunk| <= 3
    ensures DecodeQuantum(Quantum(chunk)) == Some(chunk)
  {
    var n := Pack(chunk);
    SymbolInverse(n / 262144);
    SymbolInverse(n / 4096 % 64);
    SymbolInverse(n / 64 % 64);
    SymbolInverse(n % 64);
    RejoinSextets(n);
    UnpackGroup(chunk[0], if |chunk| > 1 then chunk[1] else 0, if |chunk| > 2 then chunk[2] else 0);
    if |chunk| == 1 {
      assert n == chunk[0] as int * 65536 == chunk[0] as int * 256 * 256;
      ShortGroups(chunk[0]);
      ShortGroups(chunk[0] as int * 256);
      assert chunk == [chunk[0]];
    } else if |chunk| == 2 {
      assert n == (chunk[0] as int * 256 + chunk[1]) * 256;
      ShortGroups(chunk[0] as int * 256 + chunk[1]);
      assert chunk == [chunk[0], chunk[1]];
    } else {
      assert chunk == [chunk[0], chunk[1], chunk[2]];
    }
  }

  /** Every byte string is recovered from its encoding. */
  lemma {:induction false} DecodeEncode(input: seq<byte>)
    ensures Decode(Encode(input)) == Some(input)
  {
    if input != [] {
      var k := Min(3, |input|);
      QuantumRoundTrip(input[..k]);
      DecodeEncode(input[k..]);
      var e := Encode(input);
      assert e[..4] == Quantum(input[..k]) && e[4..] == Encode(input[k..]);
      assert input == input[..k] + input[k..];
    }
  }

  lemma QuantumPadding(chunk: seq<byte>)
    requires 1 <= |chunk| <= 3
    ensures |Quantum(chunk)| == 4
    ensures forall i :: 0 <= i < 4 ==> (Quantum(chunk)[i] == '=' <==> |chunk| < i)
    ensures |chunk| == 3 ==> Padded(Quantum(chunk), 0)
  {
    var n := Pack(chunk);
    SymbolInverse(n / 262144);
    SymbolInverse(n / 4096 % 64);
    SymbolInverse(n / 64 % 64);
    SymbolInverse(n % 64);
  }

  /** `=` stands exactly in the last `pad` places. */
  predicate Padded(text: string, pad: nat)
  {
    forall i :: 0 <= i < |text| ==> (text[i] == '=' <==> |text| - pad <= i)
  }

  lemma PaddedAfter(plain: string, text: string, pad: nat)
    requires Padded(plain, 0) && Padded(text, pad) && pad <= |text|
    ensures Padded(plain + text, pad)
  {
  }

  lemma EncodeStep(input: seq<byte>)
    ensures 1 <= |input| <= 3 ==> Encode(input) == Quantum(input)
    ensures |input| > 3 ==> Encode(input) == Quantum(input[..3]) + Encode(input[3..])
  {
    if 1 <= |input| <= 3 {
      assert input[..|input|] == input && input[|input|..] == [];
      assert Encode([]) == "";
    }
  }

  /** How many `=` an input of `n` bytes needs. */
  function Pad(n: nat): nat
  {
    (3 - n % 3) % 3
  }

  lemma ShapeStep(e: string, q: string, rest: string, n: nat)
    requires e == q + rest && |q| == 4 && Padded(q, 0) && n > 3
    requires |rest| == (n - 3 + 2) / 3 * 4 && Padded(rest, Pad(n - 3))
    ensures |e| == (n + 2) / 3 * 4 && Padded(e, Pad(n))
  {
    assert Pad(n) == Pad(n - 3) <= 2 && |rest| >= 4;
    PaddedAfter(q, rest, Pad(n));
  }

  lemma ShapeShort(q: string, n: nat)
    requires |q| == 4 && 1 <= n <= 3 && forall i :: 0 <= i < 4 ==> (q[i] == '=' <==> n < i)
    ensures |q| == (n + 2) / 3 * 4 && Padded(q, Pad(n))
  {
    assert Pad(n) == 3 - n;
  }

  /** Four characters per started group, and padding exactly in the places n mod 3 leaves over. */
  lemma {:induction false} EncodeShape(input: seq<byte>)
    ensures |Encode(input)| == (|input| + 2) / 3 * 4
    ensures Padded(Encode(input), Pad(|input|))
  {
    EncodeStep(input);
    if |input| > 3 {
      EncodeShape(input[3..]);
      QuantumPadding(input[..3]);
      ShapeStep(Encode(input), Quantum(input[..3]), Encode(input[3..]), |input|);
    } else if input != [] {
      QuantumPadding(input);
      ShapeShort(Encode(input), |input|);
    }
  }

  /** Different inputs have different encodings. */
  lemma EncodeInjective(a: seq<byte>, b: seq<byte>)
    requires Encode(a) == Encode(b)
    ensures a == b
  {
    DecodeEncode(a);
    DecodeEncode(b);
  }
}
