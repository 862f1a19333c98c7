/** Decimal integers as Rust prints them and as `str::parse::<u16>` reads them. */
module Decimal {
  import opened Prelude

  predicate IsDigit(c: char)
  {
    '0' <= c <= '9'
  }

  predicate AllDigits(s: string)
  {
    forall i :: 0 <= i < |s| ==> IsDigit(s[i])
  }

  function Show(n: nat): (s: string)
    ensures s != "" && AllDigits(s)
  {
    var last := (n % 10 + '0' as int) as char;
    if n < 10 then [last] else Show(n / 10) + [last]
  }

  /** The value of a digit string, most significant digit first. */
  function Value(s: string): nat
    requires AllDigits(s)
  {
    if s == "" then 0 else Value(s[..|s| - 1]) * 10 + (s[|s| - 1] as int - '0' as int)
  }

  /** Digits, optionally after one `+`, up to the limit; anything else is an error. */
  function ParseUpTo(s: string, max: nat): (r: Option<nat>)
    ensures r.Some? ==> r.value <= max
  {
    var digits := if s != "" && s[0] == '+' then s[1..] else s;
    if digits == "" || !AllDigits(digits) || Value(digits) > max then None else Some(Value(digits))
  }

  function ParseU16(s: string): (r: Option<Port>)
  {
    match ParseUpTo(s, U16_MAX)
    case None => None
    case Some(n) => Some(n)
  }

  lemma {:induction false} ValueShow(n: nat)
    ensures Value(Show(n)) == n
  {
    var last := (n % 10 + '0' as int) as char;
    if n < 10 {
      assert [last][..0] == "";
      assert Value([last]) == Value("") * 10 + n;
    } else {
      ValueShow(n / 10);
      assert Show(n)[..|Show(n)| - 1] == Show(n / 10);
    }
  }

  /** A printed port reads back as itself. */
  lemma ParseShow(p: Port)
    ensures ParseU16(Show(p)) == Some(p)
  {
    ValueShow(p);
    assert IsDigit(Show(p)[0]);
  }

  /** A number has as many digits as its size asks for, and no leading zero. */
  lemma {:induction false} ShowWidth(n: nat)
    ensures n < 10 <==> |Show(n)| == 1
    ensures n < 100 <==> |Show(n)| <= 2
    ensures n < 1000 <==> |Show(n)| <= 3
    ensures n < 10000 <==> |Show(n)| <= 4
    ensures n < 100000 <==> |Show(n)| <= 5
    ensures n != 0 ==> Show(n)[0] != '0'
  {
    if n >= 10 {
      ShowWidth(n / 10);
      assert Show(n)[0] == Show(n / 10)[0];
    }
  }
}
