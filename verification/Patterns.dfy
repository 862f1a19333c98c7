/**
 * `src/parse.rs`: the two regular expressions of the scanner, as data with the leftmost-first,
 * ordered-choice meaning of the `regex` crate.
 */
module Patterns {
  import opened Prelude

  // ----- regular expressions -----

  datatype Class = Digit | Range(lo: char, hi: char)
  {
    /** `\d` is Unicode: `nd` says which characters beyond ASCII are decimal digits. */
    predicate Has(c: char, nd: char -> bool)
    {
      match this
      case Digit => '0' <= c <= '9' || (c as int >= 128 && nd(c))
      case Range(lo, hi) => lo <= c <= hi
    }
  }

  datatype Regex = One(chars: Class) | Cat(first: Regex, second: Regex) | Alt(left: Regex, right: Regex) | Opt(r: Regex)

  /** Every way to match `r` at `i`, as end positions, most preferred first. */
  function Ends(r: Regex, s: string, i: nat, nd: char -> bool): (ends: seq<nat>)
    requires i <= |s|
    ensures forall k :: 0 <= k < |ends| ==> i <= ends[k] <= |s|
    decreases r, 0, |s|
  {
    match r
    case One(chars) => if i < |s| && chars.Has(s[i], nd) then [i + 1] else []
    case Cat(a, b) => EndsAfter(b, s, Ends(a, s, i, nd), i, nd)
    case Alt(a, b) => Ends(a, s, i, nd) + Ends(b, s, i, nd)
    case Opt(a) => Ends(a, s, i, nd) + [i]
  }

  /** The matches of `r` that continue the given ends, in order. */
  function EndsAfter(r: Regex, s: string, starts: seq<nat>, i: nat, nd: char -> bool): (ends: seq<nat>)
    requires i <= |s| && forall k :: 0 <= k < |starts| ==> i <= starts[k] <= |s|
    ensures forall k :: 0 <= k < |ends| ==> i <= ends[k] <= |s|
    decreases r, |starts| + 1, |s|
  {
    if starts == [] then [] else Ends(r, s, starts[0], nd) + EndsAfter(r, s, starts[1..], i, nd)
  }

  /** The preferred match at `i`. */
  function MatchAt(r: Regex, s: string, i: nat, nd: char -> bool): (end: Option<nat>)
    requires i <= |s|
    ensures end.Some? ==> i <= end.value <= |s|
  {
    var ends := Ends(r, s, i, nd);
    if ends == [] then None else Some(ends[0])
  }

  // ----- the two patterns -----

  const D := One(Digit)

  function Chr(c: char): Regex { One(Range(c, c)) }

  const DOT := Chr('.')

  /** `25[0-5]`, `2[0-4]\d` and `[01]?\d\d?`, tried in this order. */
  const OCTET_250: Regex := Cat(Chr('2'), Cat(Chr('5'), One(Range('0', '5'))))
  const OCTET_200: Regex := Cat(Chr('2'), Cat(One(Range('0', '4')), D))
  const OCTET_000: Regex := Cat(Opt(One(Range('0', '1'))), Cat(D, Opt(D)))
  const OCTET: Regex := Alt(OCTET_250, Alt(OCTET_200, OCTET_000))
  const GROUP: Regex := Cat(OCTET, DOT)
  const IPV4: Regex := Cat(GROUP, Cat(GROUP, Cat(GROUP, OCTET)))

  /** `\d{2,5}`, greedy. */
  const PORT: Regex := Cat(D, Cat(D, Opt(Cat(D, Opt(Cat(D, Opt(D)))))))

  predicate DigitAt(s: string, i: nat, nd: char -> bool)
  {
    i < |s| && Digit.Has(s[i], nd)
  }

  predicate DigitsIn(s: string, i: nat, j: nat, nd: char -> bool)
  {
    forall k :: i <= k < j ==> DigitAt(s, k, nd)
  }

  // ----- what the patterns match -----

  /** One more step of `EndsAfter`. */
  lemma {:induction false} EndsAfterMember(r: Regex, s: string, starts: seq<nat>, i: nat, nd: char -> bool, e: nat)
    requires i <= |s| && forall k :: 0 <= k < |starts| ==> i <= starts[k] <= |s|
    requires e in EndsAfter(r, s, starts, i, nd)
    ensures exists k :: 0 <= k < |starts| && e in Ends(r, s, starts[k], nd)
  {
    if e !in Ends(r, s, starts[0], nd) {
      EndsAfterMember(r, s, starts[1..], i, nd, e);
      var k :| 0 <= k < |starts[1..]| && e in Ends(r, s, starts[1..][k], nd);
      assert starts[1..][k] == starts[k + 1];
    }
  }

  /** A match of a concatenation splits in two. */
  lemma CatSplit(a: Regex, b: Regex, s: string, i: nat, nd: char -> bool, e: nat) returns (m: nat)
    requires i <= |s| && e in Ends(Cat(a, b), s, i, nd)
    ensures i <= m <= |s| && m in Ends(a, s, i, nd) && e in Ends(b, s, m, nd)
  {
    var starts := Ends(a, s, i, nd);
    EndsAfterMember(b, s, starts, i, nd, e);
    var k :| 0 <= k < |starts| && e in Ends(b, s, starts[k], nd);
    m := starts[k];
  }

  lemma OneEnds(c: Class, s: string, i: nat, nd: char -> bool, e: nat)
    requires i <= |s| && e in Ends(One(c), s, i, nd)
    ensures i < |s| && c.Has(s[i], nd) && e == i + 1
  {
  }

  /** `r` matches between `lo` and `hi` characters, all of them digits. */
  ghost predicate Digital(r: Regex, lo: nat, hi: nat)
  {
    forall s: string, i: nat, nd: char -> bool, e: nat | i <= |s| && e in Ends(r, s, i, nd) ::
      i + lo <= e <= i + hi && DigitsIn(s, i, e, nd)
  }

  lemma OneDigital(c: Class)
    requires c == Digit || (c.Range? && '0' <= c.lo && c.hi <= '9')
    ensures Digital(One(c), 1, 1)
  {
  }

  lemma OptDigital(r: Regex, lo: nat, hi: nat)
    requires Digital(r, lo, hi)
    ensures Digital(Opt(r), 0, hi)
  {
  }

  lemma AltDigital(a: Regex, b: Regex, lo: nat, hi: nat)
    requires Digital(a, lo, hi) && Digital(b, lo, hi)
    ensures Digital(Alt(a, b), lo, hi)
  {
  }

  lemma CatDigital(a: Regex, b: Regex, alo: nat, ahi: nat, blo: nat, bhi: nat)
    requires Digital(a, alo, ahi) && Digital(b, blo, bhi)
    ensures Digital(Cat(a, b), alo + blo, ahi + bhi)
  {
    forall s: string, i: nat, nd: char -> bool, e: nat | i <= |s| && e in Ends(Cat(a, b), s, i, nd)
      ensures i + alo + blo <= e <= i + ahi + bhi && DigitsIn(s, i, e, nd)
    {
      var _ := CatSplit(a, b, s, i, nd, e);
    }
  }

  lemma OctetDigital()
    ensures Digital(OCTET, 1, 3)
  {
    OneDigital(Digit);
    OneDigital(Range('2', '2'));
    OneDigital(Range('5', '5'));
    OneDigital(Range('0', '5'));
    OneDigital(Range('0', '4'));
    OneDigital(Range('0', '1'));
    CatDigital(Chr('5'), One(Range('0', '5')), 1, 1, 1, 1);
    CatDigital(Chr('2'), Cat(Chr('5'), One(Range('0', '5'))), 1, 1, 2, 2);
    CatDigital(One(Range('0', '4')), D, 1, 1, 1, 1);
    CatDigital(Chr('2'), Cat(One(Range('0', '4')), D), 1, 1, 2, 2);
    OptDigital(One(Range('0', '1')), 1, 1);
    OptDigital(D, 1, 1);
    CatDigital(D, Opt(D), 1, 1, 0, 1);
    CatDigital(Opt(One(Range('0', '1'))), Cat(D, Opt(D)), 0, 1, 1, 2);
    assert Digital(OCTET_250, 1, 3);
    assert Digital(OCTET_200, 1, 3);
    AltDigital(OCTET_200, OCTET_000, 1, 3);
    AltDigital(OCTET_250, Alt(OCTET_200, OCTET_000), 1, 3);
  }

  /** A port is two to five digits. */
  lemma PortDigital()
    ensures Digital(PORT, 2, 5)
  {
    OneDigital(Digit);
    OptDigital(D, 1, 1);
    CatDigital(D, Opt(D), 1, 1, 0, 1);
    OptDigital(Cat(D, Opt(D)), 1, 2);
    CatDigital(D, Opt(Cat(D, Opt(D))), 1, 1, 0, 2);
    OptDigital(Cat(D, Opt(Cat(D, Opt(D)))), 1, 3);
    CatDigital(D, Opt(Cat(D, Opt(Cat(D, Opt(D))))), 1, 1, 0, 3);
    CatDigital(D, Cat(D, Opt(Cat(D, Opt(Cat(D, Opt(D)))))), 1, 1, 1, 4);
  }

  lemma DottedShape(r: Regex, lo: nat, hi: nat, s: string, i: nat, nd: char -> bool, e: nat)
    requires Digital(r, lo, hi) && i <= |s| && e in Ends(Cat(r, DOT), s, i, nd)
    ensures i + lo + 1 <= e <= i + hi + 1 && DigitsIn(s, i, e - 1, nd) && e <= |s| && s[e - 1] == '.'
  {
    var m := CatSplit(r, DOT, s, i, nd, e);
    OneEnds(Range('.', '.'), s, m, nd, e);
  }

  lemma GroupProgress(s: string, i: nat, nd: char -> bool, e: nat)
    requires i <= |s| && e in Ends(GROUP, s, i, nd)
    ensures i + 2 <= e <= i + 4 && e <= |s| && DigitsIn(s, i, e - 1, nd) && s[e - 1] == '.'
  {
    OctetDigital();
    DottedShape(OCTET, 1, 3, s, i, nd, e);
  }

  /** An address begins with one to three digits and a dot, and is never empty. */
  lemma AddressShape(s: string, i: nat, nd: char -> bool, e: nat)
    requires i <= |s| && e in Ends(IPV4, s, i, nd)
    ensures exists d :: i < d <= i + 3 && d < e && DigitsIn(s, i, d, nd) && s[d] == '.'
  {
    var m := CatSplit(GROUP, Cat(GROUP, Cat(GROUP, OCTET)), s, i, nd, e);
    GroupProgress(s, i, nd, m);
    var m' := CatSplit(GROUP, Cat(GROUP, OCTET), s, m, nd, e);
    assert i < m - 1 <= i + 3 && m - 1 < e;
  }

  /** Where a pattern matches in a text, as a function of the start. */
  function Matcher(r: Regex, s: string, nd: char -> bool): nat -> Option<nat>
  {
    (i: nat) => if i <= |s| then MatchAt(r, s, i, nd) else None
  }

  /** Both patterns stay in the text and take at least one character. */
  lemma PatternsAdvance(s: string, nd: char -> bool, i: nat)
    ensures var e := Matcher(IPV4, s, nd)(i); e.Some? ==> i < e.value <= |s|
    ensures var e := Matcher(PORT, s, nd)(i);
            e.Some? ==> i + 2 <= e.value <= i + 5 && e.value <= |s| && DigitsIn(s, i, e.value, nd)
  {
    PortDigital();
    if i <= |s| {
      if MatchAt(IPV4, s, i, nd).Some? { AddressShape(s, i, nd, MatchAt(IPV4, s, i, nd).value); }
      if MatchAt(PORT, s, i, nd).Some? { assert MatchAt(PORT, s, i, nd).value in Ends(PORT, s, i, nd); }
    }
  }

  // ----- matching a written address or port -----

  lemma CatOne(c: Class, b: Regex, s: string, i: nat, nd: char -> bool)
    requires i <= |s|
    ensures Ends(Cat(One(c), b), s, i, nd) == if i < |s| && c.Has(s[i], nd) then Ends(b, s, i + 1, nd) else []
  {
    if i < |s| && c.Has(s[i], nd) {
      assert Ends(One(c), s, i, nd) == [i + 1];
      assert EndsAfter(b, s, [i + 1], i, nd) == Ends(b, s, i + 1, nd) + EndsAfter(b, s, [i + 1][1..], i, nd);
    }
  }

  lemma AfterOne(b: Regex, s: string, i: nat, from: nat, nd: char -> bool)
    requires i <= from <= |s|
    ensures EndsAfter(b, s, [from], i, nd) == Ends(b, s, from, nd)
  {
    assert [from][1..] == [];
    assert EndsAfter(b, s, [], i, nd) == [];
  }

  lemma AfterTwo(b: Regex, s: string, i: nat, from: nat, nd: char -> bool)
    requires i <= from <= |s|
    ensures EndsAfter(b, s, [from, i], i, nd) == Ends(b, s, from, nd) + Ends(b, s, i, nd)
  {
    assert [from, i][1..] == [i];
    AfterOne(b, s, i, i, nd);
  }

  lemma CatOptOne(c: Class, b: Regex, s: string, i: nat, nd: char -> bool)
    requires i <= |s|
    ensures Ends(Cat(Opt(One(c)), b), s, i, nd)
            == (if i < |s| && c.Has(s[i], nd) then Ends(b, s, i + 1, nd) else []) + Ends(b, s, i, nd)
  {
    var starts := Ends(Opt(One(c)), s, i, nd);
    assert starts == Ends(One(c), s, i, nd) + [i];
    if i < |s| && c.Has(s[i], nd) {
      assert starts == [i + 1, i];
      AfterTwo(b, s, i, i + 1, nd);
    } else {
      assert starts == [i];
      AfterOne(b, s, i, i, nd);
    }
  }

  lemma AltFirst(a: Regex, b: Regex, c: Regex, s: string, i: nat, nd: char -> bool, m: nat)
    requires i <= |s|
    requires Ends(a, s, i, nd) == [m] || Ends(a, s, i, nd) == []
    requires Ends(b, s, i, nd) == [m] || Ends(b, s, i, nd) == []
    requires Ends(a, s, i, nd) + Ends(b, s, i, nd) == [] ==> Ends(c, s, i, nd) != [] && Ends(c, s, i, nd)[0] == m
    ensures Ends(Alt(a, Alt(b, c)), s, i, nd) != [] && Ends(Alt(a, Alt(b, c)), s, i, nd)[0] == m
  {
    assert Ends(Alt(a, Alt(b, c)), s, i, nd) == Ends(a, s, i, nd) + (Ends(b, s, i, nd) + Ends(c, s, i, nd));
  }

  lemma {:induction false} EndsAfterFirst(r: Regex, s: string, starts: seq<nat>, i: nat, nd: char -> bool, m: nat)
    requires i <= |s| && forall k :: 0 <= k < |starts| ==> i <= starts[k] <= |s|
    requires m in starts && Ends(r, s, m, nd) != []
    requires forall k :: 0 <= k < |starts| && starts[k] != m ==> Ends(r, s, starts[k], nd) == []
    ensures EndsAfter(r, s, starts, i, nd) != []
    ensures EndsAfter(r, s, starts, i, nd)[0] == Ends(r, s, m, nd)[0]
  {
    if starts[0] != m {
      assert forall k :: 0 <= k < |starts[1..]| ==> starts[1..][k] == starts[k + 1];
      EndsAfterFirst(r, s, starts[1..], i, nd, m);
    }
  }

  /** If only one way of matching `a` can be continued, it decides. */
  lemma CatFirst(a: Regex, b: Regex, s: string, i: nat, nd: char -> bool, m: nat)
    requires i <= m <= |s| && m in Ends(a, s, i, nd) && Ends(b, s, m, nd) != []
    requires forall e | e in Ends(a, s, i, nd) && e != m :: Ends(b, s, e, nd) == []
    ensures Ends(Cat(a, b), s, i, nd) != [] && Ends(Cat(a, b), s, i, nd)[0] == Ends(b, s, m, nd)[0]
  {
    EndsAfterFirst(b, s, Ends(a, s, i, nd), i, nd, m);
  }

  /** One to three ASCII digits, at most 255 if three; leading zeros are allowed. */
  predicate IsOctet(o: string)
  {
    && 1 <= |o| <= 3
    && (forall k :: 0 <= k < |o| ==> '0' <= o[k] <= '9')
    && (|o| == 3 ==> o[0] <= '1' || (o[0] == '2' && (o[1] <= '4' || (o[1] == '5' && o[2] <= '5'))))
  }

  predicate StandsAt(s: string, i: nat, t: string)
  {
    i + |t| <= |s| && s[i..i + |t|] == t
  }

  lemma DigitsStand(s: string, i: nat, t: string, nd: char -> bool)
    requires StandsAt(s, i, t) && forall k :: 0 <= k < |t| ==> '0' <= t[k] <= '9'
    ensures DigitsIn(s, i, i + |t|, nd) && forall k :: 0 <= k < |t| ==> s[i + k] == t[k]
  {
    forall k | 0 <= k < |t| ensures s[i + k] == t[k] {
      assert s[i..i + |t|][k] == t[k];
    }
    forall k | i <= k < i + |t| ensures DigitAt(s, k, nd) {
      assert s[i + (k - i)] == t[k - i];
    }
  }

  lemma OneOrTwoEnds(s: string, i: nat, nd: char -> bool)
    requires i <= |s|
    ensures var ends := Ends(Cat(D, Opt(D)), s, i, nd);
            if !DigitAt(s, i, nd) then ends == []
            else if DigitAt(s, i + 1, nd) then ends == [i + 2, i + 1]
            else ends == [i + 1]
  {
    CatOne(Digit, Opt(D), s, i, nd);
  }

  lemma Octet000First(s: string, i: nat, len: nat, nd: char -> bool)
    requires 1 <= len <= 3 && i + len <= |s| && DigitsIn(s, i, i + len, nd) && !DigitAt(s, i + len, nd)
    requires len == 3 ==> '0' <= s[i] <= '1'
    ensures Ends(OCTET_000, s, i, nd) != [] && Ends(OCTET_000, s, i, nd)[0] == i + len
  {
    assert DigitAt(s, i, nd) && (len > 1 ==> DigitAt(s, i + 1, nd)) && (len > 2 ==> DigitAt(s, i + 2, nd));
    OneOrTwoEnds(s, i, nd);
    OneOrTwoEnds(s, i + 1, nd);
    CatOptOne(Range('0', '1'), Cat(D, Opt(D)), s, i, nd);
  }

  lemma Octet250Ends(s: string, i: nat, nd: char -> bool)
    requires i <= |s|
    ensures Ends(OCTET_250, s, i, nd)
            == if i + 2 < |s| && s[i] == '2' && s[i + 1] == '5' && '0' <= s[i + 2] <= '5' then [i + 3] else []
  {
    CatOne(Range('2', '2'), Cat(Chr('5'), One(Range('0', '5'))), s, i, nd);
    if i < |s| { CatOne(Range('5', '5'), One(Range('0', '5')), s, i + 1, nd); }
  }

  lemma Octet200Ends(s: string, i: nat, nd: char -> bool)
    requires i <= |s|
    ensures Ends(OCTET_200, s, i, nd)
            == if i + 2 < |s| && s[i] == '2' && '0' <= s[i + 1] <= '4' && DigitAt(s, i + 2, nd) then [i + 3] else []
  {
    CatOne(Range('2', '2'), Cat(One(Range('0', '4')), D), s, i, nd);
    if i < |s| { CatOne(Range('0', '4'), D, s, i + 1, nd); }
  }

  lemma OctetCases(s: string, i: nat, o: string, nd: char -> bool)
    requires IsOctet(o) && StandsAt(s, i, o) && !DigitAt(s, i + |o|, nd)
    ensures Ends(OCTET_250, s, i, nd) == [i + |o|] || Ends(OCTET_250, s, i, nd) == []
    ensures Ends(OCTET_200, s, i, nd) == [i + |o|] || Ends(OCTET_200, s, i, nd) == []
    ensures Ends(OCTET_250, s, i, nd) == [] == Ends(OCTET_200, s, i, nd) ==> |o| < 3 || o[0] <= '1'
  {
    DigitsStand(s, i, o, nd);
    Octet250Ends(s, i, nd);
    Octet200Ends(s, i, nd);
    assert s[i + 0] == o[0] && (|o| > 1 ==> s[i + 1] == o[1]) && (|o| > 2 ==> s[i + 2] == o[2]);
    assert |o| > 2 ==> DigitAt(s, i + 2, nd);
  }

  /** A written octet is matched whole. */
  lemma OctetFirst(s: string, i: nat, o: string, nd: char -> bool)
    requires IsOctet(o) && StandsAt(s, i, o) && !DigitAt(s, i + |o|, nd)
    ensures Ends(OCTET, s, i, nd) != [] && Ends(OCTET, s, i, nd)[0] == i + |o|
  {
    OctetCases(s, i, o, nd);
    if |o| < 3 || o[0] <= '1' {
      PlainOctet(s, i, o, nd);
    }
    AltFirst(OCTET_250, OCTET_200, OCTET_000, s, i, nd, i + |o|);
  }

  lemma PlainOctet(s: string, i: nat, o: string, nd: char -> bool)
    requires IsOctet(o) && StandsAt(s, i, o) && !DigitAt(s, i + |o|, nd)
    requires |o| < 3 || o[0] <= '1'
    ensures Ends(OCTET_000, s, i, nd) != [] && Ends(OCTET_000, s, i, nd)[0] == i + |o|
  {
    DigitsStand(s, i, o, nd);
    assert s[i + 0] == o[0];
    Octet000First(s, i, |o|, nd);
  }

  /** A written octet and its dot can be matched one way only. */
  lemma GroupOnly(s: string, i: nat, o: string, nd: char -> bool)
    requires IsOctet(o) && StandsAt(s, i, o + ".")
    ensures i + |o| + 1 in Ends(GROUP, s, i, nd)
    ensures forall e | e in Ends(GROUP, s, i, nd) :: e == i + |o| + 1
  {
    var end := i + |o|;
    assert s[i..end] == (s[i..end + 1])[..|o|] == o;
    assert s[end] == (s[i..end + 1])[|o|] == '.';
    OctetFirst(s, i, o, nd);
    DigitsStand(s, i, o, nd);
    OctetDigital();
    DotAfter(OCTET, s, i, nd, end);
  }

  lemma DotAfter(r: Regex, s: string, i: nat, nd: char -> bool, end: nat)
    requires i <= end < |s| && Digital(r, 1, 3) && end in Ends(r, s, i, nd) && s[end] == '.'
    requires DigitsIn(s, i, end, nd)
    ensures end + 1 in Ends(Cat(r, DOT), s, i, nd)
    ensures forall e | e in Ends(Cat(r, DOT), s, i, nd) :: e == end + 1
  {
    forall m | m in Ends(r, s, i, nd) && m != end ensures Ends(DOT, s, m, nd) == [] {
      assert DigitsIn(s, i, m, nd) && !DigitAt(s, end, nd);
      assert m <= end;
      assert DigitAt(s, m, nd);
    }
    assert Ends(DOT, s, end, nd) == [end + 1];
    CatFirst(r, DOT, s, i, nd, end);
    forall e | e in Ends(Cat(r, DOT), s, i, nd) ensures e == end + 1 {
      var m := CatSplit(r, DOT, s, i, nd, e);
      OneEnds(Range('.', '.'), s, m, nd, e);
    }
  }

  /** The dotted text of four octets. */
  function Dotted(a: string, b: string, c: string, d: string): string
  {
    a + "." + (b + "." + (c + "." + d))
  }

  lemma StandsSplit(s: string, i: nat, t: string, u: string)
    requires StandsAt(s, i, t + u)
    ensures StandsAt(s, i, t) && StandsAt(s, i + |t|, u)
  {
    assert s[i..i + |t|] == (s[i..i + |t| + |u|])[..|t|];
    assert s[i + |t|..i + |t| + |u|] == (s[i..i + |t| + |u|])[|t|..];
  }

  /** An octet and its dot, then whatever `rest` matches after them. */
  lemma GroupThen(rest: Regex, s: string, i: nat, o: string, t: string, nd: char -> bool, end: nat)
    requires IsOctet(o) && StandsAt(s, i, o + "." + t)
    requires MatchAt(rest, s, i + |o| + 1, nd) == Some(end)
    ensures MatchAt(Cat(GROUP, rest), s, i, nd) == Some(end)
  {
    StandsSplit(s, i, o + ".", t);
    GroupOnly(s, i, o, nd);
    CatFirst(GROUP, rest, s, i, nd, i + |o| + 1);
  }

  /** A written address is matched whole, if no digit follows it. */
  lemma AddressMatched(s: string, i: nat, a: string, b: string, c: string, d: string, nd: char -> bool)
    requires IsOctet(a) && IsOctet(b) && IsOctet(c) && IsOctet(d)
    requires StandsAt(s, i, Dotted(a, b, c, d)) && !DigitAt(s, i + |Dotted(a, b, c, d)|, nd)
    ensures MatchAt(IPV4, s, i, nd) == Some(i + |Dotted(a, b, c, d)|)
  {
    var tail := b + "." + (c + "." + d);
    StandsSplit(s, i, a + ".", tail);
    TailMatched(s, i + |a| + 1, b, c, d, nd);
    GroupThen(Cat(GROUP, Cat(GROUP, OCTET)), s, i, a, tail, nd, i + |Dotted(a, b, c, d)|);
  }

  lemma OctetMatched(s: string, i: nat, o: string, nd: char -> bool)
    requires IsOctet(o) && StandsAt(s, i, o) && !DigitAt(s, i + |o|, nd)
    ensures MatchAt(OCTET, s, i, nd) == Some(i + |o|)
  {
    OctetFirst(s, i, o, nd);
  }

  /** The last two groups. */
  lemma PairMatched(s: string, k: nat, c: string, d: string, nd: char -> bool)
    requires IsOctet(c) && IsOctet(d)
    requires StandsAt(s, k, c + "." + d) && !DigitAt(s, k + |c| + 1 + |d|, nd)
    ensures MatchAt(Cat(GROUP, OCTET), s, k, nd) == Some(k + |c| + 1 + |d|)
  {
    StandsSplit(s, k, c + ".", d);
    OctetMatched(s, k + |c| + 1, d, nd);
    GroupThen(OCTET, s, k, c, d, nd, k + |c| + 1 + |d|);
  }

  lemma TailMatched(s: string, j: nat, b: string, c: string, d: string, nd: char -> bool)
    requires IsOctet(b) && IsOctet(c) && IsOctet(d)
    requires StandsAt(s, j, b + "." + (c + "." + d)) && !DigitAt(s, j + |b + "." + (c + "." + d)|, nd)
    ensures MatchAt(Cat(GROUP, Cat(GROUP, OCTET)), s, j, nd) == Some(j + |b + "." + (c + "." + d)|)
  {
    StandsSplit(s, j, b + ".", c + "." + d);
    var k := j + |b| + 1;
    PairMatched(s, k, c, d, nd);
    GroupThen(Cat(GROUP, OCTET), s, j, b, c + "." + d, nd, k + |c| + 1 + |d|);
  }

  /** How many of the next `max` characters are digits, from the left. */
  function Run(s: string, i: nat, max: nat, nd: char -> bool): (n: nat)
    requires i <= |s|
    ensures n <= max && i + n <= |s|
    decreases max
  {
    if max == 0 || !DigitAt(s, i, nd) then 0 else 1 + Run(s, i + 1, max - 1, nd)
  }

  /** `r` takes as many digits as it can, up to `max`, and needs none. */
  ghost predicate Greedy(r: Regex, max: nat)
  {
    forall s: string, i: nat, nd: char -> bool | i <= |s| :: MatchAt(r, s, i, nd) == Some(i + Run(s, i, max, nd))
  }

  lemma OptMatch(r: Regex, s: string, i: nat, nd: char -> bool)
    requires i <= |s|
    ensures MatchAt(Opt(r), s, i, nd) == if MatchAt(r, s, i, nd).Some? then MatchAt(r, s, i, nd) else Some(i)
  {
    assert Ends(Opt(r), s, i, nd) == Ends(r, s, i, nd) + [i];
  }

  /** One digit more, before a pattern that needs `least` of the next `max` digits and takes them all. */
  lemma DigitThen(r: Regex, max: nat, least: nat, s: string, i: nat, nd: char -> bool)
    requires i <= |s|
    requires DigitAt(s, i, nd) ==>
               var n := Run(s, i + 1, max, nd);
               MatchAt(r, s, i + 1, nd) == if n >= least then Some(i + 1 + n) else None
    ensures var n := Run(s, i, max + 1, nd);
            MatchAt(Cat(D, r), s, i, nd) == if n >= least + 1 then Some(i + n) else None
  {
    CatOne(Digit, r, s, i, nd);
  }

  lemma OneThen(r: Regex, max: nat, s: string, i: nat, nd: char -> bool)
    requires Greedy(r, max) && i <= |s|
    ensures var n := Run(s, i, max + 1, nd);
            MatchAt(Cat(D, r), s, i, nd) == if n >= 1 then Some(i + n) else None
  {
    if DigitAt(s, i, nd) {
      assert MatchAt(r, s, i + 1, nd) == Some(i + 1 + Run(s, i + 1, max, nd));
    }
    DigitThen(r, max, 0, s, i, nd);
  }

  lemma GreedyMore(r: Regex, max: nat)
    requires Greedy(r, max)
    ensures Greedy(Opt(Cat(D, r)), max + 1)
  {
    forall s: string, i: nat, nd: char -> bool | i <= |s|
      ensures MatchAt(Opt(Cat(D, r)), s, i, nd) == Some(i + Run(s, i, max + 1, nd))
    {
      OptMatch(Cat(D, r), s, i, nd);
      OneThen(r, max, s, i, nd);
    }
  }

  lemma GreedyOne()
    ensures Greedy(Opt(D), 1)
  {
    forall s: string, i: nat, nd: char -> bool | i <= |s|
      ensures MatchAt(Opt(D), s, i, nd) == Some(i + Run(s, i, 1, nd))
    {
      OptMatch(D, s, i, nd);
      assert DigitAt(s, i, nd) ==> Run(s, i + 1, 0, nd) == 0;
    }
  }

  /** A port matches where two digits start, and takes up to five. */
  lemma PortMatched(s: string, i: nat, nd: char -> bool)
    requires i <= |s|
    ensures var n := Run(s, i, 5, nd); MatchAt(PORT, s, i, nd) == if n >= 2 then Some(i + n) else None
  {
    var r := Opt(Cat(D, Opt(Cat(D, Opt(D)))));
    GreedyOne();
    GreedyMore(Opt(D), 1);
    GreedyMore(Opt(Cat(D, Opt(D))), 2);
    assert Greedy(r, 3);
    TwoThen(r, 3, s, i, nd);
  }

  lemma TwoThen(r: Regex, max: nat, s: string, i: nat, nd: char -> bool)
    requires Greedy(r, max) && i <= |s|
    ensures var n := Run(s, i, max + 2, nd);
            MatchAt(Cat(D, Cat(D, r)), s, i, nd) == if n >= 2 then Some(i + n) else None
  {
    if DigitAt(s, i, nd) { OneThen(r, max, s, i + 1, nd); }
    DigitThen(Cat(D, r), max + 1, 1, s, i, nd);
  }
}
