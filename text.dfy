/** String operations the core relies on: ASCII case mapping (`str.upper`, `str.lower`),
    the code-point order MongoDB sorts strings by, `str.replace(p, '')`, Python's `int(str)`
    and the `{n:05d}` format. */
module Text {

  import opened Common

  // ---------------------------------------------------------------- case mapping

  predicate IsLowerAscii(c: char) { 'a' <= c <= 'z' }

  predicate IsUpperAscii(c: char) { 'A' <= c <= 'Z' }

  function UpperChar(c: char): char
  {
    if IsLowerAscii(c) then (c as int - 32) as char else c
  }

  function LowerChar(c: char): char
  {
    if IsUpperAscii(c) then (c as int + 32) as char else c
  }

  /** `s.upper()` for ASCII letters: the result has no lower-case letter and differs
      from `s` only in the case of its letters. */
  function Upper(s: string): (r: string)
    ensures |r| == |s|
    ensures forall i :: 0 <= i < |r| ==> !IsLowerAscii(r[i])
    ensures forall i :: 0 <= i < |r| ==> LowerChar(r[i]) == LowerChar(s[i])
  {
    seq(|s|, i requires 0 <= i < |s| => UpperChar(s[i]))
  }

  /** `s.lower()` for ASCII letters. */
  function Lower(s: string): (r: string)
    ensures |r| == |s|
    ensures forall i :: 0 <= i < |r| ==> !IsUpperAscii(r[i])
    ensures forall i :: 0 <= i < |r| ==> UpperChar(r[i]) == UpperChar(s[i])
  {
    seq(|s|, i requires 0 <= i < |s| => LowerChar(s[i]))
  }

  /** Normalising twice is normalising once. */
  lemma UpperIdempotent(s: string)
    ensures Upper(Upper(s)) == Upper(s)
  {
  }

  lemma LowerIdempotent(s: string)
    ensures Lower(Lower(s)) == Lower(s)
  {
  }

  /** Two strings that differ only in letter case have the same upper-cased form. */
  lemma UpperIgnoresCase(a: string, b: string)
    requires |a| == |b|
    requires forall i :: 0 <= i < |a| ==> LowerChar(a[i]) == LowerChar(b[i])
    ensures Upper(a) == Upper(b)
  {
    forall i | 0 <= i < |a|
      ensures Upper(a)[i] == Upper(b)[i]
    {
      assert UpperChar(a[i]) == UpperChar(LowerChar(a[i]));
      assert UpperChar(b[i]) == UpperChar(LowerChar(b[i]));
    }
  }

  // ---------------------------------------------------------------- ordering

  /** Lexicographic order on code points, the order MongoDB uses to sort strings. */
  predicate LexLeq(a: string, b: string)
  {
    a == [] || (b != [] && (a[0] < b[0] || (a[0] == b[0] && LexLeq(a[1..], b[1..]))))
  }

  lemma {:induction false} LexLeqReflexive(a: string)
    ensures LexLeq(a, a)
  {
    if a != [] {
      LexLeqReflexive(a[1..]);
    }
  }

  lemma {:induction false} LexLeqTotal(a: string, b: string)
    ensures LexLeq(a, b) || LexLeq(b, a)
  {
    if a != [] && b != [] && a[0] == b[0] {
      LexLeqTotal(a[1..], b[1..]);
    }
  }

  lemma {:induction false} LexLeqAntisymmetric(a: string, b: string)
    requires LexLeq(a, b) && LexLeq(b, a)
    ensures a == b
  {
    if a != [] && b != [] {
      LexLeqAntisymmetric(a[1..], b[1..]);
      assert a == [a[0]] + a[1..];
      assert b == [b[0]] + b[1..];
    }
  }

  lemma {:induction false} LexLeqTransitive(a: string, b: string, c: string)
    requires LexLeq(a, b) && LexLeq(b, c)
    ensures LexLeq(a, c)
  {
    if a != [] && b != [] && c != [] && a[0] == b[0] && b[0] == c[0] {
      LexLeqTransitive(a[1..], b[1..], c[1..]);
    }
  }

  /** Every finite non-empty set of strings has a greatest element. */
  lemma {:induction false} GreatestExists(s: set<string>)
    requires s != {}
    ensures exists m :: m in s && forall x :: x in s ==> LexLeq(x, m)
    decreases |s|
  {
    var y :| y in s;
    if s == {y} {
      LexLeqReflexive(y);
      assert forall x :: x in s ==> LexLeq(x, y);
    } else {
      GreatestExists(s - {y});
      var m :| m in s - {y} && forall x :: x in s - {y} ==> LexLeq(x, m);
      LexLeqTotal(y, m);
      if LexLeq(y, m) {
        assert forall x :: x in s ==> LexLeq(x, m);
      } else {
        forall x | x in s
          ensures LexLeq(x, y)
        {
          if x == y {
            LexLeqReflexive(y);
          } else {
            LexLeqTransitive(x, m, y);
          }
        }
      }
    }
  }

  /** Every finite non-empty set of strings has a least element under `key`. */
  lemma {:induction false} LeastByExists<T>(s: set<T>, key: T -> string)
    requires s != {}
    ensures exists m :: m in s && forall x :: x in s ==> LexLeq(key(m), key(x))
    decreases |s|
  {
    var y :| y in s;
    if s == {y} {
      LexLeqReflexive(key(y));
      assert forall x :: x in s ==> LexLeq(key(y), key(x));
    } else {
      LeastByExists(s - {y}, key);
      var m :| m in s - {y} && forall x :: x in s - {y} ==> LexLeq(key(m), key(x));
      LexLeqTotal(key(y), key(m));
      if LexLeq(key(m), key(y)) {
        assert forall x :: x in s ==> LexLeq(key(m), key(x));
      } else {
        forall x | x in s
          ensures LexLeq(key(y), key(x))
        {
          if x == y {
            LexLeqReflexive(key(y));
          } else {
            LexLeqTransitive(key(y), key(m), key(x));
          }
        }
      }
    }
  }

  /** The greatest string of a non-empty set: what `find_one(..., sort=[(field, -1)])`
      returns. */
  function Greatest(s: set<string>): (m: string)
    requires s != {}
    ensures m in s && forall x :: x in s ==> LexLeq(x, m)
  {
    GreatestExists(s);
    LexLeqAntisymmetricAll();
    var m :| m in s && forall x :: x in s ==> LexLeq(x, m);
    m
  }

  lemma LexLeqAntisymmetricAll()
    ensures forall a, b :: LexLeq(a, b) && LexLeq(b, a) ==> a == b
  {
    forall a, b | LexLeq(a, b) && LexLeq(b, a)
      ensures a == b
    {
      LexLeqAntisymmetric(a, b);
    }
  }

  /** The elements of `s` in ascending order of `key`, as `find(...).sort(field, 1)`
      returns them; elements with equal keys come in an order the database chooses. */
  ghost function SortedBy<T(!new)>(s: set<T>, key: T -> string): (r: seq<T>)
    ensures |r| == |s|
    ensures forall x :: x in r <==> x in s
    ensures forall i, j :: 0 <= i < j < |r| ==> LexLeq(key(r[i]), key(r[j]))
    ensures forall i, j :: 0 <= i < j < |r| ==> r[i] != r[j]
    decreases |s|
  {
    if s == {} then []
    else
      LeastByExists(s, key);
      var m :| m in s && forall x :: x in s ==> LexLeq(key(m), key(x));
      var rest := SortedBy(s - {m}, key);
      SortedCons(s, key, m, rest);
      [m] + rest
  }

  /** Putting a least element in front of the sorted rest sorts the whole set. */
  lemma SortedCons<T>(s: set<T>, key: T -> string, m: T, rest: seq<T>)
    requires m in s && forall x :: x in s ==> LexLeq(key(m), key(x))
    requires |rest| == |s - {m}|
    requires forall x :: x in rest <==> x in s - {m}
    requires forall i, j :: 0 <= i < j < |rest| ==> LexLeq(key(rest[i]), key(rest[j]))
    requires forall i, j :: 0 <= i < j < |rest| ==> rest[i] != rest[j]
    ensures |[m] + rest| == |s|
    ensures forall x :: x in [m] + rest <==> x in s
    ensures forall i, j :: 0 <= i < j < |[m] + rest| ==> LexLeq(key(([m] + rest)[i]), key(([m] + rest)[j]))
    ensures forall i, j :: 0 <= i < j < |[m] + rest| ==> ([m] + rest)[i] != ([m] + rest)[j]
  {
    var r := [m] + rest;
    forall i, j | 0 <= i < j < |r|
      ensures LexLeq(key(r[i]), key(r[j])) && r[i] != r[j]
    {
      if i == 0 {
        assert r[j] == rest[j - 1] && rest[j - 1] in s - {m};
      } else {
        assert r[i] == rest[i - 1] && r[j] == rest[j - 1];
      }
    }
  }

  // ---------------------------------------------------------------- str.replace(p, '')

  predicate StartsWith(s: string, p: string)
  {
    |p| <= |s| && s[..|p|] == p
  }

  /** `s.replace(p, '')`: every non-overlapping occurrence of `p`, scanning from the
      left, is removed; an empty `p` leaves `s` unchanged. */
  function RemoveAll(s: string, p: string): string
    decreases |s|
  {
    if p == [] || |s| < |p| then s
    else if s[..|p|] == p then RemoveAll(s[|p|..], p)
    else [s[0]] + RemoveAll(s[1..], p)
  }

  /** A pattern whose first character never occurs in `s` removes nothing. */
  lemma {:induction false} RemoveAllAbsent(s: string, p: string)
    requires p != []
    requires forall i :: 0 <= i < |s| ==> s[i] != p[0]
    ensures RemoveAll(s, p) == s
    decreases |s|
  {
    if |s| >= |p| {
      assert s[..|p|][0] == s[0];
      RemoveAllAbsent(s[1..], p);
      assert s == [s[0]] + s[1..];
    }
  }

  /** Removing the pattern from `p + d` removes the leading copy and goes on in `d`. */
  lemma RemoveAllLeading(p: string, d: string)
    requires p != []
    ensures RemoveAll(p + d, p) == RemoveAll(d, p)
  {
    assert (p + d)[..|p|] == p;
    assert (p + d)[|p|..] == d;
  }

  // ---------------------------------------------------------------- int(str)

  predicate IsDigit(c: char) { '0' <= c <= '9' }

  /** The characters Python's `int()` strips around a number (the ASCII ones). */
  predicate IsWhitespace(c: char)
  {
    c == ' ' || 9 <= c as int <= 13 || 28 <= c as int <= 31
  }

  function TrimStart(s: string): string
    decreases |s|
  {
    if s != [] && IsWhitespace(s[0]) then TrimStart(s[1..]) else s
  }

  function TrimEnd(s: string): string
    decreases |s|
  {
    if s != [] && IsWhitespace(s[|s| - 1]) then TrimEnd(s[..|s| - 1]) else s
  }

  predicate AllDigits(s: string)
  {
    forall i :: 0 <= i < |s| ==> IsDigit(s[i])
  }

  /** Digits, optionally with single underscores between them, as `int()` accepts. */
  predicate IsDigitGroups(s: string)
  {
    && s != []
    && IsDigit(s[0])
    && IsDigit(s[|s| - 1])
    && (forall i :: 0 <= i < |s| ==> IsDigit(s[i]) || s[i] == '_')
    && (forall i :: 0 <= i < |s| - 1 ==> !(s[i] == '_' && s[i + 1] == '_'))
  }

  function DropUnderscores(s: string): (r: string)
    ensures (forall i :: 0 <= i < |s| ==> IsDigit(s[i]) || s[i] == '_') ==> AllDigits(r)
  {
    if s == [] then []
    else if s[0] == '_' then DropUnderscores(s[1..])
    else [s[0]] + DropUnderscores(s[1..])
  }

  function DigitValue(c: char): nat
    requires IsDigit(c)
  {
    c as int - '0' as int
  }

  function DigitChar(d: nat): (c: char)
    requires d < 10
    ensures IsDigit(c) && DigitValue(c) == d
  {
    ('0' as int + d) as char
  }

  /** The value of a string of decimal digits, most significant first. */
  function DecimalValue(s: string): nat
    requires AllDigits(s)
  {
    if s == [] then 0 else 10 * DecimalValue(s[..|s| - 1]) + DigitValue(s[|s| - 1])
  }

  /** Python's `int(s)` for ASCII input: `None` where `int` raises `ValueError`. */
  function ParseInt(s: string): Option<int>
  {
    ParseSigned(TrimEnd(TrimStart(s)))
  }

  /** An optional sign followed by digit groups. */
  function ParseSigned(t: string): Option<int>
  {
    if t != [] && (t[0] == '-' || t[0] == '+') then
      match ParseDigitGroups(t[1..])
      case Some(v) => Some(if t[0] == '-' then -v else v)
      case None => None
    else
      ParseDigitGroups(t)
  }

  function ParseDigitGroups(body: string): Option<int>
  {
    if IsDigitGroups(body) then Some(DecimalValue(DropUnderscores(body))) else None
  }

  // ---------------------------------------------------------------- f"{n:0Wd}"

  /** `str(n)` for a natural number: decimal digits without leading zeros. */
  function NatToDecimal(n: nat): (r: string)
    ensures r != [] && AllDigits(r)
    ensures DecimalValue(r) == n
  {
    if n < 10 then [DigitChar(n)]
    else
      var r := NatToDecimal(n / 10) + [DigitChar(n % 10)];
      assert r[..|r| - 1] == NatToDecimal(n / 10);
      r
  }

  function Zeros(k: nat): (r: string)
    ensures |r| == k && AllDigits(r)
  {
    seq(k, _ => '0')
  }

  /** Leading zeros do not change a decimal value. */
  lemma {:induction false} LeadingZerosValue(k: nat, s: string)
    requires AllDigits(s)
    ensures DecimalValue(Zeros(k) + s) == DecimalValue(s)
    decreases |s|
  {
    if s == [] {
      ZerosValue(k);
      assert Zeros(k) + s == Zeros(k);
    } else {
      var s' := s[..|s| - 1];
      LeadingZerosValue(k, s');
      assert (Zeros(k) + s)[..|Zeros(k) + s| - 1] == Zeros(k) + s';
    }
  }

  lemma {:induction false} ZerosValue(k: nat)
    ensures DecimalValue(Zeros(k)) == 0
  {
    if k > 0 {
      ZerosValue(k - 1);
      assert Zeros(k)[..k - 1] == Zeros(k - 1);
    }
  }

  function ZeroPad(s: string, width: nat): (r: string)
    ensures |r| >= width && |r| >= |s|
  {
    if |s| < width then Zeros(width - |s|) + s else s
  }

  /** `f"{n:0{width}d}"`: the sign, if any, then the digits of `|n|` left-padded with
      zeros so that the whole text is at least `width` characters long. */
  function FormatPadded(n: int, width: nat): (r: string)
    ensures |r| >= width
    ensures r != [] && (AllDigits(r) || (r[0] == '-' && AllDigits(r[1..])))
  {
    if n >= 0 then ZeroPad(NatToDecimal(n), width)
    else "-" + ZeroPad(NatToDecimal(-n), if width > 0 then width - 1 else 0)
  }

  lemma TrimAllDigits(s: string)
    requires s != [] && (AllDigits(s) || (s[0] == '-' && AllDigits(s[1..])))
    ensures TrimEnd(TrimStart(s)) == s
  {
    assert !IsWhitespace(s[0]);
    assert !IsWhitespace(s[|s| - 1]);
  }

  lemma {:induction false} DropUnderscoresOfDigits(s: string)
    requires AllDigits(s)
    ensures DropUnderscores(s) == s
  {
    if s != [] {
      DropUnderscoresOfDigits(s[1..]);
      assert s == [s[0]] + s[1..];
    }
  }

  /** The unsigned part of a padded number reads back as its value. */
  lemma PaddedDigitsValue(n: nat, width: nat)
    ensures AllDigits(ZeroPad(NatToDecimal(n), width))
    ensures DropUnderscores(ZeroPad(NatToDecimal(n), width)) == ZeroPad(NatToDecimal(n), width)
    ensures DecimalValue(ZeroPad(NatToDecimal(n), width)) == n
  {
    var d := NatToDecimal(n);
    if |d| < width {
      LeadingZerosValue(width - |d|, d);
    }
    DropUnderscoresOfDigits(ZeroPad(d, width));
  }

  lemma DigitsAreDigitGroups(d: string)
    requires d != [] && AllDigits(d)
    ensures IsDigitGroups(d)
  {
  }

  lemma ParseUnsigned(d: string)
    requires d != [] && AllDigits(d)
    ensures ParseInt(d) == Some(DecimalValue(d) as int)
  {
    TrimAllDigits(d);
    DigitsAreDigitGroups(d);
    DropUnderscoresOfDigits(d);
    assert d[0] != '-' && d[0] != '+';
  }

  lemma ParseDigits(d: string)
    requires d != [] && AllDigits(d)
    ensures ParseDigitGroups(d) == Some(DecimalValue(d) as int)
  {
    DigitsAreDigitGroups(d);
    DropUnderscoresOfDigits(d);
  }

  lemma {:induction false} ParseSignedNegative(d: string)
    requires d != [] && AllDigits(d)
    ensures ParseSigned("-" + d) == Some(-(DecimalValue(d) as int))
  {
    var t := ['-'] + d;
    var v := DecimalValue(d) as int;
    ParseDigits(d);
    assert t[1..] == d;
    assert ParseDigitGroups(t[1..]) == Some(v);
    MinusSign(t, v);
    assert "-" + d == t;
  }

  /** A leading minus sign negates what follows it. */
  lemma MinusSign(t: string, v: int)
    requires t != [] && t[0] == '-' && ParseDigitGroups(t[1..]) == Some(v)
    ensures ParseSigned(t) == Some(-v)
  {
  }

  lemma ParseNegative(d: string)
    requires d != [] && AllDigits(d)
    ensures ParseInt("-" + d) == Some(-(DecimalValue(d) as int))
  {
    var t := "-" + d;
    assert t[0] == '-' && t[1..] == d;
    TrimAllDigits(t);
    ParseSignedNegative(d);
  }

  /** Reading back a padded number gives the number: `int(f"{n:05d}") == n`. */
  lemma FormatPaddedRoundTrip(n: int, width: nat)
    ensures ParseInt(FormatPadded(n, width)) == Some(n)
  {
    if n >= 0 {
      PaddedDigitsValue(n, width);
      ParseUnsigned(ZeroPad(NatToDecimal(n), width));
    } else {
      var w := if width > 0 then width - 1 else 0;
      PaddedDigitsValue(-n, w);
      ParseNegative(ZeroPad(NatToDecimal(-n), w));
    }
  }
}
