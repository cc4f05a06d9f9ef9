/**
  String helpers standing in for the host library: `parseInt`, `Number`
  to string conversion, `toFixed(1)` as text, ASCII `toLowerCase`, `trim`,
  `includes` and `padStart(2, "0")`.
 */
module Text {
  import opened Numbers

  predicate IsDigit(c: char) { '0' <= c <= '9' }

  /**
    The white space and line terminators of ECMAScript that `trim` removes
    and `parseInt` skips: tab, line feed, vertical tab, form feed, carriage
    return, space, no-break space, the Ogham space mark, the en quad to
    hair space block, the line and paragraph separators, the narrow
    no-break space, the medium mathematical space, the ideographic space
    and the byte order mark.
   */
  predicate IsSpace(c: char)
  {
    || '\t' <= c <= '\r'
    || c == ' '
    || c == '\U{00A0}'
    || c == '\U{1680}'
    || '\U{2000}' <= c <= '\U{200A}'
    || c == '\U{2028}' || c == '\U{2029}'
    || c == '\U{202F}'
    || c == '\U{205F}'
    || c == '\U{3000}'
    || c == '\U{FEFF}'
  }

  function DigitChar(d: nat): (c: char)
    requires d < 10
    ensures IsDigit(c) && DigitValue(c) == d
  {
    ('0' as int + d) as char
  }

  function DigitValue(c: char): (d: nat)
    requires IsDigit(c)
    ensures d < 10
  {
    (c as int - '0' as int) as nat
  }

  predicate AllDigits(s: string) { forall i :: 0 <= i < |s| ==> IsDigit(s[i]) }

  /** Decimal notation of a natural number, without leading zeros. */
  function NatToString(n: nat): (s: string)
    ensures |s| >= 1 && AllDigits(s)
  {
    if n < 10 then [DigitChar(n)] else NatToString(n / 10) + [DigitChar(n % 10)]
  }

  /** `n.toString()` for an integer-valued number. */
  function IntToString(i: int): (s: string)
    ensures |s| >= 1
    ensures i >= 0 ==> AllDigits(s)
    ensures i < 0 ==> s[0] == '-' && AllDigits(s[1..])
  {
    if i < 0 then "-" + NatToString(-i) else NatToString(i)
  }

  lemma ZeroString(i: int)
    requires i == 0
    ensures IntToString(i) == "0"
  {
    assert DigitChar(0) == '0';
  }

  /** Value of a string of decimal digits. */
  function DigitsValue(s: string): nat
    requires AllDigits(s)
  {
    if s == [] then 0 else DigitsValue(s[..|s| - 1]) * 10 + DigitValue(s[|s| - 1])
  }

  /** The longest prefix of s made of decimal digits. */
  function DigitPrefix(s: string): (p: string)
    ensures AllDigits(p) && |p| <= |s| && p == s[..|p|]
    ensures |p| < |s| ==> !IsDigit(s[|p|])
  {
    if s == [] || !IsDigit(s[0]) then [] else [s[0]] + DigitPrefix(s[1..])
  }

  /** s with its leading white space removed. */
  function SkipSpace(s: string): (t: string)
    ensures t == [] || !IsSpace(t[0])
  {
    if s != [] && IsSpace(s[0]) then SkipSpace(s[1..]) else s
  }

  /** What is skipped is white space, and what is left is the rest of s. */
  lemma {:induction false} SkipSpaceStrips(s: string)
    ensures var t := SkipSpace(s);
      && |t| <= |s| && t == s[|s| - |t|..]
      && forall i :: 0 <= i < |s| - |t| ==> IsSpace(s[i])
  {
    if s != [] && IsSpace(s[0]) {
      SkipSpaceStrips(s[1..]);
    }
  }

  predicate IsHexDigit(c: char) { IsDigit(c) || 'a' <= c <= 'f' || 'A' <= c <= 'F' }

  function HexDigitValue(c: char): (d: nat)
    requires IsHexDigit(c)
    ensures d < 16
  {
    if IsDigit(c) then DigitValue(c)
    else if 'a' <= c <= 'f' then (c as int - 'a' as int + 10) as nat
    else (c as int - 'A' as int + 10) as nat
  }

  predicate AllHexDigits(s: string) { forall i :: 0 <= i < |s| ==> IsHexDigit(s[i]) }

  /** Value of a string of hexadecimal digits. */
  function HexValue(s: string): nat
    requires AllHexDigits(s)
  {
    if s == [] then 0 else HexValue(s[..|s| - 1]) * 16 + HexDigitValue(s[|s| - 1])
  }

  /** The longest prefix of s made of hexadecimal digits. */
  function HexPrefix(s: string): (p: string)
    ensures AllHexDigits(p) && |p| <= |s| && p == s[..|p|]
    ensures |p| < |s| ==> !IsHexDigit(s[|p|])
  {
    if s == [] || !IsHexDigit(s[0]) then [] else [s[0]] + HexPrefix(s[1..])
  }

  /** u starts with the "0x" or "0X" that switches `parseInt` to radix 16. */
  predicate HexPrefixed(u: string) { |u| >= 2 && u[0] == '0' && (u[1] == 'x' || u[1] == 'X') }

  /**
    The unsigned number u starts with: the hexadecimal digits after "0x"
    or "0X", otherwise the decimal digits; None when there is no digit.
   */
  function Magnitude(u: string): Option<nat>
  {
    if HexPrefixed(u) then
      var h := HexPrefix(u[2..]);
      if h == [] then None else Some(HexValue(h))
    else
      var d := DigitPrefix(u);
      if d == [] then None else Some(DigitsValue(d))
  }

  /**
    `parseInt(s)` with no radix: leading white space is skipped, an
    optional sign is read, then "0x" or "0X" selects radix 16 and anything
    else radix 10, and the longest run of digits of that radix is the
    value; None stands for `NaN` (no digit at all).
   */
  function ParseInt(s: string): Option<int>
  {
    var t := SkipSpace(s);
    var signed := t != [] && (t[0] == '-' || t[0] == '+');
    var m := Magnitude(if signed then t[1..] else t);
    if m.None? then None
    else if signed && t[0] == '-' then Some(0 - m.value)
    else Some(m.value)
  }

  /** Text that starts with no sign, digit or white space holds no number. */
  lemma ParseIntNoNumber(s: string)
    requires s != [] && !IsSpace(s[0]) && !IsDigit(s[0]) && s[0] != '-' && s[0] != '+'
    ensures ParseInt(s).None?
  {
    assert SkipSpace(s) == s;
  }

  /** `parseInt(s) || 0`: the parsed integer, or 0 for `NaN`. */
  function IntOrZero(s: string): int
  {
    ParseInt(s).GetOr(0)
  }

  lemma {:induction false} DigitsValueOfNatToString(n: nat)
    ensures DigitsValue(NatToString(n)) == n
  {
    var s := NatToString(n);
    if n >= 10 {
      DigitsValueOfNatToString(n / 10);
      assert s[..|s| - 1] == NatToString(n / 10);
    } else {
      assert s[..0] == [];
    }
  }

  /** Only zero is written with a leading zero. */
  lemma {:induction false} NatToStringLead(n: nat)
    ensures NatToString(n)[0] == '0' <==> n == 0
  {
    if n >= 10 {
      NatToStringLead(n / 10);
    }
  }

  lemma {:induction false} DigitPrefixOfDigits(d: string, rest: string)
    requires AllDigits(d)
    ensures DigitPrefix(d + rest) == d + DigitPrefix(rest)
  {
    if d != [] {
      DropFirstOfAppend(d, rest);
      DigitPrefixOfDigits(d[1..], rest);
      FirstThenRest(d, DigitPrefix(rest));
    } else {
      assert d + rest == rest;
    }
  }

  lemma {:induction false} HexPrefixOfDigits(h: string, rest: string)
    requires AllHexDigits(h)
    ensures HexPrefix(h + rest) == h + HexPrefix(rest)
  {
    if h != [] {
      DropFirstOfAppend(h, rest);
      HexPrefixOfDigits(h[1..], rest);
      FirstThenRest(h, HexPrefix(rest));
    } else {
      assert h + rest == rest;
    }
  }

  lemma DropFirstOfAppend(a: string, b: string)
    requires a != []
    ensures (a + b)[0] == a[0] && (a + b)[1..] == a[1..] + b
  {
  }

  lemma FirstThenRest(a: string, b: string)
    requires a != []
    ensures [a[0]] + (a[1..] + b) == a + b
  {
    assert a == [a[0]] + a[1..];
  }

  /** The digits stop where text that does not start with a digit begins. */
  lemma DigitPrefixStops(ds: string, rest: string)
    requires AllDigits(ds) && (rest == [] || !IsDigit(rest[0]))
    ensures DigitPrefix(ds + rest) == ds
  {
    DigitPrefixOfDigits(ds, rest);
    assert DigitPrefix(rest) == [];
    assert ds + [] == ds;
  }

  /**
    `parseInt` reads back what `toString` wrote, also when other text that
    does not start with a digit follows the number (and, after a zero, does
    not start with the x that would make "0x").
   */
  lemma ParseIntOfIntToString(i: int, rest: string)
    requires rest == [] || !IsDigit(rest[0])
    requires i == 0 && rest != [] ==> rest[0] != 'x' && rest[0] != 'X'
    ensures ParseInt(IntToString(i) + rest) == Some(i)
  {
    var n: nat := if i < 0 then -i else i;
    var ds := NatToString(n);
    DigitPrefixStops(ds, rest);
    DigitsValueOfNatToString(n);
    NatToStringLead(n);
    assert !HexPrefixed(ds + rest) by {
      if |ds| == 1 && ds[0] == '0' && rest != [] {
        assert (ds + rest)[1] == rest[0];
      }
    }
    if i < 0 {
      SignThenDigits(ds, rest);
      ParseIntNegative(ds + rest, ds);
    } else {
      ParseIntUnsigned(ds + rest, ds);
    }
  }

  lemma SignThenDigits(ds: string, rest: string)
    ensures ("-" + ds) + rest == "-" + (ds + rest)
  {
  }

  lemma ParseIntUnsigned(t: string, ds: string)
    requires |ds| >= 1 && AllDigits(ds) && DigitPrefix(t) == ds && !HexPrefixed(t)
    ensures ParseInt(t) == Some(DigitsValue(ds))
  {
    assert t[0] == ds[0];
    assert !IsSpace(t[0]);
    assert SkipSpace(t) == t;
    assert Magnitude(t) == Some(DigitsValue(ds));
  }

  lemma ParseIntNegative(t: string, ds: string)
    requires |ds| >= 1 && AllDigits(ds) && DigitPrefix(t) == ds && !HexPrefixed(t)
    ensures ParseInt("-" + t) == Some(0 - DigitsValue(ds))
  {
    var u := "-" + t;
    assert !IsSpace(u[0]);
    assert SkipSpace(u) == u;
    assert u[1..] == t;
    assert Magnitude(t) == Some(DigitsValue(ds));
  }

  lemma ParseIntRoundTrip(i: int)
    ensures ParseInt(IntToString(i)) == Some(i)
  {
    ParseIntOfIntToString(i, []);
    assert IntToString(i) + [] == IntToString(i);
  }

  /**
    After "0x", optionally signed, the hexadecimal digits are read up to
    the first character that is not one; "0x" with no digit is `NaN`.
   */
  lemma ParseIntHex(h: string, rest: string)
    requires AllHexDigits(h) && (rest == [] || !IsHexDigit(rest[0]))
    ensures ParseInt("0x" + h + rest) == if h == [] then None else Some(HexValue(h))
  {
    var u := "0x" + h + rest;
    HexDigitsAfterPrefix(h, rest, u);
    HexRead(u, h);
  }

  /** A minus sign in front of "0x" negates the hexadecimal value. */
  lemma ParseIntNegativeHex(h: string, rest: string)
    requires AllHexDigits(h) && (rest == [] || !IsHexDigit(rest[0])) && h != []
    ensures ParseInt("-" + ("0x" + h + rest)) == Some(0 - HexValue(h))
  {
    var u := "0x" + h + rest;
    HexDigitsAfterPrefix(h, rest, u);
    HexRead(u, h);
  }

  lemma HexRead(u: string, h: string)
    requires u != [] && IsDigit(u[0]) && HexPrefixed(u) && HexPrefix(u[2..]) == h
    ensures ParseInt(u) == if h == [] then None else Some(HexValue(h))
    ensures h != [] ==> ParseInt("-" + u) == Some(0 - HexValue(h))
  {
    HexMagnitude(u, h);
    UnsignedStart(u);
    SignedStart('-', u);
  }

  /** Text that starts with a digit is parsed from its first character. */
  lemma UnsignedStart(u: string)
    requires u != [] && IsDigit(u[0])
    ensures ParseInt(u) == Magnitude(u)
  {
    assert !IsSpace(u[0]);
    assert SkipSpace(u) == u;
  }

  /** A sign directly in front of the number. */
  lemma SignedStart(sign: char, u: string)
    requires sign == '-' || sign == '+'
    ensures ParseInt([sign] + u) == match Magnitude(u)
      case None => None
      case Some(m) => if sign == '-' then Some(0 - m) else Some(m)
  {
    var v := [sign] + u;
    assert !IsSpace(v[0]);
    assert SkipSpace(v) == v;
    assert v[1..] == u;
  }

  /** After "0x" come exactly the hexadecimal digits h. */
  lemma HexDigitsAfterPrefix(h: string, rest: string, u: string)
    requires AllHexDigits(h) && (rest == [] || !IsHexDigit(rest[0]))
    requires u == "0x" + h + rest
    ensures u != [] && IsDigit(u[0]) && HexPrefixed(u) && HexPrefix(u[2..]) == h
  {
    HexPrefixOfDigits(h, rest);
    assert HexPrefix(rest) == [];
    assert h + [] == h;
    assert u[2..] == h + rest;
  }

  /** The magnitude of "0x" text is the value of its hexadecimal digits. */
  lemma HexMagnitude(u: string, h: string)
    requires HexPrefixed(u) && HexPrefix(u[2..]) == h
    ensures Magnitude(u) == if h == [] then None else Some(HexValue(h))
  {
  }

  /** `x.toFixed(1)` for a non-negative x: integer part, a point, one decimal. */
  function ToFixed1(x: real): (s: string)
    requires x >= 0.0
    ensures |s| >= 3 && s[|s| - 2] == '.' && IsDigit(s[|s| - 1])
  {
    var q := MathRound(x * 10.0);
    NatToString(q / 10) + "." + [DigitChar(q % 10)]
  }

  /** The one-decimal text writes x * 10 rounded to the nearest integer, in tenths, and reads back as its whole part. */
  lemma ToFixed1Reads(x: real)
    requires x >= 0.0
    ensures ShowsTenths(ToFixed1(x), MathRound(x * 10.0))
    ensures ParseInt(ToFixed1(x)) == Some(MathRound(x * 10.0) / 10)
  {
    ShowsTenthsReads(ToFixed1(x), MathRound(x * 10.0), []);
    assert ToFixed1(x) + [] == ToFixed1(x);
  }

  /**
    s writes a non-negative number of tenths q with one decimal: the
    decimal digits of the whole part q / 10, a point, and the digit q % 10.
   */
  predicate ShowsTenths(s: string, q: int)
  {
    q >= 0 && s == NatToString(q / 10) + "." + [DigitChar(q % 10)]
  }

  /** r is q tenths of a unit followed by the unit's letter. */
  predicate ShowsScaled(r: string, q: int, unit: char)
  {
    |r| >= 1 && r[|r| - 1] == unit && ShowsTenths(r[..|r| - 1], q)
  }

  /**
    A one-decimal text, with anything that does not start with a digit after
    it, parses back as its whole part, and its last decimal is q % 10.
   */
  lemma ShowsTenthsReads(s: string, q: int, rest: string)
    requires ShowsTenths(s, q)
    requires rest == [] || !IsDigit(rest[0])
    ensures |s| >= 3 && s[|s| - 2] == '.' && DigitValue(s[|s| - 1]) == q % 10
    ensures ParseInt(s + rest) == Some(q / 10)
  {
    var tail := "." + [DigitChar(q % 10)] + rest;
    assert s + rest == IntToString(q / 10) + tail;
    ParseIntOfIntToString(q / 10, tail);
  }

  /** A scaled count such as "1.5K" parses back as its whole number of units. */
  lemma ShowsScaledReads(r: string, q: int, unit: char)
    requires ShowsScaled(r, q, unit) && !IsDigit(unit)
    ensures |r| >= 4 && ParseInt(r) == Some(q / 10)
  {
    var s := r[..|r| - 1];
    assert r == s + [unit];
    ShowsTenthsReads(s, q, [unit]);
  }

  /** A one-decimal text stands for a single number of tenths. */
  lemma ShowsTenthsUnique(s: string, q1: int, q2: int)
    requires ShowsTenths(s, q1) && ShowsTenths(s, q2)
    ensures q1 == q2
  {
    ShowsTenthsReads(s, q1, []);
    ShowsTenthsReads(s, q2, []);
    assert s + [] == s;
  }

  /** A letter after a one-decimal text of x makes r x * 10 rounded tenths of that unit. */
  lemma ToFixed1Suffixed(r: string, x: real, q: real, unit: char)
    requires x >= 0.0 && x * 10.0 == q && r == ToFixed1(x) + [unit]
    ensures ShowsScaled(r, MathRound(q), unit)
  {
    assert r[..|r| - 1] == ToFixed1(x);
  }

  /** `String(n).padStart(2, "0")` for 0 <= n. */
  function Pad2(n: nat): (s: string)
    ensures |s| >= 2 && AllDigits(s)
  {
    if n < 10 then "0" + NatToString(n) else NatToString(n)
  }

  /** A two-digit label reads back as its number, also with a non-digit suffix such as ":00". */
  lemma Pad2Reads(n: nat, rest: string)
    requires n < 100 && (rest == [] || !IsDigit(rest[0]))
    ensures |Pad2(n)| == 2 && ParseInt(Pad2(n) + rest) == Some(n)
  {
    if n >= 10 {
      assert NatToString(n) == NatToString(n / 10) + [DigitChar(n % 10)];
      ParseIntOfIntToString(n, rest);
    } else {
      var d := Pad2(n);
      assert d == "0" + [DigitChar(n)];
      assert d[..1] == "0" && d[..1][..0] == [];
      assert DigitsValue(d[..1]) == 0;
      assert DigitsValue(d) == DigitValue(DigitChar(n)) == n;
      DigitPrefixStops(d, rest);
      assert (d + rest)[1] == d[1];
      ParseIntUnsigned(d + rest, d);
    }
  }

  function LowerChar(c: char): char
  {
    if 'A' <= c <= 'Z' then (c as int + 32) as char else c
  }

  /** `toLowerCase()` on ASCII letters; every other character is kept. */
  function ToLower(s: string): (r: string)
    ensures |r| == |s|
    ensures forall i :: 0 <= i < |s| ==> r[i] == LowerChar(s[i])
  {
    seq(|s|, i requires 0 <= i < |s| => LowerChar(s[i]))
  }

  /** `trimStart()`: the suffix of s after its leading white space. */
  function TrimStart(s: string): (r: string)
    ensures |r| <= |s| && r == s[|s| - |r|..]
    ensures forall i :: 0 <= i < |s| - |r| ==> IsSpace(s[i])
    ensures r == [] || !IsSpace(r[0])
  {
    SkipSpaceStrips(s);
    SkipSpace(s)
  }

  /** `trimEnd()`: the prefix of s before its trailing white space. */
  function TrimEnd(s: string): (r: string)
    ensures |r| <= |s| && r == s[..|r|]
    ensures forall i :: |r| <= i < |s| ==> IsSpace(s[i])
    ensures r == [] || !IsSpace(r[|r| - 1])
  {
    if s != [] && IsSpace(s[|s| - 1]) then TrimEnd(s[..|s| - 1]) else s
  }

  /** `trim()`: white space removed from both ends. */
  function Trim(s: string): string
  {
    TrimEnd(TrimStart(s))
  }

  /** A trimmed string is empty exactly when the input holds only white space. */
  lemma {:induction false} TrimEmptyIffBlank(s: string)
    ensures Trim(s) == [] <==> forall i :: 0 <= i < |s| ==> IsSpace(s[i])
  {
    SkipSpaceBlank(s);
    TrimEndEmpty(SkipSpace(s));
  }

  lemma {:induction false} SkipSpaceBlank(s: string)
    ensures SkipSpace(s) == [] <==> forall i :: 0 <= i < |s| ==> IsSpace(s[i])
  {
    if s != [] && IsSpace(s[0]) {
      SkipSpaceBlank(s[1..]);
      assert forall i :: 1 <= i < |s| ==> s[i] == s[1..][i - 1];
    }
  }

  lemma {:induction false} TrimEndEmpty(s: string)
    requires s == [] || !IsSpace(s[0])
    ensures TrimEnd(s) == [] <==> s == []
  {
    if s != [] && IsSpace(s[|s| - 1]) {
      assert |s| > 1;
      TrimEndEmpty(s[..|s| - 1]);
    }
  }

  predicate IsPrefix(p: string, s: string) { |p| <= |s| && s[..|p|] == p }

  /** needle occurs in s starting at position i. */
  predicate OccursAt(s: string, needle: string, i: int)
  {
    0 <= i && i + |needle| <= |s| && s[i..i + |needle|] == needle
  }

  /** `s.includes(needle)`: needle occurs as a contiguous block of s. */
  function Includes(s: string, needle: string): (b: bool)
    ensures b <==> exists i :: OccursAt(s, needle, i)
  {
    if IsPrefix(needle, s) then
      assert OccursAt(s, needle, 0);
      true
    else if s == [] then
      assert forall i :: !OccursAt(s, needle, i);
      false
    else
      var b := Includes(s[1..], needle);
      assert forall i :: OccursAt(s[1..], needle, i) <==> OccursAt(s, needle, i + 1) by {
        forall i ensures OccursAt(s[1..], needle, i) <==> OccursAt(s, needle, i + 1) {
          if 0 <= i && i + |needle| <= |s[1..]| {
            assert s[1..][i..i + |needle|] == s[i + 1..i + 1 + |needle|];
          }
        }
      }
      assert !OccursAt(s, needle, 0);
      assert b ==> exists i :: OccursAt(s, needle, i) by {
        if b {
          var j :| OccursAt(s[1..], needle, j);
          assert OccursAt(s, needle, j + 1);
        }
      }
      assert (exists i :: OccursAt(s, needle, i)) ==> b by {
        if exists i :: OccursAt(s, needle, i) {
          var j :| OccursAt(s, needle, j);
          assert j != 0;
          assert OccursAt(s[1..], needle, j - 1);
        }
      }
      b
  }

  /** `s.split(" ")[0]`: the text before the first space. */
  function FirstWord(s: string): (w: string)
    ensures IsPrefix(w, s) && ' ' !in w
    ensures |w| < |s| ==> s[|w|] == ' '
  {
    if s == [] || s[0] == ' ' then [] else [s[0]] + FirstWord(s[1..])
  }

  /** Ordinal order on strings, character by character (Unicode scalar values), standing in for `localeCompare`. */
  predicate LexLeq(a: string, b: string)
  {
    a == [] || (b != [] && (a[0] < b[0] || (a[0] == b[0] && LexLeq(a[1..], b[1..]))))
  }

  lemma {:induction false} LexLeqReflexive(a: string)
    ensures LexLeq(a, a)
  {
    if a != [] {
      LexLeqReflexive(a[1..]);
    }
  }

  lemma {:induction false} LexLeqTotal(a: string, b: string)
    ensures LexLeq(a, b) || LexLeq(b, a)
  {
    if a != [] && b != [] && a[0] == b[0] {
      LexLeqTotal(a[1..], b[1..]);
    }
  }

  lemma {:induction false} LexLeqTransitive(a: string, b: string, c: string)
    requires LexLeq(a, b) && LexLeq(b, c)
    ensures LexLeq(a, c)
  {
    if a != [] && b != [] && c != [] && a[0] == b[0] && b[0] == c[0] {
      LexLeqTransitive(a[1..], b[1..], c[1..]);
    }
  }
}
