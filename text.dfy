/** The string handling the core relies on: decimal formatting of Int32 values (string
    interpolation), int.TryParse with its default number style, String.Split with
    RemoveEmptyEntries, String.Join, and ordinal case-insensitive comparison. */
module Text {
  import opened Common

  const Int32Min: int := -0x8000_0000
  const Int32Max: int := 0x7FFF_FFFF

  predicate IsInt32(n: int) { Int32Min <= n <= Int32Max }

  type Int32 = n: int | IsInt32(n)

  /** The Int32 value C#'s unchecked arithmetic leaves for the mathematical result x. */
  function Wrap32(x: int): (r: Int32)
    ensures IsInt32(x) ==> r == x
    ensures (r - x) % 0x1_0000_0000 == 0
  {
    (x - Int32Min) % 0x1_0000_0000 + Int32Min
  }

  /** Wrapping an intermediate result does not change the final wrapped product. */
  lemma WrapMul(a: int, b: int)
    ensures Wrap32(Wrap32(a) * b) == Wrap32(a * b)
  {
    var m := 0x1_0000_0000;
    var k := (Wrap32(a) - a) / m;
    assert Wrap32(a) == a + k * m;
    assert Wrap32(a) * b == a * b + (k * b) * m;
    ShiftInvariant(a * b, k * b);
  }

  lemma ShiftInvariant(x: int, j: int)
    ensures Wrap32(x + j * 0x1_0000_0000) == Wrap32(x)
  {
    var m := 0x1_0000_0000;
    var q := (x - Int32Min) / m;
    var r := (x - Int32Min) % m;
    assert x - Int32Min + j * m == (q + j) * m + r;
  }

  predicate IsDigit(c: char) { '0' <= c <= '9' }

  predicate AllDigits(s: string) { forall i | 0 <= i < |s| :: IsDigit(s[i]) }

  function DigitChar(d: nat): (c: char)
    requires d < 10
    ensures IsDigit(c) && c as int - '0' as int == d
  {
    (d + '0' as int) as char
  }

  /** Decimal digits of n without leading zeros ("0" for zero). */
  function NatToString(n: nat): (s: string)
    ensures |s| > 0 && AllDigits(s)
  {
    if n < 10 then [DigitChar(n)] else NatToString(n / 10) + [DigitChar(n % 10)]
  }

  /** The text $"{n}" produces for an int: a minus sign for negative values, then the digits. */
  function IntToString(n: int): (s: string)
    ensures |s| > 0
  {
    if n < 0 then "-" + NatToString(-n) else NatToString(n)
  }

  /** The text holds nothing but a minus sign and digits, and ends with a digit. */
  lemma IntToStringChars(n: int)
    ensures var s := IntToString(n);
      (forall i | 0 <= i < |s| :: s[i] == '-' || IsDigit(s[i])) && IsDigit(s[|s| - 1])
  {
  }

  /** The value of a non-empty run of decimal digits. */
  function DigitsValue(s: string): nat
    requires AllDigits(s)
  {
    if s == [] then 0 else DigitsValue(s[..|s| - 1]) * 10 + (s[|s| - 1] as int - '0' as int)
  }

  lemma {:induction false} NatToStringValue(n: nat)
    ensures DigitsValue(NatToString(n)) == n
  {
    if n >= 10 {
      var s := NatToString(n);
      assert s[..|s| - 1] == NatToString(n / 10);
      NatToStringValue(n / 10);
    }
  }

  /** An optional minus sign followed by at least one digit: the inverse of IntToString. */
  function ParseDecimal(s: string): Option<int> {
    if |s| > 0 && s[0] == '-' then
      (if |s| > 1 && AllDigits(s[1..]) then Some(-(DigitsValue(s[1..]) as int)) else None)
    else if |s| > 0 && AllDigits(s) then Some(DigitsValue(s))
    else None
  }

  lemma IntToStringRoundTrip(n: int)
    ensures ParseDecimal(IntToString(n)) == Some(n)
  {
    if n < 0 {
      NatToStringValue(-n);
      assert IntToString(n)[1..] == NatToString(-n);
    } else {
      NatToStringValue(n);
    }
  }

  lemma IntToStringInjective(m: int, n: int)
    ensures IntToString(m) == IntToString(n) <==> m == n
  {
    IntToStringRoundTrip(m);
    IntToStringRoundTrip(n);
  }

  /** char.IsWhiteSpace as int.TryParse uses it for leading and trailing blanks. */
  predicate IsNumberWhite(c: char) { c == ' ' || ('\t' <= c <= '\r') }

  function TrimStartWhite(s: string): (r: string)
    ensures |r| <= |s| && r == s[|s| - |r|..]
    ensures r == [] || !IsNumberWhite(r[0])
  {
    if |s| > 0 && IsNumberWhite(s[0]) then TrimStartWhite(s[1..]) else s
  }

  function TrimEndWhite(s: string): (r: string)
    ensures |r| <= |s| && r == s[..|r|]
    ensures r == [] || !IsNumberWhite(r[|r| - 1])
  {
    if |s| > 0 && IsNumberWhite(s[|s| - 1]) then TrimEndWhite(s[..|s| - 1]) else s
  }

  /** int.TryParse(s, out n) with NumberStyles.Integer: blanks around an optional sign and
      at least one decimal digit; a value outside Int32 makes the parse fail. */
  function TryParseInt32(s: string): (r: Option<int>)
    ensures r.Some? ==> IsInt32(r.value)
  {
    var t := TrimEndWhite(TrimStartWhite(s));
    var negative := |t| > 0 && t[0] == '-';
    var digits := if |t| > 0 && (t[0] == '-' || t[0] == '+') then t[1..] else t;
    if |digits| == 0 || !AllDigits(digits) then None
    else
      var v := if negative then -(DigitsValue(digits) as int) else DigitsValue(digits) as int;
      if IsInt32(v) then Some(v) else None
  }

  lemma TryParseInt32OfIntToString(n: int)
    requires IsInt32(n)
    ensures TryParseInt32(IntToString(n)) == Some(n)
  {
    var s := IntToString(n);
    assert TrimStartWhite(s) == s;
    assert TrimEndWhite(s) == s;
    IntToStringRoundTrip(n);
    if n < 0 {
      assert s[1..] == NatToString(-n);
    }
  }

  /** Every piece of s between occurrences of sep, empty pieces included. */
  function SplitOn(s: string, sep: char): (pieces: seq<string>)
    ensures |pieces| >= 1
    ensures forall i | 0 <= i < |pieces| :: sep !in pieces[i]
  {
    if s == [] then [[]]
    else if s[0] == sep then [[]] + SplitOn(s[1..], sep)
    else
      var rest := SplitOn(s[1..], sep);
      [[s[0]] + rest[0]] + rest[1..]
  }

  function NonEmpty(pieces: seq<string>): (r: seq<string>)
    ensures forall i | 0 <= i < |r| :: r[i] != [] && r[i] in pieces
    ensures forall x | x in pieces && x != [] :: x in r
  {
    if pieces == [] then []
    else (if pieces[0] == [] then [] else [pieces[0]]) + NonEmpty(pieces[1..])
  }

  /** s.Split(sep, StringSplitOptions.RemoveEmptyEntries). */
  function SplitRemoveEmpty(s: string, sep: char): seq<string> {
    NonEmpty(SplitOn(s, sep))
  }

  /** string.Join(sep, items). */
  function Join(items: seq<string>, sep: char): string {
    if items == [] then []
    else if |items| == 1 then items[0]
    else items[0] + [sep] + Join(items[1..], sep)
  }

  lemma {:induction false} SplitOnWithoutSep(s: string, sep: char)
    requires sep !in s
    ensures SplitOn(s, sep) == [s]
  {
    if s != [] {
      assert s[0] in s;
      SplitOnWithoutSep(s[1..], sep);
      assert [s[0]] + s[1..] == s;
    }
  }

  lemma {:induction false} SplitOnPrefix(x: string, sep: char, rest: string)
    requires sep !in x
    ensures SplitOn(x + [sep] + rest, sep) == [x] + SplitOn(rest, sep)
  {
    if x != [] {
      assert x[0] in x;
      assert (x + [sep] + rest)[1..] == x[1..] + [sep] + rest;
      SplitOnPrefix(x[1..], sep, rest);
      assert [x[0]] + x[1..] == x;
    } else {
      assert ([] + [sep] + rest)[1..] == rest;
    }
  }

  /** Splitting a joined list gives the list back when no item contains the separator. */
  lemma {:induction false} SplitJoinRoundTrip(items: seq<string>, sep: char)
    requires items != []
    requires forall i | 0 <= i < |items| :: sep !in items[i]
    ensures SplitOn(Join(items, sep), sep) == items
  {
    if |items| == 1 {
      SplitOnWithoutSep(items[0], sep);
    } else {
      SplitOnPrefix(items[0], sep, Join(items[1..], sep));
      SplitJoinRoundTrip(items[1..], sep);
    }
  }

  /** The upper-case form of an ASCII letter; every other character is its own form. */
  function FoldAscii(c: char): char {
    if 'a' <= c <= 'z' then (c as int - 32) as char else c
  }

  /** StringComparison.OrdinalIgnoreCase, restricted to ASCII case pairs. */
  predicate EqualsIgnoreCase(a: string, b: string) {
    |a| == |b| && forall i | 0 <= i < |a| :: FoldAscii(a[i]) == FoldAscii(b[i])
  }

  lemma EqualsIgnoreCaseIsEquivalence(a: string, b: string, c: string)
    ensures EqualsIgnoreCase(a, a)
    ensures EqualsIgnoreCase(a, b) ==> EqualsIgnoreCase(b, a)
    ensures EqualsIgnoreCase(a, b) && EqualsIgnoreCase(b, c) ==> EqualsIgnoreCase(a, c)
  {
  }
}
