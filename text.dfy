/**
 * The few JavaScript string operations the toolkit relies on, written out:
 * `toLowerCase`, `includes`, `String(n)`, `parseInt` with and without a radix,
 * `padStart(2, '0')`, `Array.prototype.join` and `String.prototype.split` on one character.
 * Case folding covers the ASCII letters only; whitespace is the full
 * ECMAScript set.
 */
module Text {
  import opened Wrappers

  // ----- case -----------------------------------------------------------------

  predicate IsUpper(c: char) { 'A' <= c <= 'Z' }

  function LowerChar(c: char): char {
    if IsUpper(c) then (c as int + 32) as char else c
  }

  /** `s.toLowerCase()` on ASCII letters. */
  function ToLower(s: string): (r: string)
    ensures |r| == |s|
    ensures forall i :: 0 <= i < |s| ==> r[i] == LowerChar(s[i])
    ensures forall i :: 0 <= i < |s| ==> !IsUpper(r[i])
  {
    seq(|s|, i requires 0 <= i < |s| => LowerChar(s[i]))
  }

  // ----- substring search ------------------------------------------------------

  predicate OccursAt(s: string, t: string, i: int) {
    0 <= i && i + |t| <= |s| && s[i..i + |t|] == t
  }

  /** `s.includes(t)`: the position-by-position search the engine performs. */
  function Contains(s: string, t: string): (r: bool)
    ensures r <==> exists i :: OccursAt(s, t, i)
    decreases |s|
  {
    if |t| <= |s| && s[..|t|] == t then
      assert OccursAt(s, t, 0);
      true
    else if |s| == 0 then
      false
    else
      var r := Contains(s[1..], t);
      if r then
        var i :| OccursAt(s[1..], t, i);
        assert s[1..][i..i + |t|] == s[i + 1..i + 1 + |t|];
        assert OccursAt(s, t, i + 1);
        r
      else
        assert forall i :: OccursAt(s, t, i) ==> i >= 1 && OccursAt(s[1..], t, i - 1) by {
          forall i | OccursAt(s, t, i) ensures i >= 1 && OccursAt(s[1..], t, i - 1) {
            assert s[1..][i - 1..i - 1 + |t|] == s[i..i + |t|];
          }
        }
        r
  }

  /** Case-insensitive `includes`, as the search boxes use it. */
  predicate ContainsIgnoringCase(s: string, t: string) {
    Contains(ToLower(s), ToLower(t))
  }

  // ----- numbers to text --------------------------------------------------------

  predicate IsDigit(c: char) { '0' <= c <= '9' }

  predicate AllDigits(s: string) { forall i :: 0 <= i < |s| ==> IsDigit(s[i]) }

  function DigitChar(d: nat): (c: char)
    requires d < 10
    ensures IsDigit(c) && c as int - '0' as int == d
  {
    (d + '0' as int) as char
  }

  function DigitValue(c: char): nat
    requires IsDigit(c)
  {
    c as int - '0' as int
  }

  /** `String(n)` for a non-negative integer: decimal digits, no leading zero. */
  function NatToString(n: nat): (r: string)
    ensures |r| >= 1 && AllDigits(r)
    decreases n
  {
    if n < 10 then [DigitChar(n)] else NatToString(n / 10) + [DigitChar(n % 10)]
  }

  /** `String(i)` for any integer. */
  function IntToString(i: int): (r: string)
    ensures |r| >= 1
    ensures i < 0 <==> r[0] == '-'
  {
    if i < 0 then "-" + NatToString(-i) else NatToString(i)
  }

  /** `s.padStart(2, '0')`. */
  function PadStart2(s: string): (r: string)
    ensures |r| == if |s| < 2 then 2 else |s|
    ensures r[|r| - |s|..] == s
    ensures forall i :: 0 <= i < |r| - |s| ==> r[i] == '0'
  {
    if |s| == 0 then "00" else if |s| == 1 then "0" + s else s
  }

  // ----- text to numbers ---------------------------------------------------------

  /**
   * The whitespace `parseInt` and `trim` skip: ECMAScript's white space
   * (tab, vertical tab, form feed, the byte-order mark and the Unicode space
   * separators) and its line terminators.
   */
  predicate IsSpace(c: char) {
    || c == '\t' || c == '\U{000B}' || c == '\U{000C}' || c == ' ' || c == '\U{00A0}' || c == '\U{FEFF}'
    || c == '\U{1680}' || '\U{2000}' <= c <= '\U{200A}' || c == '\U{202F}' || c == '\U{205F}' || c == '\U{3000}'
    || c == '\n' || c == '\r' || c == '\U{2028}' || c == '\U{2029}'
  }

  predicate IsBlank(s: string) { forall i :: 0 <= i < |s| ==> IsSpace(s[i]) }

  function SkipSpaces(s: string): (r: string)
    ensures |r| <= |s| && r == s[|s| - |r|..]
    ensures |r| > 0 ==> !IsSpace(r[0])
    ensures IsBlank(s) <==> |r| == 0
  {
    if |s| > 0 && IsSpace(s[0]) then
      var r := SkipSpaces(s[1..]);
      assert IsBlank(s) <==> IsBlank(s[1..]) by {
        if IsBlank(s[1..]) {
          forall i | 0 <= i < |s| ensures IsSpace(s[i]) { if i > 0 { assert s[i] == s[1..][i - 1]; } }
        }
      }
      r
    else
      s
  }

  /** The longest prefix of `s` made of decimal digits. */
  function DigitPrefix(s: string): (r: string)
    ensures |r| <= |s| && r == s[..|r|] && AllDigits(r)
    ensures |r| < |s| ==> !IsDigit(s[|r|])
  {
    if |s| > 0 && IsDigit(s[0]) then [s[0]] + DigitPrefix(s[1..]) else ""
  }

  /** The value of a string of decimal digits, most significant first. */
  function DigitsValue(ds: string): nat
    requires AllDigits(ds)
  {
    if |ds| == 0 then 0 else DigitsValue(ds[..|ds| - 1]) * 10 + DigitValue(ds[|ds| - 1])
  }

  /**
   * `parseInt(s, 10)`: skip leading whitespace, read an optional sign and the
   * longest run of digits after it; `None` is `NaN` (no digit at all).
   */
  function ParseInt(s: string): (r: Option<int>)
    ensures r.None? <==> |DigitPrefix(Unsigned(SkipSpaces(s)))| == 0
  {
    ParseSigned(SkipSpaces(s))
  }

  /** `parseInt` once the leading whitespace is gone: a sign, then digits. */
  function ParseSigned(t: string): (r: Option<int>)
    ensures r.None? <==> |DigitPrefix(Unsigned(t))| == 0
  {
    var ds := DigitPrefix(Unsigned(t));
    var v: int := if |ds| == 0 then 0 else DigitsValue(ds);
    if |ds| == 0 then None
    else if |t| > 0 && t[0] == '-' then Some(-v)
    else Some(v)
  }

  /** Leading whitespace of any kind `parseInt` skips leaves the reading unchanged. */
  lemma {:induction false} ParseIntSkipsSpaces(ws: string, s: string)
    requires IsBlank(ws)
    ensures ParseInt(ws + s) == ParseInt(s)
  {
    SkipSpacesAfterBlank(ws, s);
  }

  lemma {:induction false} SkipSpacesAfterBlank(ws: string, s: string)
    requires IsBlank(ws)
    ensures SkipSpaces(ws + s) == SkipSpaces(s)
  {
    if |ws| > 0 {
      assert (ws + s)[0] == ws[0] && (ws + s)[1..] == ws[1..] + s;
      SkipSpacesAfterBlank(ws[1..], s);
    } else {
      assert ws + s == s;
    }
  }

  function Unsigned(t: string): string {
    if |t| > 0 && (t[0] == '-' || t[0] == '+') then t[1..] else t
  }

  lemma {:induction false} DigitsValueOfNatToString(n: nat)
    ensures DigitsValue(NatToString(n)) == n
    decreases n
  {
    var s := NatToString(n);
    if n < 10 {
      assert s[..0] == "";
    } else {
      DigitsValueOfNatToString(n / 10);
      assert s[..|s| - 1] == NatToString(n / 10);
    }
  }

  lemma {:induction false} DigitPrefixOfDigits(s: string)
    requires AllDigits(s)
    ensures DigitPrefix(s) == s
  {
    if |s| > 0 {
      DigitPrefixOfDigits(s[1..]);
    }
  }

  /** `parseInt(String(i), 10) === i`: printing an integer and parsing it back is the identity. */
  lemma ParseIntOfIntToString(i: int)
    ensures ParseInt(IntToString(i)) == Some(i)
  {
    var n: nat := if i < 0 then -i else i;
    var digits := NatToString(n);
    var t := IntToString(i);
    assert !IsSpace(t[0]);
    assert SkipSpaces(t) == t;
    DigitPrefixOfDigits(digits);
    DigitsValueOfNatToString(n);
    if i < 0 {
      assert t == "-" + digits;
      assert Unsigned(t) == digits;
    } else {
      assert t == digits;
      assert Unsigned(t) == digits;
    }
  }

  // ----- parseInt without a radix -------------------------------------------------

  predicate IsHexDigit(c: char) { IsDigit(c) || 'a' <= c <= 'f' || 'A' <= c <= 'F' }

  predicate AllHexDigits(s: string) { forall i :: 0 <= i < |s| ==> IsHexDigit(s[i]) }

  function HexDigitValue(c: char): (v: nat)
    requires IsHexDigit(c)
    ensures v < 16
    ensures IsDigit(c) ==> v == DigitValue(c)
  {
    if IsDigit(c) then DigitValue(c)
    else if 'a' <= c <= 'f' then c as int - 'a' as int + 10
    else c as int - 'A' as int + 10
  }

  /** The longest prefix of `s` made of hexadecimal digits. */
  function HexPrefix(s: string): (r: string)
    ensures |r| <= |s| && r == s[..|r|] && AllHexDigits(r)
    ensures |r| < |s| ==> !IsHexDigit(s[|r|])
  {
    if |s| > 0 && IsHexDigit(s[0]) then [s[0]] + HexPrefix(s[1..]) else ""
  }

  /** The value of a string of hexadecimal digits, most significant first. */
  function HexValue(hs: string): nat
    requires AllHexDigits(hs)
  {
    if |hs| == 0 then 0 else HexValue(hs[..|hs| - 1]) * 16 + HexDigitValue(hs[|hs| - 1])
  }

  /** The "0x" or "0X" that makes `parseInt` without a radix read hexadecimal. */
  predicate HexMarked(u: string) { |u| >= 2 && u[0] == '0' && (u[1] == 'x' || u[1] == 'X') }

  /**
   * `parseInt(s)` with no radix: as `parseInt(s, 10)`, except that "0x" or
   * "0X" right after the sign switches to hexadecimal, and `NaN` when no
   * hexadecimal digit follows that mark.
   */
  function ParseIntNoRadix(s: string): (r: Option<int>)
    ensures !HexMarked(Unsigned(SkipSpaces(s))) ==> r == ParseInt(s)
    ensures HexMarked(Unsigned(SkipSpaces(s))) ==>
              (r.None? <==> |HexPrefix(Unsigned(SkipSpaces(s))[2..])| == 0)
  {
    var t := SkipSpaces(s);
    var u := Unsigned(t);
    if HexMarked(u) then
      var hs := HexPrefix(u[2..]);
      var v: int := if |hs| == 0 then 0 else HexValue(hs);
      if |hs| == 0 then None
      else if |t| > 0 && t[0] == '-' then Some(-v)
      else Some(v)
    else ParseSigned(t)
  }

  lemma {:induction false} HexPrefixOfHexDigits(hs: string, rest: string)
    requires AllHexDigits(hs)
    requires |rest| > 0 ==> !IsHexDigit(rest[0])
    ensures HexPrefix(hs + rest) == hs
  {
    if |hs| > 0 {
      assert (hs + rest)[0] == hs[0] && (hs + rest)[1..] == hs[1..] + rest;
      HexPrefixOfHexDigits(hs[1..], rest);
    } else {
      assert hs + rest == rest;
    }
  }

  /**
   * A hexadecimal literal "0x<digits>", followed by anything that is not a
   * hexadecimal digit, reads as the value of its digits.
   */
  lemma ParseIntNoRadixOfHex(hs: string, rest: string)
    requires |hs| > 0 && AllHexDigits(hs)
    requires |rest| > 0 ==> !IsHexDigit(rest[0])
    ensures ParseIntNoRadix("0x" + hs + rest) == Some(HexValue(hs))
  {
    HexPrefixOfHexDigits(hs, rest);
    HexLiteralShape(hs, rest);
    HexReading("0x" + hs + rest, hs);
  }

  lemma HexLiteralShape(hs: string, rest: string)
    ensures ("0x" + hs + rest)[0] == '0' && ("0x" + hs + rest)[1] == 'x'
    ensures ("0x" + hs + rest)[2..] == hs + rest
  {
  }

  lemma HexReading(s: string, hs: string)
    requires |s| > 0 && !IsSpace(s[0]) && s[0] != '-' && s[0] != '+' && HexMarked(s)
    requires |hs| > 0 && HexPrefix(s[2..]) == hs
    ensures ParseIntNoRadix(s) == Some(HexValue(hs))
  {
    assert SkipSpaces(s) == s;
  }

  /** A written-out integer never carries the hexadecimal mark, so it reads back as itself. */
  lemma ParseIntNoRadixOfIntToString(i: int)
    ensures ParseIntNoRadix(IntToString(i)) == Some(i)
  {
    var t := IntToString(i);
    var n: nat := if i < 0 then -i else i;
    assert !IsSpace(t[0]);
    assert SkipSpaces(t) == t;
    assert Unsigned(t) == NatToString(n);
    assert !HexMarked(NatToString(n)) by {
      var d := NatToString(n);
      if |d| >= 2 { assert IsDigit(d[1]); }
    }
    ParseIntOfIntToString(i);
  }

  // ----- join and split ------------------------------------------------------

  /** `parts.join(sep)`. */
  function Join(parts: seq<string>, sep: string): string {
    if |parts| == 0 then ""
    else if |parts| == 1 then parts[0]
    else parts[0] + sep + Join(parts[1..], sep)
  }

  /** `s.split(c)` for a one-character separator. */
  function Split(s: string, c: char): (r: seq<string>)
    ensures |r| >= 1
    decreases |s|
  {
    if |s| == 0 then [""]
    else if s[0] == c then [""] + Split(s[1..], c)
    else
      var rest := Split(s[1..], c);
      [[s[0]] + rest[0]] + rest[1..]
  }

  predicate Free(s: string, c: char) { forall i :: 0 <= i < |s| ==> s[i] != c }

  lemma {:induction false} SplitPrefix(a: string, b: string, c: char)
    requires Free(a, c)
    ensures Split(a + b, c) == [a + Split(b, c)[0]] + Split(b, c)[1..]
    decreases |a|
  {
    if |a| > 0 {
      assert (a + b)[1..] == a[1..] + b;
      SplitPrefix(a[1..], b, c);
      assert [a[0]] + (a[1..] + Split(b, c)[0]) == a + Split(b, c)[0];
    } else {
      assert a == "" && a + b == b;
      assert a + Split(b, c)[0] == Split(b, c)[0];
    }
  }

  /**
   * Splitting a join on a separator that occurs in no part gives the parts back,
   * so such a join is injective.
   */
  lemma {:induction false} SplitJoin(parts: seq<string>, c: char)
    requires |parts| >= 1
    requires forall k :: 0 <= k < |parts| ==> Free(parts[k], c)
    ensures Split(Join(parts, [c]), c) == parts
  {
    if |parts| == 1 {
      SplitPrefix(parts[0], "", c);
      assert parts[0] + "" == parts[0];
    } else {
      var rest := Join(parts[1..], [c]);
      SplitJoin(parts[1..], c);
      assert Join(parts, [c]) == parts[0] + ([c] + rest);
      SplitPrefix(parts[0], [c] + rest, c);
      assert ([c] + rest)[1..] == rest;
      assert Split([c] + rest, c) == [""] + parts[1..];
      assert parts[0] + "" == parts[0];
    }
  }

  /** A separator splits a text in two: the pieces before it, then the pieces after it. */
  lemma {:induction false} SplitAt(a: string, b: string, c: char)
    ensures Split(a + [c] + b, c) == Split(a, c) + Split(b, c)
    decreases |a|
  {
    var s := a + [c] + b;
    if |a| == 0 {
      assert s == [c] + b && s[1..] == b;
    } else {
      assert s[1..] == a[1..] + [c] + b;
      SplitAt(a[1..], b, c);
    }
  }

  /** A field between two separators comes out as one piece, between the pieces around it. */
  lemma SplitQuoted(head: string, field: string, tail: string, c: char)
    requires Free(field, c)
    ensures Split(head + [c] + field + [c] + tail, c) == Split(head, c) + [field] + Split(tail, c)
  {
    assert head + [c] + field + [c] + tail == head + [c] + (field + [c] + tail);
    SplitAt(head, field + [c] + tail, c);
    SplitAt(field, tail, c);
    SplitFree(field, c);
  }

  /** A text without the separator is a single piece. */
  lemma SplitFree(a: string, c: char)
    requires Free(a, c)
    ensures Split(a, c) == [a]
  {
    SplitPrefix(a, "", c);
    assert a + "" == a;
  }

  lemma JoinInjective(p: seq<string>, q: seq<string>, c: char)
    requires |p| >= 1 && |q| >= 1
    requires forall k :: 0 <= k < |p| ==> Free(p[k], c)
    requires forall k :: 0 <= k < |q| ==> Free(q[k], c)
    requires Join(p, [c]) == Join(q, [c])
    ensures p == q
  {
    SplitJoin(p, c);
    SplitJoin(q, c);
  }
}
