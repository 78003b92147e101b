/** Printing and parsing of integers: String's formatters, strtol behind
    String::toInt, and the token scanner behind Stream::parseInt. */
module Numbers {
  import opened Common

  const LONG_MAX: int := 0x7FFF_FFFF_FFFF_FFFF
  const LONG_MIN: int := -0x8000_0000_0000_0000
  const ULL_COUNT: nat := 0x1_0000_0000_0000_0000

  /** "0123456789ABCDEFGHIJKLMNOPQRSTUVWXYZ"[d] */
  function DigitChar(d: nat): char
    requires d < 36
  {
    if d < 10 then ('0' as int + d) as char else ('A' as int + d - 10) as char
  }

  // ---- Printing -----------------------------------------------------------

  /** Most significant digit first. */
  function Digits(v: nat, base: nat): (s: string)
    requires 2 <= base <= 36
    ensures s != []
    decreases v
  {
    Quotient(v, base);
    if v < base then [DigitChar(v)] else Digits(v / base, base) + [DigitChar(v % base)]
  }

  function Decimal(v: int): string {
    if v < 0 then "-" + Digits(-v, 10) else Digits(v, 10)
  }

  /** Unsupported bases print in decimal. */
  function EffectiveBase(base: nat): nat { if 2 <= base <= 36 then base else 10 }

  lemma Quotient(v: nat, base: nat)
    requires base >= 2
    ensures v / base == 0 <==> v < base
    ensures v < base ==> v % base == v
    ensures v / base * base + v % base == v
    ensures v > 0 ==> v / base < v
    ensures 0 <= v / base && 0 <= v % base < base
  {
    var q := v / base;
    assert q > 0 ==> q * base >= q * 2;
  }

  /** The digits before the last one. */
  function Front(v: nat, base: nat): string
    requires 2 <= base <= 36
  {
    if v < base then "" else Digits(v / base, base)
  }

  lemma LastDigit(v: nat, base: nat)
    requires 2 <= base <= 36
    ensures Digits(v, base) == Front(v, base) + [DigitChar(v % base)]
    ensures Front(v, base) == "" <==> v / base == 0
  {
    Quotient(v, base);
  }

  /** Digits not printed yet, nothing once the number is used up. */
  function Pending(v: nat, base: nat): string
    requires 2 <= base <= 36
  {
    if v == 0 then "" else Digits(v, base)
  }

  lemma PrintOne(v: nat, base: nat, out: string)
    requires 2 <= base <= 36
    ensures Digits(v, base) + out == Pending(v / base, base) + ([DigitChar(v % base)] + out)
  {
    FrontIsPending(v, base);
    LastDigit(v, base);
    var front, c := Front(v, base), DigitChar(v % base);
    assert (front + [c]) + out == front + ([c] + out);
  }

  lemma FrontIsPending(v: nat, base: nat)
    requires 2 <= base <= 36
    ensures Front(v, base) == Pending(v / base, base)
  {
    Quotient(v, base);
  }

  /** The base 10 branch goes through an output stream, which prints decimal. */
  method FormatUnsigned(value: nat, base: nat) returns (out: string)
    ensures out == Digits(value, EffectiveBase(base))
    ensures Value(out, if 2 <= base <= 36 then base else 10) == value
  {
    PositionalValue(value, EffectiveBase(base));
    if base == 10 || base < 2 || base > 36 {
      return Digits(value, 10);
    }
    // do { ... } while (value): the test is skipped the first time round
    out := "";
    var rest: nat, first := value, true;
    while first || rest != 0
      invariant first ==> rest == value && out == ""
      invariant Digits(value, base) == (if first then Digits(value, base) else Pending(rest, base)) + out
      decreases first, rest
    {
      PrintOne(rest, base, out);
      Quotient(rest, base);
      out := [DigitChar(rest % base)] + out;
      rest, first := rest / base, false;
    }
  }

  /** Other bases than 10 print the two's complement bit pattern. */
  method FormatSigned(value: int, base: nat) returns (out: string)
    requires LONG_MIN <= value <= LONG_MAX
    ensures out == if base == 10 then Decimal(value) else Digits(value % ULL_COUNT, EffectiveBase(base))
  {
    if base == 10 {
      return Decimal(value);
    }
    out := FormatUnsigned(value % ULL_COUNT, base);
  }

  // ---- Digits and positional value ----------------------------------------

  /** 36 for a character that is a digit in no base. */
  function DigitValue(c: char): (d: nat)
    ensures d <= 36
  {
    if '0' <= c <= '9' then c as int - '0' as int
    else if 'A' <= c <= 'Z' then c as int - 'A' as int + 10
    else if 'a' <= c <= 'z' then c as int - 'a' as int + 10
    else 36
  }

  predicate AllDigits(s: string, base: nat) {
    forall i :: 0 <= i < |s| ==> DigitValue(s[i]) < base
  }

  function Value(s: string, base: nat): nat {
    if s == [] then 0 else Value(s[..|s| - 1], base) * base + DigitValue(s[|s| - 1])
  }

  lemma DigitRoundTrip(d: nat)
    requires d < 36
    ensures DigitValue(DigitChar(d)) == d && (DigitChar(d) == '0' <==> d == 0)
  {
  }

  lemma ValueAppend(s: string, c: char, base: nat)
    ensures Value(s + [c], base) == Value(s, base) * base + DigitValue(c)
  {
    assert (s + [c])[..|s + [c]| - 1] == s;
  }

  lemma {:induction false} PrintedDigits(v: nat, base: nat)
    requires 2 <= base <= 36
    ensures AllDigits(Digits(v, base), base)
    ensures Digits(v, base)[0] == '0' <==> v == 0
    decreases v
  {
    LastDigit(v, base);
    DigitRoundTrip(v % base);
    if v < base {
      Quotient(v, base);
    } else {
      Quotient(v, base);
      PrintedDigits(v / base, base);
    }
  }

  lemma {:induction false} PositionalValue(v: nat, base: nat)
    requires 2 <= base <= 36
    ensures Value(Digits(v, base), base) == v
    decreases v
  {
    LastDigit(v, base);
    DigitRoundTrip(v % base);
    ValueAppend(Front(v, base), DigitChar(v % base), base);
    Quotient(v, base);
    if v >= base {
      PositionalValue(v / base, base);
    }
  }

  /** For every base 2..36: each character is a digit of the base, the positional
      value is the number, and there is no leading zero save in "0" itself. */
  lemma PrintedValue(v: nat, base: nat)
    requires 2 <= base <= 36
    ensures AllDigits(Digits(v, base), base)
    ensures Value(Digits(v, base), base) == v
    ensures Digits(v, base)[0] == '0' <==> v == 0
    ensures |Digits(v, base)| == 1 <==> v < base
  {
    PrintedDigits(v, base);
    PositionalValue(v, base);
    LastDigit(v, base);
    Quotient(v, base);
  }

  // ---- strtol -------------------------------------------------------------

  predicate IsSpace(c: char) { c == ' ' || '\t' <= c <= '\r' }

  function SkipSpaces(s: string): string {
    if s != [] && IsSpace(s[0]) then SkipSpaces(s[1..]) else s
  }

  /** How many leading characters are digits of the base. */
  function DigitRun(s: string, base: nat): (n: nat)
    ensures n <= |s|
    ensures AllDigits(s[..n], base)
    ensures n < |s| ==> DigitValue(s[n]) >= base
  {
    if s == [] || DigitValue(s[0]) >= base then 0 else
      var n := DigitRun(s[1..], base);
      assert forall i :: 0 < i <= n ==> s[i] == s[1..][i - 1];
      n + 1
  }

  /** A "0x" is skipped in base 16 when a hexadecimal digit follows it. */
  function SkipPrefix(s: string, base: nat): string {
    if base == 16 && |s| >= 3 && s[0] == '0' && (s[1] == 'x' || s[1] == 'X') && DigitValue(s[2]) < 16
    then s[2..] else s
  }

  function Saturate(v: int): int {
    if v > LONG_MAX then LONG_MAX else if v < LONG_MIN then LONG_MIN else v
  }

  /** strtol(s.c_str(), NULL, base); a NUL is no digit and so ends the number. */
  function Strtol(s: string, base: nat): int {
    var t := SkipSpaces(s);
    var negative := t != [] && t[0] == '-';
    var u := SkipPrefix(if t != [] && (t[0] == '-' || t[0] == '+') then t[1..] else t, base);
    var magnitude: int := Value(u[..DigitRun(u, base)], base);
    Saturate(if negative then 0 - magnitude else magnitude)
  }

  function ToInt(s: string): int { Strtol(s, 10) }

  lemma {:induction false} DigitRunIs(s: string, tail: string, base: nat)
    requires AllDigits(s, base) && (tail == [] || DigitValue(tail[0]) >= base)
    ensures DigitRun(s + tail, base) == |s|
  {
    if s == [] {
      assert s + tail == tail;
    } else {
      assert (s + tail)[1..] == s[1..] + tail;
      DigitRunIs(s[1..], tail, base);
    }
  }

  /** Unsigned digits, then anything that is no digit: the value, saturated. */
  lemma ParsedDigits(s: string, tail: string, base: nat)
    requires 2 <= base <= 36 && s != [] && AllDigits(s, base)
    requires tail == [] || DigitValue(tail[0]) >= base
    requires base == 16 ==> tail == [] || (tail[0] != 'x' && tail[0] != 'X')
    ensures Strtol(s + tail, base) == Saturate(Value(s, base))
  {
    var w := s + tail;
    assert w[0] == s[0];
    assert SkipSpaces(w) == w;
    assert |w| >= 2 ==> w[1] == if |s| >= 2 then s[1] else tail[0];
    assert SkipPrefix(w, base) == w;
    DigitRunIs(s, tail, base);
    assert w[..|s|] == s;
  }

  lemma NegativeSign(u: string, digits: string, base: nat)
    requires base == 10 && digits <= u && DigitRun(u, base) == |digits|
    ensures Strtol("-" + u, base) == Saturate(0 - Value(digits, base))
  {
    var w := "-" + u;
    SignSkipped(w);
    assert w[1..] == u;
    assert u[..|digits|] == digits;
  }

  lemma SignSkipped(w: string)
    requires w != [] && w[0] == '-'
    ensures SkipSpaces(w) == w
  {
  }

  lemma ParsedNegativeDecimal(n: nat, tail: string)
    requires tail == [] || DigitValue(tail[0]) >= 10
    ensures ToInt("-" + (Digits(n, 10) + tail)) == Saturate(0 - n)
  {
    var s := Digits(n, 10);
    PrintedValue(n, 10);
    DigitRunIs(s, tail, 10);
    NegativeSign(s + tail, s, 10);
  }

  lemma ParsedPositiveDecimal(n: nat, tail: string)
    requires tail == [] || DigitValue(tail[0]) >= 10
    ensures ToInt(Digits(n, 10) + tail) == Saturate(n)
  {
    PrintedValue(n, 10);
    ParsedDigits(Digits(n, 10), tail, 10);
  }

  /** toInt undoes decimal printing for every long, and saturates beyond. */
  lemma ParsedDecimal(v: int, tail: string)
    requires tail == [] || DigitValue(tail[0]) >= 10
    ensures ToInt(Decimal(v) + tail)
         == if v > 9223372036854775807 then 9223372036854775807
            else if v < -9223372036854775808 then -9223372036854775808 else v
    ensures LONG_MIN <= v <= LONG_MAX ==> ToInt(Decimal(v) + tail) == v
  {
    if v >= 0 {
      ParsedPositiveDecimal(v, tail);
    } else {
      var n: nat := 0 - v;
      ParsedNegativeDecimal(n, tail);
      assert Decimal(v) + tail == "-" + (Digits(n, 10) + tail);
    }
  }

  // ---- Stream::readToken and parseInt -------------------------------------

  predicate TokenChar(c: char) { '0' <= c <= '9' || c == '-' || c == '+' }

  /** The token, started or not with `out`, and what is left after it. */
  function Scan(input: string, skip: Option<char>, started: bool, out: string): (string, string)
    decreases |input|
  {
    if input == [] then (out, [])
    else if skip == Some(input[0]) then Scan(input[1..], skip, started, out)
    else if !TokenChar(input[0]) then
      (if started then (out, input[1..]) else Scan(input[1..], skip, started, out))
    else Scan(input[1..], skip, true, out + [input[0]])
  }

  /** A stream whose peek and read time out once nothing is left to come. */
  class TokenStream {
    var unread: string

    constructor (input: string)
      ensures unread == input
    {
      unread := input;
    }

    method ReadToken(skip: Option<char>) returns (out: string)
      modifies this
      ensures (out, unread) == Scan(old(unread), skip, false, "")
    {
      out := "";
      var started := false;
      while unread != []
        invariant Scan(unread, skip, started, out) == Scan(old(unread), skip, false, "")
        decreases |unread|
      {
        var c := unread[0];
        if skip == Some(c) {
          unread := unread[1..];
          continue;
        }
        if !TokenChar(c) {
          unread := unread[1..];
          if started {
            break;
          }
          continue;
        }
        started := true;
        out := out + [c];
        unread := unread[1..];
      }
    }

    method ParseInt(skip: Option<char>) returns (v: int)
      modifies this
      ensures v == ToInt(Scan(old(unread), skip, false, "").0)
      ensures unread == Scan(old(unread), skip, false, "").1
    {
      var token := ReadToken(skip);
      v := ToInt(token);
    }
  }

  lemma {:induction false} ScanJunk(junk: string, rest: string)
    requires forall i :: 0 <= i < |junk| ==> !TokenChar(junk[i])
    ensures Scan(junk + rest, None, false, "") == Scan(rest, None, false, "")
  {
    if junk == [] {
      assert junk + rest == rest;
    } else {
      assert (junk + rest)[1..] == junk[1..] + rest;
      ScanJunk(junk[1..], rest);
    }
  }

  lemma {:induction false} ScanToken(token: string, rest: string, started: bool, out: string)
    requires forall i :: 0 <= i < |token| ==> TokenChar(token[i])
    ensures Scan(token + rest, None, started, out) == Scan(rest, None, started || token != [], out + token)
  {
    if token == [] {
      assert token + rest == rest && out + token == out;
    } else {
      assert (token + rest)[1..] == token[1..] + rest;
      ScanToken(token[1..], rest, true, out + [token[0]]);
      assert (out + [token[0]]) + token[1..] == out + token;
    }
  }

  lemma {:induction false} DigitsAreTokens(v: nat)
    ensures forall i :: 0 <= i < |Digits(v, 10)| ==> TokenChar(Digits(v, 10)[i])
    decreases v
  {
    LastDigit(v, 10);
    if v >= 10 {
      DigitsAreTokens(v / 10);
    }
  }

  lemma DecimalIsToken(v: int)
    ensures Decimal(v) != [] && forall i :: 0 <= i < |Decimal(v)| ==> TokenChar(Decimal(v)[i])
  {
    DigitsAreTokens(if v < 0 then -v else v);
  }

  /** parseInt undoes decimal printing: for every long v, after any junk with no
      digit and no sign in it and before any delimiter that is neither (or the
      end of the input), it returns v and consumes through the delimiter. */
  lemma ParseIntUndoesPrinting(junk: string, v: int, rest: string)
    requires LONG_MIN <= v <= LONG_MAX
    requires forall i :: 0 <= i < |junk| ==> !TokenChar(junk[i])
    requires rest == [] || !TokenChar(rest[0])
    ensures var (token, left) := Scan(junk + Decimal(v) + rest, None, false, "");
            ToInt(token) == v && left == if rest == [] then [] else rest[1..]
  {
    var d := Decimal(v);
    assert junk + d + rest == junk + (d + rest);
    ScanJunk(junk, d + rest);
    DecimalIsToken(v);
    ScanToken(d, rest, false, "");
    assert "" + d == d && d + "" == d;
    ParsedDecimal(v, "");
  }

  // ---- Characters to skip -------------------------------------------------

  function Without(s: string, c: char): string {
    if s == [] then [] else (if s[0] == c then [] else [s[0]]) + Without(s[1..], c)
  }

  /** parseInt(skipChar) is parseInt on the input without that character: the same
      token, and the same left over but for it. */
  lemma {:induction false} SkippingIsRemoving(input: string, c: char, started: bool, out: string)
    ensures Scan(input, Some(c), started, out).0 == Scan(Without(input, c), None, started, out).0
    ensures Without(Scan(input, Some(c), started, out).1, c) == Scan(Without(input, c), None, started, out).1
    decreases |input|
  {
    if input != [] {
      var rest := Without(input[1..], c);
      if input[0] == c {
        assert Without(input, c) == rest;
        SkippingIsRemoving(input[1..], c, started, out);
      } else {
        assert Without(input, c) == [input[0]] + rest && ([input[0]] + rest)[1..] == rest;
        if TokenChar(input[0]) {
          SkippingIsRemoving(input[1..], c, true, out + [input[0]]);
        } else if !started {
          SkippingIsRemoving(input[1..], c, started, out);
        }
      }
    }
  }

  /** So a long is recovered with the skipped character anywhere in its digits, as a
      thousands separator would be. */
  lemma ParseIntSkips(input: string, c: char, junk: string, v: int, rest: string)
    requires Without(input, c) == junk + Decimal(v) + rest
    requires LONG_MIN <= v <= LONG_MAX
    requires forall i :: 0 <= i < |junk| ==> !TokenChar(junk[i])
    requires rest == [] || !TokenChar(rest[0])
    ensures var (token, left) := Scan(input, Some(c), false, "");
            ToInt(token) == v && Without(left, c) == if rest == [] then [] else rest[1..]
  {
    SkippingIsRemoving(input, c, false, "");
    ParseIntUndoesPrinting(junk, v, rest);
  }

  // ---- The pieces, one by one ---------------------------------------------

  lemma DigitCharTable(d: nat)
    requires d < 36
    ensures DigitChar(d) == "0123456789ABCDEFGHIJKLMNOPQRSTUVWXYZ"[d]
  {
  }

  lemma UpperDigitTable(d: nat)
    requires d < 36
    ensures DigitValue("0123456789ABCDEFGHIJKLMNOPQRSTUVWXYZ"[d]) == d
  {
    DigitCharTable(d);
    DigitRoundTrip(d);
  }

  lemma LowerDigitTable(d: nat)
    requires 10 <= d < 36
    ensures DigitValue("abcdefghijklmnopqrstuvwxyz"[d - 10]) == d
  {
  }

  lemma NoOtherDigits(c: char)
    requires c < '0' || '9' < c < 'A' || 'Z' < c < 'a' || 'z' < c
    ensures DigitValue(c) == 36
  {
  }

  /** Numbers are printed in upper case. */
  lemma {:induction false} PrintedInUpperCase(v: nat, base: nat, i: nat)
    requires 2 <= base <= 36 && i < |Digits(v, base)|
    ensures '0' <= Digits(v, base)[i] <= '9' || 'A' <= Digits(v, base)[i] <= 'Z'
    decreases v
  {
    LastDigit(v, base);
    Quotient(v, base);
    if v >= base && i < |Digits(v / base, base)| {
      PrintedInUpperCase(v / base, base, i);
    }
  }

  /** A minus sign for the negative ones, no sign for the others. */
  lemma SignIs(v: int)
    ensures Decimal(v)[0] == '-' <==> v < 0
    ensures Decimal(v)[0] != '+'
  {
    if v >= 0 {
      PrintedInUpperCase(v, 10, 0);
    }
  }

  lemma SpacesAre(c: char)
    ensures IsSpace(c) <==> c == ' ' || c == '\t' || c == '\n' || c == '\r' || c as int == 11 || c as int == 12
  {
  }

  lemma TokenCharsAre(c: char)
    ensures TokenChar(c) <==> c == '-' || c == '+' || (c <= '9' && DigitValue(c) < 10)
  {
  }

  /** strtol passes over leading white space. */
  lemma {:induction false} LeadingSpaces(spaces: string, t: string, base: nat)
    requires forall i :: 0 <= i < |spaces| ==> IsSpace(spaces[i])
    ensures SkipSpaces(spaces + t) == SkipSpaces(t)
    ensures Strtol(spaces + t, base) == Strtol(t, base)
  {
    if spaces == [] {
      assert spaces + t == t;
    } else {
      assert (spaces + t)[1..] == spaces[1..] + t;
      LeadingSpaces(spaces[1..], t, base);
    }
  }

  /** And a plus sign changes nothing. */
  lemma PlusSign(digits: string, tail: string, base: nat)
    requires 2 <= base <= 36 && digits != [] && AllDigits(digits, base)
    requires tail == [] || DigitValue(tail[0]) >= base
    requires base == 16 ==> tail == [] || (tail[0] != 'x' && tail[0] != 'X')
    ensures Strtol("+" + (digits + tail), base) == Saturate(Value(digits, base))
  {
    var t, u := "+" + (digits + tail), digits + tail;
    assert t[0] == '+' && t[1..] == u && u[0] == digits[0];
    assert SkipSpaces(t) == t && SkipSpaces(u) == u;
    ParsedDigits(digits, tail, base);
  }

  /** A "0x" or "0X" before a hexadecimal digit is part of the number in base 16. */
  lemma HexPrefix(x: char, digits: string, tail: string)
    requires (x == 'x' || x == 'X') && digits != [] && AllDigits(digits, 16)
    requires tail == [] || DigitValue(tail[0]) >= 16
    ensures Strtol("0" + [x] + (digits + tail), 16) == Saturate(Value(digits, 16))
  {
    var w := "0" + [x] + (digits + tail);
    assert w[0] == '0' && w[1] == x && w[2] == digits[0];
    assert SkipSpaces(w) == w && w[2..] == digits + tail;
    assert SkipPrefix(w, 16) == digits + tail;
    DigitRunIs(digits, tail, 16);
    assert (digits + tail)[..|digits|] == digits;
  }

  /** Where no number begins, strtol answers 0. */
  lemma NoNumber(s: string, base: nat)
    requires 2 <= base <= 36
    requires s == [] || (!IsSpace(s[0]) && s[0] != '-' && s[0] != '+' && DigitValue(s[0]) >= base)
    ensures Strtol(s, base) == 0
  {
    assert s[..0] == [];
    assert base == 16 && |s| >= 1 ==> s[0] != '0';
  }
}
