/** Reading numbers: the saturating parser behind the `strtol` family, and the exact parser of command-line options. */
module NumberParsing {
  import opened Words
  import opened Wrappers

  const ULLONG_MAX: Word64 := 0xFFFF_FFFF_FFFF_FFFF
  const LONG_MAX: int := 0x7FFF_FFFF_FFFF_FFFF
  const LONG_MIN: int := -0x8000_0000_0000_0000

  /** A C string without its terminator. */
  type CString = s: string | '\0' !in s

  function At(s: CString, i: nat): char
    requires i <= |s|
  {
    if i < |s| then s[i] else '\0'
  }

  predicate AsciiSpace(c: char) {
    c in {' ', '\n', '\r', '\t'} || c as int in {11, 12}
  }

  function DigitValue(c: char): (d: int)
    ensures -1 <= d < 36
  {
    if '0' <= c <= '9' then c as int - '0' as int
    else if 'a' <= c <= 'z' then c as int - 'a' as int + 10
    else if 'A' <= c <= 'Z' then c as int - 'A' as int + 10
    else -1
  }

  // ----- what a string of digits is worth -----

  predicate IsDigit(c: char, base: int) {
    0 <= DigitValue(c) < base
  }

  predicate AllDigits(t: string, base: int) {
    forall i | 0 <= i < |t| :: IsDigit(t[i], base)
  }

  /** The number the digits denote. */
  function Value(t: string, base: int): (v: nat)
    requires AllDigits(t, base)
  {
    if t == [] then 0
    else
      var last := |t| - 1;
      assert IsDigit(t[last], base);
      NonNegativeProduct(Value(t[..last], base), base);
      Value(t[..last], base) * base + DigitValue(t[last])
  }

  lemma NonNegativeProduct(a: nat, b: nat)
    ensures a * b >= 0
  {
  }

  lemma ValueOfNext(s: string, from: nat, p: nat, base: int)
    requires from <= p < |s| && AllDigits(s[from..p], base) && IsDigit(s[p], base)
    ensures AllDigits(s[from..p + 1], base)
    ensures Value(s[from..p + 1], base) == Value(s[from..p], base) * base + DigitValue(s[p])
  {
    assert s[from..p + 1] == s[from..p] + [s[p]];
    assert s[from..p + 1][..p - from] == s[from..p];
  }

  /** Further digits never make the number smaller. */
  lemma {:induction false} PrefixIsSmaller(t: string, k: nat, base: int)
    requires AllDigits(t, base) && k <= |t|
    ensures AllDigits(t[..k], base) && Value(t[..k], base) <= Value(t, base)
    decreases |t| - k
  {
    if k < |t| {
      PrefixIsSmaller(t, k + 1, base);
      assert t[..k + 1][..k] == t[..k];
      assert IsDigit(t[k], base);
      Grows(Value(t[..k], base), base);
    } else {
      assert t[..k] == t;
    }
  }

  lemma Grows(v: nat, base: nat)
    requires base >= 1
    ensures v * base >= v
  {
    assert v * base == v + v * (base - 1);
    NonNegativeProduct(v, base - 1);
  }

  /** The guard against overflow is exact. */
  lemma GuardIsExact(v: Word64, digit: nat, base: nat)
    requires digit < base && digit <= ULLONG_MAX
    ensures v > (ULLONG_MAX - digit) / base <==> v * base + digit > ULLONG_MAX
  {
    var room := ULLONG_MAX - digit;
    var q := room / base;
    assert room == base * q + room % base;
    if v > q {
      assert v * base == q * base + base + (v - q - 1) * base;
      NonNegativeProduct(v - q - 1, base);
    } else {
      assert q * base == v * base + (q - v) * base;
      NonNegativeProduct(q - v, base);
    }
  }

  function Saturated(v: nat): Word64 {
    if v > ULLONG_MAX then ULLONG_MAX else v
  }

  // ----- the C library's parsers -----

  /** What precedes the digits: where they start, the base they are read in, and the sign. */
  datatype Header = Header(start: nat, base: int, negative: bool)

  function AfterSpaces(s: CString, i: nat): (r: nat)
    requires i <= |s|
    ensures i <= r <= |s| && !AsciiSpace(At(s, r)) && forall j | i <= j < r :: AsciiSpace(s[j])
    decreases |s| - i
  {
    if i < |s| && AsciiSpace(s[i]) then AfterSpaces(s, i + 1) else i
  }

  predicate HexPrefix(s: CString, p: nat)
    requires p <= |s|
  {
    At(s, p) == '0' && At(s, p + 1) in {'x', 'X'}
  }

  /** Spaces, a sign, and a prefix that fixes the base or repeats it. */
  function HeaderOf(s: CString, base: int): (h: Header)
    ensures h.start <= |s| && h.base != 0
  {
    var p0 := AfterSpaces(s, 0);
    var signed := At(s, p0) in {'+', '-'};
    var p := if signed then p0 + 1 else p0;
    var negative := At(s, p0) == '-';
    if base == 0 then
      if HexPrefix(s, p) then Header(p + 2, 16, negative)
      else if At(s, p) == '0' then Header(p, 8, negative)
      else Header(p, 10, negative)
    else if base == 16 && HexPrefix(s, p) then Header(p + 2, 16, negative)
    else Header(p, base, negative)
  }

  method ReadHeader(s: CString, base: int) returns (h: Header)
    ensures h == HeaderOf(s, base)
  {
    var p := 0;
    while AsciiSpace(At(s, p))
      invariant p <= |s| && AfterSpaces(s, p) == AfterSpaces(s, 0)
      decreases |s| - p
    {
      p := p + 1;
    }
    var negative := false;
    if At(s, p) == '+' || At(s, p) == '-' {
      negative := At(s, p) == '-';
      p := p + 1;
    }
    var b := base;
    if base == 0 {
      if HexPrefix(s, p) {
        b := 16;
        p := p + 2;
      } else if At(s, p) == '0' {
        b := 8;
      } else {
        b := 10;
      }
    } else if base == 16 && HexPrefix(s, p) {
      p := p + 2;
    }
    return Header(p, b, negative);
  }

  /** The digits of a number: the longest run from where they start. */
  ghost predicate DigitRun(s: CString, h: Header, end: nat)
    requires h.start <= |s|
  {
    && h.start <= end <= |s|
    && AllDigits(s[h.start..end], h.base)
    && !IsDigit(At(s, end), h.base)
  }

  function DigitsEnd(s: CString, h: Header, p: nat): (end: nat)
    requires h.start <= p <= |s| && AllDigits(s[h.start..p], h.base)
    ensures DigitRun(s, h, end)
    decreases |s| - p
  {
    if IsDigit(At(s, p), h.base) then
      assert s[h.start..p + 1] == s[h.start..p] + [s[p]];
      DigitsEnd(s, h, p + 1)
    else p
  }

  /** The number the string denotes, without its sign, and where its digits end. */
  function Magnitude(s: CString, base: int): nat {
    var h := HeaderOf(s, base);
    Value(s[h.start..DigitsEnd(s, h, h.start)], h.base)
  }

  function EndOf(s: CString, base: int): nat {
    DigitsEnd(s, HeaderOf(s, base), HeaderOf(s, base).start)
  }

  /** `parse_unsigned_compat`: reads the longest run of digits and returns the number they denote, or the largest
      word if it is greater. `erange` says whether the error number was set. Without digits it returns 0 and points back
      to the beginning. */
  method ParseUnsigned(s: CString, base: int) returns (value: Word64, end: nat, negative: bool, erange: bool)
    ensures value == (if Magnitude(s, base) > ULLONG_MAX then ULLONG_MAX else Magnitude(s, base))
    ensures erange <==> Magnitude(s, base) > ULLONG_MAX
    ensures negative == HeaderOf(s, base).negative
    ensures DigitRun(s, HeaderOf(s, base), EndOf(s, base))
    ensures end == if EndOf(s, base) > HeaderOf(s, base).start then EndOf(s, base) else 0
  {
    var h := ReadHeader(s, base);
    negative := h.negative;
    var p := h.start;
    value := 0;
    var overflow := false;
    while true
      invariant h.start <= p <= |s| && AllDigits(s[h.start..p], h.base)
      invariant value == Saturated(Value(s[h.start..p], h.base))
      invariant overflow <==> Value(s[h.start..p], h.base) > ULLONG_MAX
      invariant DigitsEnd(s, h, p) == EndOf(s, base)
      decreases |s| - p
    {
      var digit := DigitValue(At(s, p));
      if digit < 0 || digit >= h.base {
        break;
      }
      ValueOfNext(s, h.start, p, h.base);
      ghost var v := Value(s[h.start..p], h.base);
      GuardIsExact(value, digit, h.base);
      Grows(v, h.base);
      hide Value;
      if value > (ULLONG_MAX - digit) / h.base {
        overflow := true;
        value := ULLONG_MAX;
      } else if !overflow {
        value := value * h.base + digit;
      }
      p := p + 1;
    }
    if p == h.start {
      assert s[h.start..p] == [];
      return 0, 0, negative, false;
    }
    return value, p, negative, overflow;
  }

  function Signed(v: int, negative: bool): int {
    if negative then -v else v
  }

  /** The number a string denotes, with its sign. */
  function SignedNumber(s: CString, base: int): int {
    Signed(Magnitude(s, base), HeaderOf(s, base).negative)
  }

  function Clamped(v: int): int {
    if v > LONG_MAX then LONG_MAX else if v < LONG_MIN then LONG_MIN else v
  }

  /** `__isoc23_strtol`: the signed number, clamped to the range of a long; the error number is set exactly when the
      number is outside it. */
  method Strtol(s: CString, base: int) returns (r: int, end: nat, erange: bool)
    ensures r == Clamped(SignedNumber(s, base))
    ensures erange <==> !(LONG_MIN <= SignedNumber(s, base) <= LONG_MAX)
    ensures end == if EndOf(s, base) > HeaderOf(s, base).start then EndOf(s, base) else 0
  {
    var value, negative;
    value, end, negative, erange := ParseUnsigned(s, base);
    hide HeaderOf, Magnitude, EndOf;
    if negative {
      if value > LONG_MAX + 1 {
        r, erange := LONG_MIN, true;
      } else if value == LONG_MAX + 1 {
        r := LONG_MIN;
      } else {
        r := -value;
      }
    } else if value > LONG_MAX {
      r, erange := LONG_MAX, true;
    } else {
      r := value;
    }
  }

  // ----- the exact parser -----

  datatype ParseError = Empty | Invalid | TooLarge

  predicate IsHex(text: string) {
    "0x" <= text || "0X" <= text
  }

  function Base(text: string): nat {
    if IsHex(text) then 16 else 10
  }

  function Digits(text: string): string {
    if IsHex(text) then text[2..] else text
  }

  /** Digits in the base the prefix announces, at least one. */
  predicate WellFormed(text: string) {
    Digits(text) != [] && AllDigits(Digits(text), Base(text))
  }

  function NumberOf(text: string): nat
    requires WellFormed(text)
  {
    Value(Digits(text), Base(text))
  }

  /** The digit test of `parse_u64`. */
  function DecOrHexDigit(c: char, base: nat): Option<nat> {
    if '0' <= c <= '9' then Some(c as int - '0' as int)
    else if base == 16 && 'a' <= c <= 'f' then Some(c as int - 'a' as int + 10)
    else if base == 16 && 'A' <= c <= 'F' then Some(c as int - 'A' as int + 10)
    else None
  }

  lemma SameDigits(c: char, base: nat)
    requires base == 10 || base == 16
    ensures DecOrHexDigit(c, base).Some? <==> IsDigit(c, base)
    ensures IsDigit(c, base) ==> DecOrHexDigit(c, base) == Some(DigitValue(c))
  {
  }

  ghost predicate GoodPrefix(ds: string, base: nat, k: nat) {
    k <= |ds| && AllDigits(ds[..k], base) && Value(ds[..k], base) <= ULLONG_MAX
  }

  /** The first `k` digits are in order, and the next character is no digit, or makes the number too large. */
  ghost predicate FaultAt(text: string, k: nat, fault: ParseError) {
    var ds, base := Digits(text), Base(text);
    && k < |ds| && GoodPrefix(ds, base, k)
    && match fault
       case Empty => false
       case Invalid => !IsDigit(ds[k], base)
       case TooLarge => AllDigits(ds[..k + 1], base) && Value(ds[..k + 1], base) > ULLONG_MAX
  }

  /** The digits before a fault contain none. */
  lemma NothingBefore(text: string, j: nat, fault: ParseError, k: nat)
    requires GoodPrefix(Digits(text), Base(text), k) && j < k
    ensures !FaultAt(text, j, fault)
  {
    var ds, base := Digits(text), Base(text);
    var front := ds[..k];
    assert front[j] == ds[j] && front[..j + 1] == ds[..j + 1];
    PrefixIsSmaller(front, j + 1, base);
  }

  /** There is at most one first fault. */
  lemma FirstFaultUnique(text: string, j: nat, e: ParseError, k: nat, f: ParseError)
    requires FaultAt(text, j, e) && FaultAt(text, k, f)
    ensures j == k && e == f
  {
    if j < k { NothingBefore(text, j, e, k); }
    if k < j { NothingBefore(text, k, f, j); }
    if j == k && e.TooLarge? { assert Digits(text)[..j + 1][j] == Digits(text)[j]; }
    if j == k && f.TooLarge? { assert Digits(text)[..j + 1][j] == Digits(text)[j]; }
  }

  lemma NoFault(text: string)
    requires WellFormed(text) && NumberOf(text) <= ULLONG_MAX
    ensures forall k, fault :: !FaultAt(text, k, fault)
  {
    var ds := Digits(text);
    assert ds[..|ds|] == ds;
    forall k: nat, fault: ParseError ensures !FaultAt(text, k, fault) {
      if k < |ds| { NothingBefore(text, k, fault, |ds|); }
    }
  }

  /** A text with a fault is not accepted, and the fault is its error. */
  lemma OnlyFault(text: string, k: nat, fault: ParseError)
    requires FaultAt(text, k, fault)
    ensures forall j, f | FaultAt(text, j, f) :: f == fault
    ensures !(WellFormed(text) && NumberOf(text) <= ULLONG_MAX)
  {
    hide FaultAt;
    forall j, f | FaultAt(text, j, f) ensures f == fault {
      FirstFaultUnique(text, j, f, k, fault);
    }
    if WellFormed(text) && NumberOf(text) <= ULLONG_MAX { NoFault(text); }
  }

  /** A digit makes the number too large, or the digits up to it are in order. */
  lemma NextDigit(text: string, k: nat, value: Word64, digit: nat)
    requires k < |Digits(text)| && GoodPrefix(Digits(text), Base(text), k)
    requires value == Value(Digits(text)[..k], Base(text))
    requires IsDigit(Digits(text)[k], Base(text)) && digit == DigitValue(Digits(text)[k])
    ensures if value > (ULLONG_MAX - digit) / Base(text) then FaultAt(text, k, TooLarge)
            else GoodPrefix(Digits(text), Base(text), k + 1)
                 && Value(Digits(text)[..k + 1], Base(text)) == value * Base(text) + digit
  {
    var ds, base := Digits(text), Base(text);
    assert ds[0..k] == ds[..k] && ds[0..k + 1] == ds[..k + 1];
    ValueOfNext(ds, 0, k, base);
    GuardIsExact(value, digit, base);
    hide Value, AllDigits;
  }

  /** Accepts exactly the well-formed numbers that fit 64 bits, with their value. An empty text is
      reported as such, a prefix without digits as invalid, and otherwise the error is that of the first fault. */
  method ParseU64(text: string) returns (r: Result<Word64, ParseError>)
    ensures r.Ok? <==> WellFormed(text) && NumberOf(text) <= ULLONG_MAX
    ensures r.Ok? ==> r.value == NumberOf(text)
    ensures r == Err(Empty) <==> text == []
    ensures forall k, fault | FaultAt(text, k, fault) :: r == Err(fault)
    ensures r == Err(Invalid) ==> Digits(text) == [] || exists k :: FaultAt(text, k, Invalid)
    ensures r == Err(TooLarge) ==> exists k :: FaultAt(text, k, TooLarge)
  {
    if text == "" { return Err(Empty); }
    var pos := 0;
    var base := 10;
    if IsHex(text) {
      pos := 2;
      base := 16;
      if pos == |text| { return Err(Invalid); }
    }
    ghost var first := pos;
    ghost var ds := Digits(text);
    assert ds == text[first..] && base == Base(text) && ds != [];
    var value: Word64 := 0;
    while pos < |text|
      invariant first <= pos <= |text|
      invariant GoodPrefix(ds, base, pos - first) && value == Value(ds[..pos - first], base)
    {
      var c := text[pos];
      ghost var k := pos - first;
      assert ds[k] == c;
      SameDigits(c, base);
      var digit := DecOrHexDigit(c, base);
      hide Value, AllDigits, DecOrHexDigit;
      if digit.None? || digit.value >= base {
        assert FaultAt(text, k, Invalid);
        OnlyFault(text, k, Invalid);
        return Err(Invalid);
      }
      NextDigit(text, k, value, digit.value);
      if value > (ULLONG_MAX - digit.value) / base {
        OnlyFault(text, k, TooLarge);
        return Err(TooLarge);
      }
      value := value * base + digit.value;
      pos := pos + 1;
    }
    assert ds[..pos - first] == ds;
    NoFault(text);
    return Ok(value);
  }

  /** The narrower parsers accept what fits them. */
  method ParseBounded(text: string, max: Word64) returns (r: Result<Word64, ParseError>)
    ensures r.Ok? <==> WellFormed(text) && NumberOf(text) <= max
    ensures r.Ok? ==> r.value == NumberOf(text)
  {
    r := ParseU64(text);
    if r.Ok? && r.value > max {
      return Err(TooLarge);
    }
  }

  method ParseU16(text: string) returns (r: Result<Word16, ParseError>)
    ensures r.Ok? <==> WellFormed(text) && NumberOf(text) < 0x1_0000
    ensures r.Ok? ==> r.value == NumberOf(text)
  {
    var v := ParseBounded(text, 0xFFFF);
    return if v.Ok? then Ok(v.value) else Err(v.error);
  }

  method ParseU32(text: string) returns (r: Result<Word32, ParseError>)
    ensures r.Ok? <==> WellFormed(text) && NumberOf(text) < 0x1_0000_0000
    ensures r.Ok? ==> r.value == NumberOf(text)
  {
    var v := ParseBounded(text, 0xFFFF_FFFF);
    return if v.Ok? then Ok(v.value) else Err(v.error);
  }

  // ----- writing numbers and reading them back -----

  function DigitChar(d: nat, upper: bool): char
    requires d < 36
  {
    if d < 10 then ('0' as int + d) as char
    else ((if upper then 'A' else 'a') as int + d - 10) as char
  }

  /** The usual notation in a base up to 36, with small or capital letters. */
  function Notation(v: nat, base: nat, upper: bool): (t: string)
    requires 2 <= base <= 36
    ensures t != []
    decreases v
  {
    if v < base then [DigitChar(v, upper)]
    else
      QuotientSmaller(v, base);
      Notation(v / base, base, upper) + [DigitChar(v % base, upper)]
  }

  lemma QuotientSmaller(v: nat, base: nat)
    requires 2 <= base <= v
    ensures 0 < v / base < v && 0 <= v % base < base && v == v / base * base + v % base
  {
    var q := v / base;
    if q >= v {
      assert q * base == q * 2 + q * (base - 2);
      NonNegativeProduct(q, base - 2);
    }
  }

  lemma DigitCharValue(d: nat, upper: bool)
    requires d < 36
    ensures DigitValue(DigitChar(d, upper)) == d && (DigitChar(d, upper) == '0' <==> d == 0)
  {
  }

  lemma {:induction false} NotationValue(v: nat, base: nat, upper: bool)
    requires 2 <= base <= 36
    ensures AllDigits(Notation(v, base, upper), base) && Value(Notation(v, base, upper), base) == v
    ensures if v == 0 then Notation(v, base, upper) == "0" else Notation(v, base, upper)[0] != '0'
    decreases v
  {
    if v < base {
      DigitCharValue(v, upper);
      assert Notation(v, base, upper)[..0] == [];
    } else {
      QuotientSmaller(v, base);
      DigitCharValue(v % base, upper);
      NotationValue(v / base, base, upper);
      var t := Notation(v / base, base, upper);
      assert Notation(v, base, upper)[..|t|] == t;
    }
  }

  lemma NoPrefix(t: string)
    requires AllDigits(t, 10)
    ensures !IsHex(t)
  {
    if |t| > 1 { assert IsDigit(t[1], 10); }
  }

  /** Every 64-bit number, written in decimal or in hexadecimal with its prefix, is accepted and read back. */
  lemma RoundTrip(v: Word64, prefix: string, upper: bool)
    requires prefix in {"0x", "0X"}
    ensures WellFormed(Notation(v, 10, upper)) && NumberOf(Notation(v, 10, upper)) == v
    ensures WellFormed(prefix + Notation(v, 16, upper)) && NumberOf(prefix + Notation(v, 16, upper)) == v
  {
    NotationValue(v, 10, upper);
    NotationValue(v, 16, upper);
    NoPrefix(Notation(v, 10, upper));
    assert (prefix + Notation(v, 16, upper))[2..] == Notation(v, 16, upper);
  }

  // ----- what the C library's parsers read -----

  /** The six white-space characters: the space, and the codes from tab to carriage return. */
  predicate White(c: char) {
    c == ' ' || 9 <= c as int <= 13
  }

  /** Digits of base `b`, after this prefix and before `rest`, are read as such when the reader is called with
      `base`. */
  predicate ReadAs(prefix: string, digits: string, rest: string, base: int, b: int) {
    if prefix != "" then prefix in {"0x", "0X"} && base in {0, 16} && b == 16
    else
      && (base in {0, 16} && digits == "0" && rest != "" ==> rest[0] !in {'x', 'X'})
      && b == if base != 0 then base else if "0" <= digits then 8 else 10
  }

  /** A text in its parts: white space, a sign, a prefix, the digits of base `b`, and what follows them. */
  datatype Parts = Parts(spaces: string, sign: string, prefix: string, digits: string, rest: string, b: int)

  ghost predicate InParts(s: CString, p: Parts, base: int) {
    && s == p.spaces + p.sign + p.prefix + p.digits + p.rest
    && (forall i | 0 <= i < |p.spaces| :: White(p.spaces[i])) && p.sign in {"", "+", "-"}
    && ReadAs(p.prefix, p.digits, p.rest, base, p.b)
    && AllDigits(p.digits, p.b) && (p.rest != "" ==> !IsDigit(p.rest[0], p.b))
    && (p.sign + p.prefix + p.digits == "" && p.rest != "" ==> !White(p.rest[0]) && p.rest[0] !in {'+', '-'})
  }

  lemma DigitIsNoMark(c: char, b: int)
    requires IsDigit(c, b)
    ensures c != '\0' && c != '+' && c != '-' && !AsciiSpace(c)
  {
  }

  lemma {:induction false} SpacesSkipped(s: CString, i: nat, n: nat)
    requires i <= n <= |s| && (forall j | i <= j < n :: White(s[j])) && !AsciiSpace(At(s, n))
    ensures AfterSpaces(s, i) == n
    decreases n - i
  {
    if i < n { SpacesSkipped(s, i + 1, n); }
  }

  /** What follows the white space is none, and no sign unless it is the one of the text. */
  lemma MarksSeen(s: CString, p: Parts, base: int)
    requires InParts(s, p, base)
    ensures var n := |p.spaces|;
            && n + |p.sign| <= |s| && !AsciiSpace(At(s, n))
            && (p.sign == "" <==> At(s, n) !in {'+', '-'}) && (p.sign == "-" <==> At(s, n) == '-')
            && forall j | 0 <= j < n :: White(s[j])
  {
    var n := |p.spaces|;
    assert s[n..] == p.sign + p.prefix + p.digits + p.rest;
    assert forall j | 0 <= j < n :: s[j] == p.spaces[j];
    if p.sign != "" {
      assert s[n] == p.sign[0];
    } else {
      NoMarkSeen(s, p, base);
    }
    hide AllDigits, IsDigit, ReadAs;
  }

  lemma NoMarkSeen(s: CString, p: Parts, base: int)
    requires InParts(s, p, base) && p.sign == ""
    ensures |p.spaces| <= |s| && !AsciiSpace(At(s, |p.spaces|)) && At(s, |p.spaces|) !in {'+', '-'}
  {
    var n := |p.spaces|;
    assert s[n..] == p.prefix + p.digits + p.rest;
    if p.prefix != "" {
      assert s[n] == p.prefix[0];
    } else if p.digits != "" {
      assert s[n] == p.digits[0] && IsDigit(p.digits[0], p.b);
      DigitIsNoMark(s[n], p.b);
    } else if p.rest != "" {
      assert s[n] == p.rest[0];
    }
  }

  /** What the reader sees of the prefix. */
  lemma PrefixSeen(s: CString, p: Parts, base: int)
    requires InParts(s, p, base)
    ensures var at := |p.spaces| + |p.sign|;
            && at <= |s|
            && (base in {0, 16} ==> (HexPrefix(s, at) <==> p.prefix != ""))
            && (base == 0 && p.prefix == "" ==> (At(s, at) == '0' <==> "0" <= p.digits))
  {
    var at, t := |p.spaces| + |p.sign|, p.prefix + p.digits + p.rest;
    assert s[at..] == t;
    if p.prefix != "" {
      assert s[at] == t[0] == p.prefix[0] && s[at + 1] == t[1] == p.prefix[1];
      hide White, IsDigit;
    } else if p.digits == "" {
      NothingSeen(s, p, base);
      hide InParts, HexPrefix;
    } else {
      DigitsSeen(s, p, base);
      hide InParts, HexPrefix;
    }
  }

  lemma NothingSeen(s: CString, p: Parts, base: int)
    requires InParts(s, p, base) && p.prefix == "" && p.digits == ""
    ensures var at := |p.spaces| + |p.sign|;
            && at <= |s|
            && (base in {0, 16} ==> !HexPrefix(s, at))
            && (base == 0 ==> At(s, at) != '0')
  {
    hide White, IsDigit, AllDigits;
    var at := |p.spaces| + |p.sign|;
    assert s[at..] == p.rest;
    assert p.rest != "" ==> s[at] == p.rest[0];
    if p.b > 0 { ZeroIsDigit(p.b); }
  }

  lemma ZeroIsDigit(b: int)
    requires b > 0
    ensures IsDigit('0', b)
  {
  }

  lemma DigitsSeen(s: CString, p: Parts, base: int)
    requires InParts(s, p, base) && p.prefix == "" && p.digits != ""
    ensures var at := |p.spaces| + |p.sign|;
            && at < |s|
            && (base in {0, 16} ==> !HexPrefix(s, at))
            && (At(s, at) == '0' <==> "0" <= p.digits)
  {
    var at, t := |p.spaces| + |p.sign|, p.digits + p.rest;
    assert s[at..] == t;
    assert forall k | 0 <= k < |t| :: s[at + k] == t[k];
    assert t[0] == p.digits[0];
    if |p.digits| > 1 {
      assert t[1] == p.digits[1] && IsDigit(p.digits[1], p.b);
    } else if p.rest != "" {
      assert t[1] == p.rest[0] && p.digits == [p.digits[0]];
    }
  }

  /** The header of a text in parts: the digits start after the prefix, in their base. */
  lemma HeaderOfParts(s: CString, p: Parts, base: int)
    requires InParts(s, p, base)
    ensures HeaderOf(s, base) == Header(|p.spaces| + |p.sign| + |p.prefix|, p.b, p.sign == "-")
  {
    hide InParts, AsciiSpace, White, HexPrefix;
    MarksSeen(s, p, base);
    SpacesSkipped(s, 0, |p.spaces|);
    PrefixSeen(s, p, base);
    PrefixBase(s, p, base);
  }

  lemma PrefixBase(s: CString, p: Parts, base: int)
    requires InParts(s, p, base)
    ensures |p.sign| <= 1 && (p.prefix != "" ==> |p.prefix| == 2 && p.b == 16 && base in {0, 16})
    ensures p.prefix == "" ==> p.b == if base != 0 then base else if "0" <= p.digits then 8 else 10
  {
  }

  lemma {:induction false} DigitsToTheEnd(s: CString, h: Header, p: nat, end: nat)
    requires h.start <= p <= end <= |s| && AllDigits(s[h.start..end], h.base)
    requires !IsDigit(At(s, end), h.base)
    ensures AllDigits(s[h.start..p], h.base) && DigitsEnd(s, h, p) == end
    decreases end - p
  {
    var ds := s[h.start..end];
    assert s[h.start..p] == ds[..p - h.start];
    if p < end {
      DigitsToTheEnd(s, h, p + 1, end);
      assert IsDigit(ds[p - h.start], h.base);
    }
  }

  /** Any text is read by its parts: as the number its digits denote, with its sign, up to what follows them; without
      digits nothing is read. */
  lemma ReadsParts(s: CString, p: Parts, base: int)
    requires InParts(s, p, base)
    ensures SignedNumber(s, base) == Signed(Value(p.digits, p.b), p.sign == "-")
    ensures Magnitude(s, base) == Value(p.digits, p.b) && HeaderOf(s, base).negative == (p.sign == "-")
    ensures EndOf(s, base) == |s| - |p.rest|
    ensures HeaderOf(s, base).start < EndOf(s, base) <==> p.digits != ""
  {
    HeaderOfParts(s, p, base);
    hide HeaderOf, White, ReadAs;
    var h := HeaderOf(s, base);
    var end := |s| - |p.rest|;
    assert s[h.start..end] == p.digits;
    assert p.rest != "" ==> s[end] == p.rest[0];
    DigitsToTheEnd(s, h, h.start, end);
  }

  /** Every text has its parts, so the reading of all texts is characterised. */
  lemma EveryTextHasParts(s: CString, base: int) returns (p: Parts)
    ensures InParts(s, p, base)
  {
    hide HeaderOf, HexPrefix, AllDigits, IsDigit, White, AsciiSpace, ReadAs, InParts, BaseFound;
    var n, sign := MarksFound(s);
    var at, prefix := HeaderFound(s, n, sign, base);
    var h := HeaderOf(s, base);
    var end := EndFound(s, base);
    p := Parts(s[..n], sign, prefix, s[h.start..end], s[end..], h.base);
    SplitTwice(s, at, h.start, end);
    PrefixFound(s, at, p, base);
    PartsFit(s, n, p, base);
  }

  lemma SplitTwice(s: CString, a: nat, b: nat, c: nat)
    requires a <= b <= c <= |s|
    ensures s[a..] == s[a..b] + s[b..c] + s[c..]
    ensures s[c..] != "" ==> s[c..][0] == At(s, c)
  {
  }

  lemma EndFound(s: CString, base: int) returns (end: nat)
    ensures DigitRun(s, HeaderOf(s, base), end)
  {
    end := DigitsEnd(s, HeaderOf(s, base), HeaderOf(s, base).start);
  }

  lemma HeaderFound(s: CString, n: nat, sign: string, base: int) returns (at: nat, prefix: string)
    requires n == AfterSpaces(s, 0) && sign == if At(s, n) in {'+', '-'} then [At(s, n)] else ""
    ensures at == n + |sign| <= |s|
    ensures prefix == if base in {0, 16} && HexPrefix(s, at) then s[at..at + 2] else ""
    ensures HeaderOf(s, base).start == at + |prefix| && HeaderOf(s, base).base == BaseFound(s, at, prefix, base)
    ensures prefix == s[at..at + |prefix|]
  {
    at := n + |sign|;
    prefix := if base in {0, 16} && HexPrefix(s, at) then s[at..at + 2] else "";
  }

  function BaseFound(s: CString, at: nat, prefix: string, base: int): int
    requires at <= |s|
  {
    if prefix != "" then 16 else if base != 0 then base else if At(s, at) == '0' then 8 else 10
  }

  /** The white space and the sign at the start of a text. */
  lemma MarksFound(s: CString) returns (n: nat, sign: string)
    ensures n == AfterSpaces(s, 0) && sign == if At(s, n) in {'+', '-'} then [At(s, n)] else ""
    ensures n + |sign| <= |s| && s[..n] + sign + s[n + |sign|..] == s
    ensures (forall i | 0 <= i < n :: White(s[i])) && sign in {"", "+", "-"}
    ensures sign == "" && n < |s| ==> !White(s[n]) && s[n] !in {'+', '-'}
  {
    n := AfterSpaces(s, 0);
    sign := if At(s, n) in {'+', '-'} then [At(s, n)] else "";
  }

  lemma PartsFit(s: CString, n: nat, p: Parts, base: int)
    requires n + |p.sign| <= |s| && p.spaces == s[..n] && s[..n] + p.sign + s[n + |p.sign|..] == s
    requires (forall i | 0 <= i < n :: White(s[i])) && p.sign in {"", "+", "-"}
    requires p.sign == "" && n < |s| ==> !White(s[n]) && s[n] !in {'+', '-'}
    requires s[n + |p.sign|..] == p.prefix + p.digits + p.rest
    requires ReadAs(p.prefix, p.digits, p.rest, base, p.b)
    requires AllDigits(p.digits, p.b) && (p.rest != "" ==> !IsDigit(p.rest[0], p.b))
    ensures InParts(s, p, base)
  {
    hide White, IsDigit, AllDigits, ReadAs;
    assert p.spaces + p.sign + (p.prefix + p.digits + p.rest) == p.spaces + p.sign + p.prefix + p.digits + p.rest;
    assert forall i | 0 <= i < n :: p.spaces[i] == s[i];
    if p.sign + p.prefix + p.digits == "" && p.rest != "" {
      assert s[n..] == p.rest && p.rest[0] == s[n];
    }
  }

  lemma PrefixFound(s: CString, at: nat, p: Parts, base: int)
    requires at <= |s| && s[at..] == p.prefix + p.digits + p.rest
    requires p.prefix == if base in {0, 16} && HexPrefix(s, at) then s[at..at + 2] else ""
    requires p.b == BaseFound(s, at, p.prefix, base)
    requires AllDigits(p.digits, p.b) && (p.rest != "" ==> !IsDigit(p.rest[0], p.b))
    ensures ReadAs(p.prefix, p.digits, p.rest, base, p.b)
  {
    var t := p.prefix + p.digits + p.rest;
    assert forall k | 0 <= k < |t| :: s[at + k] == t[k];
    if p.prefix != "" {
      assert p.prefix == [s[at], s[at + 1]];
    } else if p.digits != "" {
      assert t[0] == p.digits[0];
      if p.digits == "0" && p.rest != "" { assert t[1] == p.rest[0]; }
    } else if p.rest != "" {
      assert t[0] == p.rest[0];
      if p.b > 0 { ZeroIsDigit(p.b); }
    }
  }

  /** The ways of writing a number: decimal, octal after a zero, hexadecimal after either prefix, or just the digits of
      some base. */
  datatype Form = Decimal | Octal | Hex(prefix: string) | Bare(base: nat)

  predicate ReadBy(form: Form, base: int) {
    match form
    case Decimal => base in {0, 10}
    case Octal => base in {0, 8}
    case Hex(prefix) => prefix in {"0x", "0X"} && base in {0, 16}
    case Bare(b) => 2 <= b <= 36 && base == b
  }

  function Written(v: nat, form: Form, upper: bool): string
    requires form.Bare? ==> 2 <= form.base <= 36
  {
    match form
    case Decimal => Notation(v, 10, upper)
    case Octal => "0" + Notation(v, 8, upper)
    case Hex(prefix) => prefix + Notation(v, 16, upper)
    case Bare(b) => Notation(v, b, upper)
  }

  lemma {:induction false} LeadingZero(t: string, base: nat)
    requires AllDigits(t, base) && base > 0
    ensures AllDigits("0" + t, base) && Value("0" + t, base) == Value(t, base)
  {
    var z := "0" + t;
    assert forall i | 0 < i < |z| :: z[i] == t[i - 1];
    if t == [] {
      assert z[..0] == [];
    } else {
      var last := |t| - 1;
      assert z[..|z| - 1] == "0" + t[..last];
      LeadingZero(t[..last], base);
    }
  }

  lemma {:induction false} NoNul(t: string, b: int)
    requires AllDigits(t, b)
    ensures '\0' !in t
  {
    forall i | 0 <= i < |t| ensures t[i] != '\0' {
      assert IsDigit(t[i], b);
    }
  }

  /** Every number, after any white space and sign, in any of its forms, is read back to its end by a reader called with
      a base that reads the form. */
  lemma ReadsBack(v: nat, spaces: string, sign: string, form: Form, upper: bool, base: int)
    requires (forall i | 0 <= i < |spaces| :: White(spaces[i])) && sign in {"", "+", "-"} && ReadBy(form, base)
    ensures var s := spaces + sign + Written(v, form, upper);
            && '\0' !in s
            && SignedNumber(s, base) == Signed(v, sign == "-")
            && HeaderOf(s, base).start < EndOf(s, base) == |s|
  {
    hide White, SignedNumber, HeaderOf, EndOf, Magnitude, Notation, Value;
    var prefix, digits, b := FormParts(v, form, upper, base);
    var s := spaces + sign + Written(v, form, upper);
    assert s == spaces + sign + prefix + digits + "";
    NoNul(digits, b);
    NoNulSpaces(spaces);
    ReadsParts(s, Parts(spaces, sign, prefix, digits, "", b), base);
  }

  lemma NoNulSpaces(spaces: string)
    requires forall i | 0 <= i < |spaces| :: White(spaces[i])
    ensures '\0' !in spaces
  {
  }

  lemma FormParts(v: nat, form: Form, upper: bool, base: int) returns (prefix: string, digits: string, b: nat)
    requires ReadBy(form, base)
    ensures Written(v, form, upper) == prefix + digits && digits != []
    ensures AllDigits(digits, b) && Value(digits, b) == v && ReadAs(prefix, digits, "", base, b)
    ensures '\0' !in prefix
  {
    hide Notation, Value, AllDigits;
    match form
    case Decimal =>
      prefix, digits := "", Notation(v, 10, upper);
      b := if base == 0 && v == 0 then 8 else 10;
      NotationValue(v, 10, upper);
      NotationValue(v, b, upper);
    case Octal =>
      prefix, digits, b := "", "0" + Notation(v, 8, upper), 8;
      NotationValue(v, 8, upper);
      LeadingZero(Notation(v, 8, upper), 8);
    case Hex(p) =>
      prefix, digits, b := p, Notation(v, 16, upper), 16;
      NotationValue(v, 16, upper);
    case Bare(_) =>
      prefix, digits, b := "", Notation(v, form.base, upper), form.base;
      NotationValue(v, b, upper);
  }

  function SignedNotation(v: int): string {
    if v < 0 then "-" + Notation(-v, 10, false) else Notation(v, 10, false)
  }

  /** Every number, written in decimal with its sign, is read back by the signed reader, to the end of the string. */
  lemma SignedRoundTrip(v: int)
    ensures '\0' !in SignedNotation(v)
    ensures SignedNumber(SignedNotation(v), 10) == v && EndOf(SignedNotation(v), 10) == |SignedNotation(v)|
  {
    hide SignedNumber, EndOf, Notation;
    var sign := if v < 0 then "-" else "";
    ReadsBack(if v < 0 then -v else v, "", sign, Decimal, false, 10);
    assert "" + sign + Notation(if v < 0 then -v else v, 10, false) == SignedNotation(v);
  }
}
