/** Python's `int(x)` applied to a JSON value, as the round-number parse
    uses it: strings are read as base-10 literals of ASCII digits, booleans
    count as 0 and 1, and anything else raises, which the model reports as
    None. */
module PyInt {
  import opened Wrappers
  import opened Json

  /** The whitespace `int()` strips around a literal: the ASCII space, tab,
      line feed, vertical tab, form feed and carriage return, and the
      characters above U+007F that Python counts as whitespace (those are
      turned into spaces before the literal is read; the ASCII separators
      U+001C to U+001F are passed on unchanged and are not stripped). */
  predicate IsSpace(c: char)
  {
    var n := c as int;
    || n == 32 || 9 <= n <= 13
    || n == 0x85 || n == 0xA0 || n == 0x1680 || 0x2000 <= n <= 0x200A
    || n == 0x2028 || n == 0x2029 || n == 0x202F || n == 0x205F || n == 0x3000
  }

  predicate IsDigit(c: char)
  {
    '0' <= c <= '9'
  }

  function TrimStart(s: string): string
  {
    if s != [] && IsSpace(s[0]) then TrimStart(s[1..]) else s
  }

  function TrimEnd(s: string): string
  {
    if s != [] && IsSpace(s[|s| - 1]) then TrimEnd(s[..|s| - 1]) else s
  }

  /** Digits, optionally grouped by single underscores between digits
      (`1_000`), as Python's literal grammar allows. */
  predicate DigitGroups(s: string)
  {
    && |s| > 0
    && IsDigit(s[0])
    && IsDigit(s[|s| - 1])
    && forall i :: 0 <= i < |s| ==> GroupChar(s, i)
  }

  /** Position i of a grouped literal: a digit, or an underscore with a digit
      on either side. */
  predicate GroupChar(s: string, i: int)
    requires 0 <= i < |s|
  {
    IsDigit(s[i]) || (s[i] == '_' && 0 < i < |s| - 1 && IsDigit(s[i - 1]) && IsDigit(s[i + 1]))
  }

  /** The digits of a grouped literal, underscores dropped. */
  function DropUnderscores(s: string): string
  {
    if s == [] then []
    else (if s[0] == '_' then [] else [s[0]]) + DropUnderscores(s[1..])
  }

  function DigitValue(c: char): nat
    requires IsDigit(c)
  {
    (c as int - '0' as int) as nat
  }

  predicate AllDigits(s: string)
  {
    forall i :: 0 <= i < |s| ==> IsDigit(s[i])
  }

  /** The value of a digit string, most significant digit first. */
  function DecimalValue(ds: string): nat
    requires AllDigits(ds)
  {
    if ds == [] then 0 else DecimalValue(ds[..|ds| - 1]) * 10 + DigitValue(ds[|ds| - 1])
  }

  lemma {:induction false} DropUnderscoresAllDigits(s: string)
    requires forall i :: 0 <= i < |s| ==> IsDigit(s[i]) || s[i] == '_'
    ensures AllDigits(DropUnderscores(s))
  {
    if s != [] {
      assert forall i :: 0 <= i < |s[1..]| ==> s[1..][i] == s[i + 1];
      DropUnderscoresAllDigits(s[1..]);
    }
  }

  lemma GroupsAreDigitsAndUnderscores(s: string)
    requires DigitGroups(s)
    ensures AllDigits(DropUnderscores(s))
  {
    forall i | 0 <= i < |s| ensures IsDigit(s[i]) || s[i] == '_' {
      assert GroupChar(s, i);
    }
    DropUnderscoresAllDigits(s);
  }

  /** An unsigned literal: its value, or None when it is not digit groups. */
  function ParseUnsigned(t: string): Option<nat>
  {
    if DigitGroups(t) then
      GroupsAreDigitsAndUnderscores(t);
      Some(DecimalValue(DropUnderscores(t)))
    else None
  }

  /** A literal with an optional sign, already stripped of whitespace. */
  function ParseSigned(t: string): Option<int>
  {
    if |t| > 0 && (t[0] == '+' || t[0] == '-') then
      match ParseUnsigned(t[1..])
      case None => None
      case Some(n) => Some(if t[0] == '-' then -(n as int) else n)
    else ParseUnsigned(t)
  }

  /** `s.strip()` for the whitespace `int()` ignores. */
  function Trim(s: string): string
  {
    TrimEnd(TrimStart(s))
  }

  /** `int(s)` for a string: None where Python raises ValueError. */
  function ParseDecimal(s: string): Option<int>
  {
    ParseSigned(Trim(s))
  }

  /** `int(v)`: None where Python raises TypeError or ValueError. */
  function ToInt(v: Value): Option<int>
  {
    match v
    case Null => None
    case Bool(b) => Some(if b then 1 else 0)
    case Int(i) => Some(i)
    case Str(s) => ParseDecimal(s)
    case Arr(_) => None
    case Obj(_) => None
  }

  /** `str(n)`: the base-10 rendering of an integer. */
  function Digits(n: nat): (ds: string)
    ensures |ds| > 0 && AllDigits(ds)
  {
    if n < 10 then ['0' + n as char] else Digits(n / 10) + ['0' + (n % 10) as char]
  }

  function Show(n: int): string
  {
    if n < 0 then "-" + Digits(-n) else Digits(n)
  }

  lemma {:induction false} DigitsValue(n: nat)
    ensures DecimalValue(Digits(n)) == n
  {
    var ds := Digits(n);
    if n >= 10 {
      DigitsValue(n / 10);
      assert ds[..|ds| - 1] == Digits(n / 10);
    }
  }

  lemma {:induction false} DropUnderscoresOfDigits(s: string)
    requires AllDigits(s)
    ensures DropUnderscores(s) == s
  {
    if s != [] {
      DropUnderscoresOfDigits(s[1..]);
    }
  }

  lemma TrimsOfShown(s: string)
    requires |s| > 0 && !IsSpace(s[0]) && !IsSpace(s[|s| - 1])
    ensures Trim(s) == s
  {
    assert TrimStart(s) == s;
  }

  lemma DigitsAreGroups(ds: string)
    requires |ds| > 0 && AllDigits(ds)
    ensures DigitGroups(ds)
  {
  }

  /** A plain digit string is a literal of its value. */
  lemma ParseUnsignedDigits(ds: string)
    requires |ds| > 0 && AllDigits(ds)
    ensures ParseUnsigned(ds) == Some(DecimalValue(ds))
  {
    DropUnderscoresOfDigits(ds);
    DigitsAreGroups(ds);
  }

  /** A digit string parses to its value. */
  lemma ParseDigits(ds: string)
    requires |ds| > 0 && AllDigits(ds)
    ensures ParseDecimal(ds) == Some(DecimalValue(ds))
  {
    assert Trim(ds) == ds by {
      assert IsDigit(ds[0]) && IsDigit(ds[|ds| - 1]);
      TrimsOfShown(ds);
    }
    ParseUnsignedDigits(ds);
  }

  /** A literal with a minus sign reads as the negated value of the rest. */
  lemma ParseMinus(t: string)
    requires |t| > 1 && t[0] == '-' && ParseUnsigned(t[1..]).Some?
    ensures ParseSigned(t) == Some(-(ParseUnsigned(t[1..]).value as int))
  {
  }

  lemma TrimsOfNegated(ds: string)
    requires |ds| > 0 && AllDigits(ds)
    ensures Trim("-" + ds) == "-" + ds
  {
    var s := "-" + ds;
    assert s[0] == '-' && s[|s| - 1] == ds[|ds| - 1];
    assert IsDigit(ds[|ds| - 1]);
    TrimsOfShown(s);
  }

  lemma SignedOfNegated(ds: string)
    requires |ds| > 0 && AllDigits(ds)
    ensures ParseSigned("-" + ds) == Some(-(DecimalValue(ds) as int))
  {
    var s := "-" + ds;
    assert s[1..] == ds;
    ParseUnsignedDigits(ds);
    ParseMinus(s);
  }

  /** A minus sign followed by a digit string parses to the negated value. */
  lemma ParseNegatedDigits(ds: string)
    requires |ds| > 0 && AllDigits(ds)
    ensures ParseDecimal("-" + ds) == Some(-(DecimalValue(ds) as int))
  {
    TrimsOfNegated(ds);
    SignedOfNegated(ds);
  }

  lemma ParseShowNegative(n: nat)
    requires n > 0
    ensures ParseDecimal("-" + Digits(n)) == Some(-(n as int))
  {
    ParseNegatedDigits(Digits(n));
    DigitsValue(n);
  }

  lemma ParseShowNatural(n: nat)
    ensures ParseDecimal(Digits(n)) == Some(n)
  {
    ParseDigits(Digits(n));
    DigitsValue(n);
  }

  /** Parsing what `str` renders gives the number back. */
  lemma ParseShow(n: int)
    ensures ToInt(Str(Show(n))) == Some(n)
  {
    if n < 0 {
      assert Show(n) == "-" + Digits(-n);
      ParseShowNegative(-n);
    } else {
      assert Show(n) == Digits(n);
      ParseShowNatural(n);
    }
  }
}
