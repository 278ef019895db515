/**
  Character-level behaviour of the parser: the lookahead, the two character
  classes, the extent of a run of blanks or of number characters, and the
  conversion of a captured number run to a value.
*/
module Lexical {
  import opened Options

  /** What the character iterator yields after `i` advances: the `i`-th character, or nothing past the end. */
  function CharAt(line: string, i: nat): (c: Option<char>)
    ensures c.Some? <==> i < |line|
    ensures c.Some? ==> c.value == line[i]
  {
    if i < |line| then Some(line[i]) else None
  }

  /** The lookahead at index `i`: a line terminator counts as the end of the input. */
  function Lookahead(line: string, i: nat): (c: Option<char>)
    ensures c.None? <==> (i >= |line| || line[i] == '\n' || line[i] == '\r')
    ensures c.Some? ==> c.value == line[i]
  {
    match CharAt(line, i)
    case None => None
    case Some(ch) => if ch == '\n' || ch == '\r' then None else Some(ch)
  }

  /**
    A blank is a space or a tab; nothing else, and not the end of the input.
    No blank can start or continue a number, or be a terminator, an operator,
    a bracket or a bar.
  */
  function IsSpace(c: Option<char>): (b: bool)
    ensures b <==> c == Some(' ') || c == Some('\t')
    ensures b ==> !IsNumberChar(c) && c.value !in "\r\n+-*/%()|"
  {
    match c
    case None => false
    case Some(ch) => ch == ' ' || ch == '\t'
  }

  predicate IsAsciiDigit(ch: char)
  {
    '0' <= ch <= '9'
  }

  /**
    Characters with a numeric Unicode property (general category Nd, Nl or
    No). The full Unicode table is not part of the model; this is the ASCII
    digits together with a sample of the other ranges, each of them numeric:
    superscripts, vulgar fractions, Arabic-Indic, extended Arabic-Indic and
    Devanagari digits, the number forms block without its two letters
    U+2183 and U+2184, and full-width digits. Every ASCII digit is numeric,
    and no numeric character is a blank, a terminator, a period, an
    operator, a bracket or a bar.
  */
  function IsNumeric(ch: char): (b: bool)
    ensures IsAsciiDigit(ch) ==> b
    ensures b ==> ch !in " \t\r\n.+-*/%()|"
  {
    var u := ch as int;
    || IsAsciiDigit(ch)
    || u == 0xB2 || u == 0xB3 || u == 0xB9 || 0xBC <= u <= 0xBE
    || 0x660 <= u <= 0x669 || 0x6F0 <= u <= 0x6F9 || 0x966 <= u <= 0x96F
    || 0x2150 <= u <= 0x2182 || 0x2185 <= u <= 0x2189 || 0xFF10 <= u <= 0xFF19
  }

  /**
    A character that may continue a number: any numeric character or a
    period. Every ASCII digit and the period qualify; the end of the input,
    a blank, a terminator, an operator, a bracket and a bar never do.
  */
  function IsNumberChar(c: Option<char>): (b: bool)
    ensures c == Some('.') || (c.Some? && IsAsciiDigit(c.value)) ==> b
    ensures b ==> c.Some? && c.value !in " \t\r\n+-*/%()|"
  {
    match c
    case None => false
    case Some(ch) => IsNumeric(ch) || ch == '.'
  }

  /** The index where a run of blanks starting at `i` ends. */
  function SpaceEnd(line: string, i: nat): (j: nat)
    requires i <= |line|
    ensures i <= j <= |line|
    ensures !IsSpace(Lookahead(line, j))
    decreases |line| - i
  {
    if IsSpace(Lookahead(line, i)) then SpaceEnd(line, i + 1) else i
  }

  /** The index where a run of number characters starting at `i` ends: the run is maximal. */
  function NumberEnd(line: string, i: nat): (j: nat)
    requires i <= |line|
    ensures i <= j <= |line|
    ensures !IsNumberChar(Lookahead(line, j))
    decreases |line| - i
  {
    if IsNumberChar(Lookahead(line, i)) then NumberEnd(line, i + 1) else i
  }

  /** A character of a decimal literal as the float parser reads it. */
  predicate IsDecimalChar(ch: char)
  {
    IsAsciiDigit(ch) || ch == '.'
  }

  /** The number of periods in a literal. */
  function DotCount(s: string): (n: nat)
    ensures n <= |s|
  {
    if s == [] then 0 else DotCount(s[..|s| - 1]) + (if s[|s| - 1] == '.' then 1 else 0)
  }

  /**
    The runs the float parser accepts: they hold only ASCII digits and
    periods (a run never holds a sign, an exponent or a letter), at most one
    period, and at least one digit.
  */
  predicate LiteralAccepted(lit: string)
  {
    && (forall k | 0 <= k < |lit| :: IsDecimalChar(lit[k]))
    && DotCount(lit) <= 1
    && (exists k | 0 <= k < |lit| :: IsAsciiDigit(lit[k]))
  }

  /** The value of an ASCII digit. */
  function DigitValue(ch: char): (d: nat)
    requires IsAsciiDigit(ch)
    ensures d <= 9
  {
    ch as int - '0' as int
  }

  /** The digits of a literal read as one whole number, ignoring the period. */
  function Mantissa(s: string): (m: nat)
    requires forall k | 0 <= k < |s| :: IsDecimalChar(s[k])
  {
    if s == [] then 0
    else
      assert IsDecimalChar(s[|s| - 1]);
      if s[|s| - 1] == '.' then Mantissa(s[..|s| - 1])
      else 10 * Mantissa(s[..|s| - 1]) + DigitValue(s[|s| - 1])
  }

  /** The number of digits after the period. */
  function Scale(s: string): (n: nat)
    ensures n <= |s|
  {
    if s == [] || '.' !in s || s[|s| - 1] == '.' then 0 else Scale(s[..|s| - 1]) + 1
  }

  function Pow10(n: nat): (p: nat)
    ensures p >= 1
  {
    if n == 0 then 1 else 10 * Pow10(n - 1)
  }

  /**
    Conversion of a captured number run to a float, as the standard float
    parser does it; the value is the exact decimal value of the literal
    (rounding to the nearest double is not part of the model).
  */
  function ParseFloat(lit: string): (v: Option<real>)
    ensures v.Some? <==> LiteralAccepted(lit)
    ensures v.Some? ==> v.value >= 0.0
  {
    if LiteralAccepted(lit) then Some(Mantissa(lit) as real / Pow10(Scale(lit)) as real) else None
  }

  /** The runs the float parser refuses: a second period, a character that is not an ASCII digit or a period, or no digit at all. */
  lemma RejectedLiterals(lit: string)
    ensures DotCount(lit) >= 2 ==> ParseFloat(lit) == None
    ensures (exists k | 0 <= k < |lit| :: !IsDecimalChar(lit[k])) ==> ParseFloat(lit) == None
    ensures (forall k | 0 <= k < |lit| :: lit[k] == '.') ==> ParseFloat(lit) == None
  {
  }

  /** The shortest decimal spelling of a natural number. */
  function Decimal(n: nat): (s: string)
    ensures |s| >= 1
    ensures forall k | 0 <= k < |s| :: IsAsciiDigit(s[k])
  {
    var d := ['0' + (n % 10) as char];
    if n < 10 then d else Decimal(n / 10) + d
  }

  lemma {:induction false} MantissaOfDecimal(n: nat)
    ensures Mantissa(Decimal(n)) == n
    ensures DotCount(Decimal(n)) == 0
    ensures Scale(Decimal(n)) == 0
  {
    var s := Decimal(n);
    assert s[..|s| - 1] == if n < 10 then [] else Decimal(n / 10);
    if n >= 10 {
      MantissaOfDecimal(n / 10);
    }
  }

  /** Every natural number written in decimal is read back by the float parser as that number. */
  lemma DecimalRoundTrip(n: nat)
    ensures ParseFloat(Decimal(n)) == Some(n as real)
  {
    MantissaOfDecimal(n);
    var s := Decimal(n);
    assert LiteralAccepted(s) by {
      assert IsAsciiDigit(s[0]);
    }
    assert Pow10(Scale(s)) == 1;
    assert ParseFloat(s) == Some(Mantissa(s) as real / Pow10(Scale(s)) as real);
  }

  /** A single ASCII digit is a literal whose value is that digit. */
  lemma DigitLiteral(d: char)
    requires IsAsciiDigit(d)
    ensures ParseFloat([d]) == Some(DigitValue(d) as real)
  {
    var s := [d];
    assert s[..0] == [];
    assert DotCount(s) == 0;
    assert LiteralAccepted(s) by {
      assert IsAsciiDigit(s[0]);
    }
    assert Mantissa(s) == 10 * Mantissa([]) + DigitValue(d) == DigitValue(d);
    assert '.' !in s;
    assert Scale(s) == 0 && Pow10(0) == 1;
    assert ParseFloat(s) == Some(Mantissa(s) as real / Pow10(Scale(s)) as real);
  }

  /** A literal with a fraction has its exact decimal value: `1.25` is 1.25. */
  lemma FractionLiteral()
    ensures ParseFloat("1.25") == Some(1.25)
  {
    var s := "1.25";
    assert s[..3] == "1.2" && s[..2] == "1." && s[..1] == "1" && s[..0] == [];
    assert DotCount("1") == 0 && DotCount("1.") == 1 && DotCount("1.2") == 1 && DotCount(s) == 1;
    assert Mantissa("1") == 1 && Mantissa("1.") == 1 && Mantissa("1.2") == 12 && Mantissa(s) == 125;
    assert Scale("1.2") == 1 by {
      assert Scale("1.") == 0;
    }
    assert Scale(s) == 2;
    assert LiteralAccepted(s) by {
      assert IsAsciiDigit(s[0]);
    }
  }

  /** A literal may start with its period: `.5` is 0.5. */
  lemma LeadingPeriodLiteral()
    ensures ParseFloat(".5") == Some(0.5)
  {
    var t := ".5";
    assert t[..1] == "." && t[..0] == [];
    assert DotCount(".") == 1 && DotCount(t) == 1;
    assert Mantissa(".") == 0 && Mantissa(t) == 5;
    assert Scale(".") == 0 && Scale(t) == 1;
    assert LiteralAccepted(t) by {
      assert IsAsciiDigit(t[1]);
    }
  }

  /** Everything `SpaceEnd` skips is a space or a tab. */
  lemma {:induction false} SpaceEndSkipsBlanks(line: string, i: nat)
    requires i <= |line|
    ensures forall k | i <= k < SpaceEnd(line, i) :: line[k] == ' ' || line[k] == '\t'
    decreases |line| - i
  {
    if IsSpace(Lookahead(line, i)) {
      SpaceEndSkipsBlanks(line, i + 1);
    }
  }

  /** Everything `NumberEnd` passes over is a number character. */
  lemma {:induction false} NumberEndSkipsNumberChars(line: string, i: nat)
    requires i <= |line|
    ensures forall k | i <= k < NumberEnd(line, i) :: IsNumberChar(Some(line[k]))
    decreases |line| - i
  {
    if IsNumberChar(Lookahead(line, i)) {
      NumberEndSkipsNumberChars(line, i + 1);
    }
  }

  /** A run of blanks ending in something that is not a blank is skipped to its end. */
  lemma {:induction false} SpaceEndOfRun(line: string, i: nat, j: nat)
    requires i <= j <= |line|
    requires forall k | i <= k < j :: line[k] == ' ' || line[k] == '\t'
    requires !IsSpace(Lookahead(line, j))
    ensures SpaceEnd(line, i) == j
    decreases j - i
  {
    if i < j {
      SpaceEndOfRun(line, i + 1, j);
    }
  }

  /** A run of number characters ending in something that cannot continue it is the whole number run. */
  lemma {:induction false} NumberEndOfRun(line: string, i: nat, j: nat)
    requires i <= j <= |line|
    requires forall k | i <= k < j :: IsNumberChar(Some(line[k]))
    requires !IsNumberChar(Lookahead(line, j))
    ensures NumberEnd(line, i) == j
    decreases j - i
  {
    if i < j {
      NumberEndOfRun(line, i + 1, j);
    }
  }
}
