/**
 The text form of a JavaScript BigInt and its inverse, the conversion `BigInt(text)`
 (StringToBigInt in the ECMAScript language specification): surrounding white space is
 dropped, the empty text is zero, a sign is allowed on decimals only, and the prefixes
 0x, 0o and 0b select a radix.
 */
module BigIntText {
  import opened Options

  // ----- printing

  function Digit(d: nat): char
    requires d < 10
  {
    ('0' as int + d) as char
  }

  function NatText(n: nat): string {
    if n < 10 then [Digit(n)] else NatText(n / 10) + [Digit(n % 10)]
  }

  /** `n.toString()` for a BigInt `n`. */
  function IntText(n: int): string {
    if n < 0 then "-" + NatText(-n) else NatText(n)
  }

  // ----- parsing

  const NOT_A_DIGIT: nat := 99

  function DigitValue(c: char): nat {
    if '0' <= c <= '9' then c as int - '0' as int
    else if 'a' <= c <= 'z' then c as int - 'a' as int + 10
    else if 'A' <= c <= 'Z' then c as int - 'A' as int + 10
    else NOT_A_DIGIT
  }

  predicate AllDigits(s: string, radix: nat) {
    forall i :: 0 <= i < |s| ==> DigitValue(s[i]) < radix
  }

  function ValueOf(s: string, radix: nat): nat {
    if s == [] then 0 else ValueOf(s[..|s| - 1], radix) * radix + DigitValue(s[|s| - 1])
  }

  /** WhiteSpace and LineTerminator of the ECMAScript grammar. */
  predicate IsSpace(c: char) {
    var u := c as int;
    || 0x09 <= u <= 0x0D || u == 0x20 || u == 0xA0 || u == 0x1680
    || 0x2000 <= u <= 0x200A || u == 0x2028 || u == 0x2029
    || u == 0x202F || u == 0x205F || u == 0x3000 || u == 0xFEFF
  }

  function TrimStart(s: string): string {
    if s != [] && IsSpace(s[0]) then TrimStart(s[1..]) else s
  }

  function TrimEnd(s: string): string {
    if s != [] && IsSpace(s[|s| - 1]) then TrimEnd(s[..|s| - 1]) else s
  }

  function ParseDigits(s: string, radix: nat): Option<int> {
    if s != [] && AllDigits(s, radix) then Some(ValueOf(s, radix)) else None
  }

  /** `BigInt(text)`; None stands for the SyntaxError it throws. */
  function ParseBigInt(text: string): Option<int> {
    ParseLiteral(TrimEnd(TrimStart(text)))
  }

  function ParseLiteral(s: string): Option<int> {
    if s == [] then Some(0)
    else if |s| > 1 && s[0] == '0' && s[1] in {'x', 'X'} then ParseDigits(s[2..], 16)
    else if |s| > 1 && s[0] == '0' && s[1] in {'o', 'O'} then ParseDigits(s[2..], 8)
    else if |s| > 1 && s[0] == '0' && s[1] in {'b', 'B'} then ParseDigits(s[2..], 2)
    else if s[0] == '+' then ParseDigits(s[1..], 10)
    else if s[0] == '-' then
      match ParseDigits(s[1..], 10) {
        case Some(n) => Some(-n)
        case None => None
      }
    else ParseDigits(s, 10)
  }

  // ----- round trip

  lemma {:induction false} NatTextRoundTrip(n: nat)
    ensures NatText(n) != []
    ensures AllDigits(NatText(n), 10)
    ensures ValueOf(NatText(n), 10) == n
  {
    if n < 10 {
      assert NatText(n)[..0] == [];
    } else {
      NatTextRoundTrip(n / 10);
      var init, last := NatText(n / 10), Digit(n % 10);
      assert (init + [last])[..|init|] == init;
    }
  }

  lemma TrimKeepsDigits(s: string)
    requires s != []
    requires s[0] == '-' || DigitValue(s[0]) < 10
    requires s[|s| - 1] == '-' || DigitValue(s[|s| - 1]) < 10
    ensures TrimEnd(TrimStart(s)) == s
  {}

  lemma ParseDecimal(digits: string)
    requires digits != [] && AllDigits(digits, 10)
    ensures ParseLiteral(digits) == Some(ValueOf(digits, 10))
    ensures ParseLiteral("-" + digits) == Some(0 - ValueOf(digits, 10))
  {}

  /** Every integer is read back from its own text. */
  lemma ParseUndoesPrint(n: int)
    ensures ParseBigInt(IntText(n)) == Some(n)
  {
    var magnitude: nat := if n < 0 then -n else n;
    NatTextRoundTrip(magnitude);
    TrimKeepsDigits(IntText(n));
    ParseDecimal(NatText(magnitude));
  }

  /**
   A text is canonical when BigInt rejects it or it is the text of the integer it denotes.
   These are the texts for which comparing texts and comparing integers agree.
   */
  predicate Canonical(text: string) {
    match ParseBigInt(text)
    case None => true
    case Some(n) => text == IntText(n)
  }

  /** On canonical texts, denoting `n` and being the text of `n` are the same thing. */
  lemma CanonicalDenotes(text: string, n: int)
    requires Canonical(text)
    ensures ParseBigInt(text) == Some(n) <==> text == IntText(n)
  {
    ParseUndoesPrint(n);
  }

  lemma {:induction false} NatTextHasNoLeadingZero(n: nat)
    ensures NatText(n) != [] && (NatText(n)[0] == '0' ==> n == 0)
  {
    if n >= 10 { NatTextHasNoLeadingZero(n / 10); }
  }

  /**
   Digits with a leading zero convert to an integer that has another text, so not every text of an
   integer is canonical.
   */
  lemma LeadingZeroIsNotCanonical(digits: string)
    requires |digits| > 1 && digits[0] == '0' && AllDigits(digits, 10)
    ensures ParseBigInt(digits) == Some(ValueOf(digits, 10))
    ensures !Canonical(digits)
  {
    TrimKeepsDigits(digits);
    ParseDecimal(digits);
    NatTextHasNoLeadingZero(ValueOf(digits, 10));
  }

  /** The empty text converts to zero, whose text is another. */
  lemma EmptyIsNotCanonical()
    ensures ParseBigInt("") == Some(0) && !Canonical("")
  {}

  /** White space around a text does not count. */
  lemma {:induction false} SpacesIgnored(c: char, text: string)
    requires IsSpace(c)
    ensures ParseBigInt([c] + text) == ParseBigInt(text) == ParseBigInt(text + [c])
  {
    assert ([c] + text)[1..] == text;
    TrimStartAppend(c, text);
  }

  lemma {:induction false} TrimStartAppend(c: char, text: string)
    requires IsSpace(c)
    ensures TrimEnd(TrimStart(text + [c])) == TrimEnd(TrimStart(text))
  {
    if text == "" {
      assert text + [c] == [c] && [c][1..] == "";
    } else if IsSpace(text[0]) {
      assert (text + [c])[1..] == text[1..] + [c];
      TrimStartAppend(c, text[1..]);
    } else {
      assert (text + [c])[..|text|] == text;
    }
  }

  // ----- the other literals

  /** A digit below 16, a letter in upper or lower case. */
  function RadixDigit(d: nat, upper: bool): (c: char)
    requires d < 16
    ensures DigitValue(c) == d
  {
    ((if d < 10 then '0' as int + d else (if upper then 'A' as int else 'a' as int) + d - 10)) as char
  }

  /** The digits of `n` in a radix. */
  function RadixText(n: nat, radix: nat, upper: bool): (text: string)
    requires 2 <= radix <= 16
    ensures text != ""
    decreases n
  {
    if n < radix then [RadixDigit(n, upper)]
    else
      assert n / radix < n by { Quotient(n, radix); }
      RadixText(n / radix, radix, upper) + [RadixDigit(n % radix, upper)]
  }

  lemma Quotient(n: nat, radix: nat)
    requires 2 <= radix
    ensures n == (n / radix) * radix + n % radix
    ensures n > 0 ==> n / radix < n
  {
    assert n / radix * radix <= n;
    assert n / radix * 2 <= n / radix * radix;
  }

  lemma {:induction false} RadixRoundTrip(n: nat, radix: nat, upper: bool)
    requires 2 <= radix <= 16
    ensures AllDigits(RadixText(n, radix, upper), radix)
    ensures ValueOf(RadixText(n, radix, upper), radix) == n
  {
    var text := RadixText(n, radix, upper);
    if n < radix {
      assert text[..0] == [];
    } else {
      Quotient(n, radix);
      RadixRoundTrip(n / radix, radix, upper);
      assert text[..|text| - 1] == RadixText(n / radix, radix, upper);
    }
  }

  lemma DigitIsNoSpace(c: char)
    requires DigitValue(c) < NOT_A_DIGIT || c in {'+', '-'}
    ensures !IsSpace(c)
  {}

  /** The character after the 0 of a prefix, in either case. */
  predicate Marks(mark: char, radix: nat) {
    || (radix == 16 && (mark == 'x' || mark == 'X'))
    || (radix == 8 && (mark == 'o' || mark == 'O'))
    || (radix == 2 && (mark == 'b' || mark == 'B'))
  }

  lemma ParsePrefixed(mark: char, radix: nat, digits: string)
    requires Marks(mark, radix)
    ensures ParseLiteral(['0', mark] + digits) == ParseDigits(digits, radix)
    ensures forall sign <- {'+', '-'} :: ParseLiteral([sign, '0', mark] + digits) == None
  {
    assert (['0', mark] + digits)[2..] == digits;
    forall sign | sign in {'+', '-'} ensures ParseLiteral([sign, '0', mark] + digits) == None {
      assert ([sign, '0', mark] + digits)[1..][1] == mark;
    }
  }

  lemma TrimKeepsSolid(s: string)
    requires s != "" && !IsSpace(s[0]) && !IsSpace(s[|s| - 1])
    ensures TrimEnd(TrimStart(s)) == s
  {}

  /**
   A prefixed text converts to the integer that its digits denote; with a sign in front, or
   without digits, to none.
   */
  lemma PrefixedText(n: nat, radix: nat, upper: bool, mark: char)
    requires Marks(mark, radix)
    ensures ParseBigInt(['0', mark] + RadixText(n, radix, upper)) == Some(n)
    ensures forall sign <- {'+', '-'} :: ParseBigInt([sign, '0', mark] + RadixText(n, radix, upper)) == None
    ensures ParseBigInt(['0', mark]) == None
  {
    var digits := RadixText(n, radix, upper);
    RadixRoundTrip(n, radix, upper);
    ParsePrefixed(mark, radix, digits);
    ParsePrefixed(mark, radix, "");
    DigitIsNoSpace(digits[|digits| - 1]);
    TrimKeepsSolid(['0', mark] + digits);
    assert ['0', mark] + "" == ['0', mark];
    TrimKeepsSolid(['0', mark]);
    forall sign | sign in {'+', '-'} ensures ParseBigInt([sign, '0', mark] + digits) == None {
      TrimKeepsSolid([sign, '0', mark] + digits);
    }
  }

  /** A plus sign in front of an integer's own text changes nothing, unless there is a sign already. */
  lemma SignedText(n: int)
    ensures ParseBigInt("+" + IntText(n)) == if n >= 0 then Some(n) else None
  {
    var magnitude: nat := if n < 0 then -n else n;
    var text := "+" + IntText(n);
    NatTextRoundTrip(magnitude);
    assert text[1..] == IntText(n);
    TrimKeepsSolid(text);
    if n < 0 { assert DigitValue(text[1..][0]) == NOT_A_DIGIT; }
  }

  /**
   A text that begins with no prefix, and has a character other than a sign in front that is no
   decimal digit, converts to none.
   */
  lemma NotANumber(s: string, i: nat)
    requires s != "" && !IsSpace(s[0]) && !IsSpace(s[|s| - 1])
    requires i < |s| && DigitValue(s[i]) >= 10 && (i > 0 || s[0] !in {'+', '-'})
    requires |s| > 1 && s[0] == '0' ==> !exists radix :: Marks(s[1], radix)
    ensures ParseBigInt(s) == None
  {
    TrimKeepsSolid(s);
    if |s| > 1 && s[0] == '0' {
      assert !Marks(s[1], 16) && !Marks(s[1], 8) && !Marks(s[1], 2);
    }
    if i > 0 { assert s[1..][i - 1] == s[i]; }
  }
}
