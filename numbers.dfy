/**
 * Python numbers as the report sees them: `round(x, 2)` on exact reals, the
 * int/float distinction that the running totals carry, and the text that a
 * formatted, rounded number becomes.
 */
module Numbers {

  import opened Results

  // ---------------------------------------------------------------------
  // round(x, 2)
  // ---------------------------------------------------------------------

  /** 100 * x rounded to the nearest integer, ties going to the even one. */
  function Cents(x: real): (c: int)
    ensures -0.5 <= c as real - x * 100.0 <= 0.5
    ensures (c as real - x * 100.0 == 0.5 || c as real - x * 100.0 == -0.5) ==> c % 2 == 0
  {
    var y := x * 100.0;
    var f := y.Floor;
    var frac := y - f as real;
    if frac < 0.5 then f
    else if frac > 0.5 then f + 1
    else if f % 2 == 0 then f
    else f + 1
  }

  /** `round(x, 2)`: the nearest multiple of 0.01, ties to even. */
  function Round2(x: real): (r: real)
    ensures -0.005 <= r - x <= 0.005
  {
    Cents(x) as real / 100.0
  }

  // ---------------------------------------------------------------------
  // Python int / float
  // ---------------------------------------------------------------------

  /** A Python number: an `int` literal such as the totals' initial 0, or a float. */
  datatype Num = Int(i: int) | Float(f: real)
  {
    function Val(): real {
      match this
      case Int(i) => i as real
      case Float(f) => f
    }
  }

  /** Python's `+`: int + int stays int, anything with a float is a float. */
  function Add(a: Num, b: Num): (r: Num)
    ensures r.Val() == a.Val() + b.Val()
    ensures r.Int? <==> a.Int? && b.Int?
  {
    if a.Int? && b.Int? then Int(a.i + b.i) else Float(a.Val() + b.Val())
  }

  /** Python's `-`, with the same typing rule as `+`. */
  function Sub(a: Num, b: Num): (r: Num)
    ensures r.Val() == a.Val() - b.Val()
    ensures r.Int? <==> a.Int? && b.Int?
  {
    if a.Int? && b.Int? then Int(a.i - b.i) else Float(a.Val() - b.Val())
  }

  // ---------------------------------------------------------------------
  // Text of a rounded number
  // ---------------------------------------------------------------------

  function DigitChar(d: nat): (ch: char)
    requires d < 10
    ensures IsDigit(ch) && DigitValue(ch) == d
  {
    ('0' as int + d) as char
  }

  predicate IsDigit(ch: char) { '0' <= ch <= '9' }

  function DigitValue(ch: char): (d: nat)
    requires IsDigit(ch)
    ensures d < 10
  {
    (ch - '0') as nat
  }

  /** Decimal text of a natural number, without leading zeros. */
  function NatText(n: nat): (s: string)
    ensures |s| > 0
  {
    if n < 10 then [DigitChar(n)] else NatText(n / 10) + [DigitChar(n % 10)]
  }

  predicate AllDigits(s: string) {
    forall i :: 0 <= i < |s| ==> IsDigit(s[i])
  }

  /** Value of a non-empty string of decimal digits. */
  function DigitsValue(s: string): nat
    requires AllDigits(s)
  {
    if |s| == 0 then 0 else DigitsValue(s[..|s| - 1]) * 10 + DigitValue(s[|s| - 1])
  }

  /** Python `str` of an int. */
  function IntText(i: int): string {
    if i < 0 then "-" + NatText(-i) else NatText(i)
  }

  /**
   * Python `str` of the float nearest to c / 100: the shortest text that
   * reads back as that float, i.e. the integer part, a point, and one or two
   * fraction digits (one when the hundredths digit is 0).
   */
  function CentsText(c: int): string {
    (if c < 0 then "-" else "") + CentsBody(if c < 0 then -c else c)
  }

  /** Unsigned text of n cents. */
  function CentsBody(n: nat): string {
    NatText(n / 100) + "." + FracText(n % 100)
  }

  /** Fraction digits of a float's text: the hundredths digit only when it is not 0. */
  function FracText(frac: nat): string
    requires frac < 100
  {
    if frac % 10 == 0 then [DigitChar(frac / 10)] else [DigitChar(frac / 10), DigitChar(frac % 10)]
  }

  /** The text an f-string gives `round(n, 2)`: an int is left as it is. */
  function RoundedText(n: Num): string {
    match n
    case Int(i) => IntText(i)
    case Float(f) => CentsText(Cents(f))
  }

  // ---------------------------------------------------------------------
  // Reading the text back
  // ---------------------------------------------------------------------

  /** What a reader of the report recovers from a number's text. */
  datatype Shown = ShownInt(i: int) | ShownCents(c: int)

  /** What `RoundedText(n)` should denote: the int itself, or round(f, 2) in cents. */
  function ShownOf(n: Num): Shown {
    match n
    case Int(i) => ShownInt(i)
    case Float(f) => ShownCents(Cents(f))
  }

  /** Position of the first '.' in s, or |s| when there is none. */
  function DotIndex(s: string): (k: nat)
    ensures k <= |s|
    ensures k < |s| ==> s[k] == '.'
    ensures forall j :: 0 <= j < k ==> s[j] != '.'
  {
    if |s| == 0 then 0 else if s[0] == '.' then 0 else 1 + DotIndex(s[1..])
  }

  function UnsignedNumber(s: string): Option<Shown> {
    var k := DotIndex(s);
    var whole := s[..k];
    if |whole| == 0 || !AllDigits(whole) then None
    else if k == |s| then Some(ShownInt(DigitsValue(whole)))
    else
      var frac := s[k + 1..];
      if |frac| == 0 || |frac| > 2 || !AllDigits(frac) then None
      else
        var hundredths := if |frac| == 1 then DigitValue(frac[0]) * 10
                          else DigitValue(frac[0]) * 10 + DigitValue(frac[1]);
        Some(ShownCents(DigitsValue(whole) * 100 + hundredths))
  }

  function Negate(v: Shown): Shown {
    match v
    case ShownInt(i) => ShownInt(-i)
    case ShownCents(c) => ShownCents(-c)
  }

  /** Reads an optional '-', digits, and an optional point with one or two digits. */
  function ReadNumber(s: string): Option<Shown> {
    if |s| > 0 && s[0] == '-' then
      match UnsignedNumber(s[1..])
      case None => None
      case Some(v) => Some(Negate(v))
    else UnsignedNumber(s)
  }

  lemma {:induction false} NatTextDigits(n: nat)
    ensures AllDigits(NatText(n))
    ensures DigitsValue(NatText(n)) == n
  {
    var s := NatText(n);
    if n >= 10 {
      NatTextDigits(n / 10);
      assert s[..|s| - 1] == NatText(n / 10);
    }
  }

  lemma DotAfterDigits(s: string, rest: string)
    requires AllDigits(s)
    requires |rest| > 0 && rest[0] == '.'
    ensures DotIndex(s + rest) == |s|
  {
    var t := s + rest;
    assert t[|s|] == '.';
    forall j | 0 <= j < |s| ensures t[j] != '.' {
      assert t[j] == s[j];
    }
  }

  lemma DigitsHaveNoDot(s: string)
    requires AllDigits(s)
    ensures DotIndex(s) == |s|
  {
    forall j | 0 <= j < |s| ensures s[j] != '.' {
      assert IsDigit(s[j]);
    }
  }

  /** Digits followed by a point and one or two digits read as cents. */
  lemma ReadFracText(frac: nat)
    requires frac < 100
    ensures var t := FracText(frac);
      && 0 < |t| <= 2 && AllDigits(t)
      && frac == if |t| == 1 then DigitValue(t[0]) * 10 else DigitValue(t[0]) * 10 + DigitValue(t[1])
  {
  }

  lemma ReadCentsBody(m: nat)
    ensures UnsignedNumber(CentsBody(m)) == Some(ShownCents(m))
  {
    var frac := m % 100;
    var fracText := FracText(frac);
    ReadFracText(frac);
    var w := NatText(m / 100);
    NatTextDigits(m / 100);
    var body := CentsBody(m);
    assert body == w + ("." + fracText);
    DotAfterDigits(w, "." + fracText);
    assert body[..|w|] == w;
    assert body[|w| + 1..] == fracText;
  }

  /** A leading '-' negates what the rest reads as; text not starting with '-' reads unsigned. */
  lemma ReadSigned(neg: bool, body: string)
    requires |body| > 0 && body[0] != '-'
    ensures ReadNumber((if neg then "-" else "") + body) ==
      match UnsignedNumber(body)
      case None => None
      case Some(v) => Some(if neg then Negate(v) else v)
  {
    if neg {
      assert ("-" + body)[1..] == body;
    } else {
      assert "" + body == body;
    }
  }

  lemma ReadIntText(i: int)
    ensures ReadNumber(IntText(i)) == Some(ShownInt(i))
  {
    var m: nat := if i < 0 then -i else i;
    NatTextDigits(m);
    var t := NatText(m);
    DigitsHaveNoDot(t);
    assert t[..|t|] == t;
    assert UnsignedNumber(t) == Some(ShownInt(m));
    assert IsDigit(t[0]);
    ReadSigned(i < 0, t);
    assert IntText(i) == (if i < 0 then "-" else "") + t;
  }

  lemma ReadCentsText(c: int)
    ensures ReadNumber(CentsText(c)) == Some(ShownCents(c))
  {
    var m: nat := if c < 0 then -c else c;
    ReadCentsBody(m);
    NatTextDigits(m / 100);
    assert CentsBody(m)[0] == NatText(m / 100)[0];
    assert IsDigit(CentsBody(m)[0]);
    ReadSigned(c < 0, CentsBody(m));
  }

  /** The text of a rounded number reads back as exactly that number. */
  lemma ReadRoundedText(n: Num)
    ensures ReadNumber(RoundedText(n)) == Some(ShownOf(n))
  {
    match n
    case Int(i) => ReadIntText(i);
    case Float(f) => ReadCentsText(Cents(f));
  }
}
