/** `Number(text)` on the two kinds of text the app converts: the manual amount,
    which its input handler has already reduced to digits, `.`, `,` and `-`, and a
    pending item's price, which its handler has reduced to digits and `.`. Over
    that alphabet the JavaScript grammar for a string numeric literal comes down
    to: the empty string (which is 0), or an optional leading `-` followed by
    digits with at most one `.` and at least one digit. Everything else is NaN.
    Values are exact reals: binary floating point is not modelled. */
module JsNumbers {
  import opened JsText

  datatype JsNumber = Finite(value: real) | NaN

  /** The characters the manual amount field keeps (App.js:509). */
  predicate IsAmountChar(c: char) {
    IsDigit(c) || c == '.' || c == ',' || c == '-'
  }

  /** The characters a pending price edit keeps (App.js:450). */
  predicate IsPriceChar(c: char) {
    IsDigit(c) || c == '.'
  }

  predicate IsAmountText(s: string) {
    forall i :: 0 <= i < |s| ==> IsAmountChar(s[i])
  }

  function Pow10(k: nat): (p: nat)
    ensures p >= 1
  {
    if k == 0 then 1 else 10 * Pow10(k - 1)
  }

  /** The position of the first `c` in `s`, or `|s|` when there is none. */
  function IndexOf(s: string, c: char): (k: nat)
    ensures k <= |s|
    ensures k < |s| ==> s[k] == c
    ensures forall j :: 0 <= j < k ==> s[j] != c
  {
    if s == [] then 0
    else if s[0] == c then 0
    else 1 + IndexOf(s[1..], c)
  }

  /** An unsigned literal: `digits`, `digits.`, `digits.digits` or `.digits`. */
  function ParseUnsigned(s: string): (r: JsNumber)
    ensures r.Finite? ==> r.value >= 0.0
  {
    var k := IndexOf(s, '.');
    if k == |s| then
      if s != [] && AllDigits(s) then Finite(DigitsValue(s) as real) else NaN
    else
      var whole, fraction := s[..k], s[k + 1..];
      if AllDigits(whole) && AllDigits(fraction) && (whole != [] || fraction != []) then
        Finite(DigitsValue(whole) as real + DigitsValue(fraction) as real / Pow10(|fraction|) as real)
      else NaN
  }

  function Negate(n: JsNumber): JsNumber {
    match n
    case Finite(v) => Finite(-v)
    case NaN => NaN
  }

  /** `Number(s)` for text over the amount alphabet. */
  function ParseNumber(s: string): (r: JsNumber)
    requires IsAmountText(s)
    ensures s == [] ==> r == Finite(0.0)
    ensures r.Finite? && r.value < 0.0 ==> s[0] == '-'
  {
    if s == [] then Finite(0.0)
    else if s[0] == '-' then Negate(ParseUnsigned(s[1..]))
    else ParseUnsigned(s)
  }

  /** `n || 0` for a number: NaN and zero are the falsy numbers, so both give 0
      and every other value is kept. */
  function OrZero(n: JsNumber): (r: real)
    ensures n.Finite? ==> r == n.value
    ensures n.NaN? ==> r == 0.0
  {
    if n.Finite? && n.value != 0.0 then n.value else 0.0
  }

  /** A comma anywhere makes the text not a number: `"4,50"` is rejected even
      though the amount field lets commas through. */
  lemma CommaIsNotANumber(s: string, j: nat)
    requires IsAmountText(s)
    requires j < |s| && s[j] == ','
    ensures ParseNumber(s) == NaN
  {
  }

  /** The string numeric literals over the price alphabet: digits with at most
      one `.` and at least one digit. */
  predicate IsUnsignedLiteral(u: string) {
    && (forall i :: 0 <= i < |u| ==> IsPriceChar(u[i]))
    && (exists i :: 0 <= i < |u| && IsDigit(u[i]))
    && (forall i, j :: 0 <= i < j < |u| && u[i] == '.' ==> u[j] != '.')
  }

  /** The texts over the amount alphabet that `Number()` accepts: the empty
      string, or an unsigned literal with an optional leading `-`. */
  predicate IsNumericLiteral(s: string) {
    s == [] || IsUnsignedLiteral(s) || (s[0] == '-' && IsUnsignedLiteral(s[1..]))
  }

  /** An unsigned reading is finite exactly for an unsigned literal. */
  lemma UnsignedFiniteExactlyForLiterals(u: string)
    requires IsAmountText(u)
    ensures ParseUnsigned(u).Finite? <==> IsUnsignedLiteral(u)
  {
    var k := IndexOf(u, '.');
    if k == |u| {
      if IsUnsignedLiteral(u) {
        forall i | 0 <= i < |u| ensures IsDigit(u[i]) {
          assert u[i] != '.';
        }
      }
    } else {
      var whole, fraction := u[..k], u[k + 1..];
      if IsUnsignedLiteral(u) {
        forall i | 0 <= i < |whole| ensures IsDigit(whole[i]) {
          assert whole[i] == u[i] != '.';
        }
        forall i | 0 <= i < |fraction| ensures IsDigit(fraction[i]) {
          assert fraction[i] == u[k + 1 + i];
          assert u[k + 1 + i] != '.';
        }
        var d :| 0 <= d < |u| && IsDigit(u[d]);
        assert d != k;
      }
      if ParseUnsigned(u).Finite? {
        assert AllDigits(whole) && AllDigits(fraction);
        forall i | 0 <= i < |u| ensures IsPriceChar(u[i]) && (u[i] == '.' ==> i == k) {
          if i < k {
            assert u[i] == whole[i];
          } else if i > k {
            assert u[i] == fraction[i - k - 1];
          }
        }
        if whole != [] {
          assert IsDigit(u[0]);
        } else {
          assert IsDigit(u[k + 1]);
        }
      }
    }
  }

  /** `Number()` over the amount alphabet is finite exactly for the numeric
      literals: this is the test Add Expense applies before recording. */
  lemma FiniteExactlyForLiterals(s: string)
    requires IsAmountText(s)
    ensures ParseNumber(s).Finite? <==> IsNumericLiteral(s)
  {
    if s != [] {
      if s[0] == '-' {
        assert !IsPriceChar(s[0]);
        UnsignedFiniteExactlyForLiterals(s[1..]);
      } else {
        UnsignedFiniteExactlyForLiterals(s);
      }
    }
  }

  /** An unsigned literal as a user may type it: whole digits (none, or with
      leading zeros, allowed), optionally a point with fraction digits after
      it, and at least one digit in all. `.5`, `007` and `4.` are literals. */
  datatype Literal = Literal(whole: string, point: bool, fraction: string)

  predicate ValidLiteral(l: Literal) {
    && AllDigits(l.whole) && AllDigits(l.fraction)
    && (l.point || l.fraction == [])
    && (l.whole != [] || l.fraction != [])
  }

  function LiteralText(l: Literal): string {
    l.whole + (if l.point then "." + l.fraction else "")
  }

  /** The value a literal denotes. */
  function Magnitude(l: Literal): (m: real)
    requires ValidLiteral(l)
    ensures m >= 0.0
  {
    DigitsValue(l.whole) as real + DigitsValue(l.fraction) as real / Pow10(|l.fraction|) as real
  }

  /** The literal that writes `u`: the text split at its point. */
  function LiteralOf(u: string): (l: Literal)
    requires IsUnsignedLiteral(u)
    ensures ValidLiteral(l) && LiteralText(l) == u
  {
    SplitAtPointWrites(u);
    SplitAtPoint(u)
  }

  function SplitAtPoint(u: string): Literal {
    var k := IndexOf(u, '.');
    if k == |u| then Literal(u, false, []) else Literal(u[..k], true, u[k + 1..])
  }

  /** Every unsigned literal text is written by the literal that splits it at
      its point. */
  lemma SplitAtPointWrites(u: string)
    requires IsUnsignedLiteral(u)
    ensures ValidLiteral(SplitAtPoint(u)) && LiteralText(SplitAtPoint(u)) == u
  {
    var k := IndexOf(u, '.');
    if k == |u| {
      forall i | 0 <= i < |u| ensures IsDigit(u[i]) {
        assert u[i] != '.';
      }
    } else {
      var whole, fraction := u[..k], u[k + 1..];
      forall i | 0 <= i < |whole| ensures IsDigit(whole[i]) {
        assert whole[i] == u[i] != '.';
      }
      forall i | 0 <= i < |fraction| ensures IsDigit(fraction[i]) {
        assert fraction[i] == u[k + 1 + i];
        assert u[k + 1 + i] != '.';
      }
      var d :| 0 <= d < |u| && IsDigit(u[d]);
      if d < k {
        assert whole[d] == u[d];
      } else {
        assert d != k && fraction[d - k - 1] == u[d];
      }
      assert u == whole + "." + fraction;
    }
  }

  /** A signed literal: what the amount field reads when it is a number. */
  datatype Decimal = Decimal(negative: bool, digits: Literal)

  predicate ValidDecimal(d: Decimal) {
    ValidLiteral(d.digits)
  }

  function Render(d: Decimal): string {
    (if d.negative then "-" else "") + LiteralText(d.digits)
  }

  function DecimalValue(d: Decimal): real
    requires ValidDecimal(d)
  {
    if d.negative then -Magnitude(d.digits) else Magnitude(d.digits)
  }

  /** A literal's text is price text that does not start with `-`. */
  lemma LiteralIsPriceText(l: Literal)
    requires ValidLiteral(l)
    ensures var u := LiteralText(l);
      && u != [] && u[0] != '-'
      && (forall i :: 0 <= i < |u| ==> IsPriceChar(u[i]))
      && IsAmountText(u)
  {
    var u := LiteralText(l);
    forall i | 0 <= i < |u| ensures IsPriceChar(u[i]) {
      if i < |l.whole| {
        assert u[i] == l.whole[i];
      } else if i > |l.whole| {
        assert u[i] == l.fraction[i - |l.whole| - 1];
      }
    }
  }

  /** An unsigned literal is price text and is read as its value. The text
      facts come from `LiteralIsPriceText`, a separate lemma so that each proof
      stays small; they are repeated here so callers need only this one. */
  lemma ParseLiteral(l: Literal)
    requires ValidLiteral(l)
    ensures var u := LiteralText(l);
      && u != [] && u[0] != '-'
      && (forall i :: 0 <= i < |u| ==> IsPriceChar(u[i]))
      && IsAmountText(u)
      && ParseUnsigned(u) == Finite(Magnitude(l))
  {
    LiteralIsPriceText(l);
    var u := LiteralText(l);
    var k := IndexOf(u, '.');
    assert forall j :: 0 <= j < |l.whole| ==> u[j] == l.whole[j];
    if l.point {
      assert u[|l.whole|] == '.';
      assert k == |l.whole|;
      assert u[..k] == l.whole && u[k + 1..] == l.fraction;
    } else {
      assert u == l.whole;
    }
  }

  /** A leading minus sign negates what the rest of the text reads as. */
  lemma ParseNegated(u: string)
    requires IsAmountText(u)
    ensures IsAmountText("-" + u) && ParseNumber("-" + u) == Negate(ParseUnsigned(u))
  {
  }

  /** Text written as a signed literal is read back as that literal's value. */
  lemma ParseRender(d: Decimal)
    requires ValidDecimal(d)
    ensures IsAmountText(Render(d))
    ensures ParseNumber(Render(d)) == Finite(DecimalValue(d))
  {
    var u := LiteralText(d.digits);
    ParseLiteral(d.digits);
    if d.negative {
      assert Render(d) == "-" + u;
      ParseNegated(u);
    } else {
      assert Render(d) == u;
    }
  }
}
