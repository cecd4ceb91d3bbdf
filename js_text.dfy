/** The JavaScript string operations the app's handlers rely on: `String(n)` on
    an integer, `String.prototype.trim`, and `s.replace(/[^...]/g, '')` with a
    character class (which keeps exactly the characters of that class). */
module JsText {

  predicate IsDigit(c: char) {
    '0' <= c <= '9'
  }

  predicate AllDigits(s: string) {
    forall i :: 0 <= i < |s| ==> IsDigit(s[i])
  }

  function DigitValue(c: char): (d: nat)
    requires IsDigit(c)
    ensures d < 10
  {
    c as int - '0' as int
  }

  function DigitChar(d: nat): (c: char)
    requires d < 10
    ensures IsDigit(c) && DigitValue(c) == d
  {
    ('0' as int + d) as char
  }

  /** The number a string of decimal digits denotes (leading zeros allowed). */
  function DigitsValue(s: string): nat
    requires AllDigits(s)
    decreases |s|
  {
    if s == [] then 0 else DigitsValue(s[..|s| - 1]) * 10 + DigitValue(s[|s| - 1])
  }

  /** `String(n)` for a non-negative integer: its shortest decimal rendering. */
  function NatToString(n: nat): (r: string)
    ensures AllDigits(r)
    ensures 1 <= |r| && (n < 10 <==> |r| == 1)
    ensures r[0] != '0' || n == 0
  {
    if n < 10 then [DigitChar(n)] else NatToString(n / 10) + [DigitChar(n % 10)]
  }

  /** `String(i)` for any integer: a minus sign in front of negative values. */
  function IntToString(i: int): (r: string)
    ensures r != []
    ensures r[0] == '-' <==> i < 0
    ensures i >= 0 ==> AllDigits(r) && DigitsValue(r) == i
    ensures i < 0 ==> AllDigits(r[1..]) && DigitsValue(r[1..]) == -i
    ensures i >= 0 ==> r[0] != '0' || i == 0
    ensures i < 0 ==> |r| >= 2 && r[1] != '0'
  {
    DigitsValueOfNatToString(if i < 0 then -i else i);
    if i < 0 then
      assert ("-" + NatToString(-i))[1..] == NatToString(-i);
      "-" + NatToString(-i)
    else NatToString(i)
  }

  /** Reading back the digits `String(n)` wrote gives `n`. */
  lemma {:induction false} DigitsValueOfNatToString(n: nat)
    ensures DigitsValue(NatToString(n)) == n
  {
    var s := NatToString(n);
    if n >= 10 {
      assert s[..|s| - 1] == NatToString(n / 10);
      DigitsValueOfNatToString(n / 10);
    }
  }

  /** Distinct numbers are rendered as distinct strings. */
  lemma {:induction false} NatToStringInjective(a: nat, b: nat)
    requires NatToString(a) == NatToString(b)
    ensures a == b
  {
    var s := NatToString(a);
    if a >= 10 && b >= 10 {
      assert s[..|s| - 1] == NatToString(a / 10);
      assert s[..|s| - 1] == NatToString(b / 10);
      NatToStringInjective(a / 10, b / 10);
      assert DigitValue(s[|s| - 1]) == a % 10 == b % 10;
    } else {
      assert a < 10 && b < 10;
      assert DigitValue(s[0]) == a == b;
    }
  }

  lemma IntToStringInjective(a: int, b: int)
    requires IntToString(a) == IntToString(b)
    ensures a == b
  {
    var s := IntToString(a);
    if a < 0 {
      assert s[1..] == NatToString(-a) == NatToString(-b);
      NatToStringInjective(-a, -b);
    } else {
      NatToStringInjective(a, b);
    }
  }

  /** The characters `String.prototype.trim` removes: the ECMAScript WhiteSpace
      code points (tab, vertical tab, form feed, space, no-break space, byte order
      mark and the other Unicode space separators) and the line terminators. */
  predicate IsJsWhitespace(c: char) {
    var n := c as int;
    n == 0x09 || n == 0x0A || n == 0x0B || n == 0x0C || n == 0x0D || n == 0x20 ||
    n == 0xA0 || n == 0x1680 || (0x2000 <= n <= 0x200A) || n == 0x2028 || n == 0x2029 ||
    n == 0x202F || n == 0x205F || n == 0x3000 || n == 0xFEFF
  }

  /** `s` with its leading whitespace removed: a suffix of `s`, preceded only by
      whitespace, that does not itself start with whitespace. */
  function TrimStart(s: string): (r: string)
    ensures |r| <= |s| && r == s[|s| - |r|..]
    ensures forall k :: 0 <= k < |s| - |r| ==> IsJsWhitespace(s[k])
    ensures r == [] || !IsJsWhitespace(r[0])
    decreases |s|
  {
    if s != [] && IsJsWhitespace(s[0]) then TrimStart(s[1..]) else s
  }

  /** `s` with its trailing whitespace removed: a prefix of `s`, followed only by
      whitespace, that does not itself end with whitespace. */
  function TrimEnd(s: string): (r: string)
    ensures |r| <= |s| && r == s[..|r|]
    ensures forall k :: |r| <= k < |s| ==> IsJsWhitespace(s[k])
    ensures r == [] || !IsJsWhitespace(r[|r| - 1])
    decreases |s|
  {
    if s != [] && IsJsWhitespace(s[|s| - 1]) then TrimEnd(s[..|s| - 1]) else s
  }

  /** `r` is the slice of `s` starting at `a`, with only whitespace before and
      after it in `s`. */
  predicate IsMiddle(s: string, a: int, r: string) {
    && 0 <= a <= |s| - |r| && r == s[a..][..|r|]
    && (forall k :: 0 <= k < a ==> IsJsWhitespace(s[k]))
    && (forall k :: a + |r| <= k < |s| ==> IsJsWhitespace(s[k]))
  }

  /** `s.trim()`: the result is a slice of `s` with only whitespace before and
      after it, and neither starts nor ends with whitespace; it is empty exactly
      when `s` is whitespace throughout, and text already free of whitespace at
      both ends comes back unchanged. */
  function Trim(s: string): (r: string)
    ensures exists a :: IsMiddle(s, a, r)
    ensures r == [] || (!IsJsWhitespace(r[0]) && !IsJsWhitespace(r[|r| - 1]))
    ensures r == [] <==> forall k :: 0 <= k < |s| ==> IsJsWhitespace(s[k])
    ensures s == [] || (!IsJsWhitespace(s[0]) && !IsJsWhitespace(s[|s| - 1])) ==> r == s
  {
    TrimEmptyExactlyWhenBlank(s);
    TrimKeepsMiddle(s);
    TrimEnd(TrimStart(s))
  }

  /** What trimming keeps: the part of `s` between its leading and its trailing
      whitespace, which is all of `s` when neither end is whitespace. */
  lemma TrimKeepsMiddle(s: string)
    ensures IsMiddle(s, |s| - |TrimStart(s)|, TrimEnd(TrimStart(s)))
    ensures s == [] || (!IsJsWhitespace(s[0]) && !IsJsWhitespace(s[|s| - 1])) ==> TrimEnd(TrimStart(s)) == s
  {
    var t := TrimStart(s);
    var r := TrimEnd(t);
    var a := |s| - |t|;
    assert t == s[a..];
    forall k | a + |r| <= k < |s| ensures IsJsWhitespace(s[k]) {
      assert s[k] == t[k - a];
    }
  }

  lemma TrimEmptyExactlyWhenBlank(s: string)
    ensures TrimEnd(TrimStart(s)) == [] <==> forall k :: 0 <= k < |s| ==> IsJsWhitespace(s[k])
    ensures TrimEnd(TrimStart(s)) != [] ==> !IsJsWhitespace(TrimEnd(TrimStart(s))[0])
  {
  }

  /** Trimming a string that is already trimmed changes nothing. */
  lemma TrimIdempotent(s: string)
    ensures Trim(Trim(s)) == Trim(s)
  {
    var r := Trim(s);
    if r != [] {
      assert TrimStart(r) == r;
      assert TrimEnd(r) == r;
    }
  }

  /** The characters of `s` that `keep` accepts, in their original order. This
      is the recursion `Filter` returns, kept apart from `Filter`'s contract:
      the inductions below are proved about it because `Filter`'s quantified
      ensures, brought into every unfolding, make the solver run away. */
  function Kept(s: string, keep: char -> bool): string
    decreases |s|
  {
    if s == [] then [] else (if keep(s[0]) then [s[0]] else []) + Kept(s[1..], keep)
  }

  /** What is kept is no longer than the text and lies in the class. */
  lemma {:induction false} KeptInClass(s: string, keep: char -> bool)
    ensures |Kept(s, keep)| <= |s|
    ensures forall i :: 0 <= i < |Kept(s, keep)| ==> keep(Kept(s, keep)[i])
    decreases |s|
  {
    if s != [] {
      KeptInClass(s[1..], keep);
    }
  }

  /** A character of the class is kept as often as it occurs. */
  lemma {:induction false} KeptCount(s: string, keep: char -> bool, c: char)
    requires keep(c)
    ensures multiset(Kept(s, keep))[c] == multiset(s)[c]
    decreases |s|
  {
    if s != [] {
      KeptCount(s[1..], keep, c);
      assert s == [s[0]] + s[1..];
    }
  }

  /** Text already over the class is kept whole. */
  lemma {:induction false} KeptWhole(s: string, keep: char -> bool)
    requires forall i :: 0 <= i < |s| ==> keep(s[i])
    ensures Kept(s, keep) == s
    decreases |s|
  {
    if s != [] {
      KeptWhole(s[1..], keep);
      assert s == [s[0]] + s[1..];
    }
  }

  /** The three inductions gathered for `Filter`, whose body (an expression)
      cannot hold the `forall` statement the per-character count needs. */
  lemma KeptFacts(s: string, keep: char -> bool)
    ensures |Kept(s, keep)| <= |s|
    ensures forall i :: 0 <= i < |Kept(s, keep)| ==> keep(Kept(s, keep)[i])
    ensures forall c {:trigger multiset(s)[c]} :: keep(c) ==> multiset(Kept(s, keep))[c] == multiset(s)[c]
    ensures (forall i :: 0 <= i < |s| ==> keep(s[i])) ==> Kept(s, keep) == s
  {
    KeptInClass(s, keep);
    forall c | keep(c) ensures multiset(Kept(s, keep))[c] == multiset(s)[c] {
      KeptCount(s, keep, c);
    }
    if forall i :: 0 <= i < |s| ==> keep(s[i]) {
      KeptWhole(s, keep);
    }
  }

  /** `s.replace(/[^C]/g, '')` for a character class `C`: the characters of `s`
      that belong to `C`, in their original order. Every character of the result
      is in `C`, no character of `C` is lost, and a string that is already over
      `C` comes back unchanged; `FilterAppend` states the order. */
  function Filter(s: string, keep: char -> bool): (r: string)
    ensures |r| <= |s|
    ensures forall i :: 0 <= i < |r| ==> keep(r[i])
    ensures forall c {:trigger multiset(r)[c]} :: keep(c) ==> multiset(r)[c] == multiset(s)[c]
    ensures (forall i :: 0 <= i < |s| ==> keep(s[i])) ==> r == s
  {
    KeptFacts(s, keep);
    Kept(s, keep)
  }

  lemma {:induction false} KeptAppend(a: string, b: string, keep: char -> bool)
    ensures Kept(a + b, keep) == Kept(a, keep) + Kept(b, keep)
    decreases |a|
  {
    if a == [] {
      assert a + b == b;
    } else {
      var ab := a + b;
      var head := if keep(a[0]) then [a[0]] else [];
      assert ab[0] == a[0] && ab[1..] == a[1..] + b;
      KeptAppend(a[1..], b, keep);
      assert Kept(ab, keep) == head + (Kept(a[1..], keep) + Kept(b, keep));
      assert Kept(a, keep) == head + Kept(a[1..], keep);
    }
  }

  /** The filter works character by character and keeps their order: filtering
      a concatenation is concatenating the filtered parts. */
  lemma FilterAppend(a: string, b: string, keep: char -> bool)
    ensures Filter(a + b, keep) == Filter(a, keep) + Filter(b, keep)
  {
    KeptAppend(a, b, keep);
  }
}
