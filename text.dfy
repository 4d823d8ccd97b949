/**
 * Text helpers shared by the handlers and the error mapping: the decimal
 * rendering that Rust's `{}` gives an unsigned integer, and the
 * "<word>, <name>!" greeting format.
 */
module Text {

  predicate IsDigit(c: char) {
    '0' <= c <= '9'
  }

  predicate AllDigits(s: string) {
    forall i :: 0 <= i < |s| ==> IsDigit(s[i])
  }

  function DigitChar(d: nat): (c: char)
    requires d < 10
    ensures IsDigit(c)
  {
    ('0' as int + d) as char
  }

  function DigitValue(c: char): (d: nat)
    requires IsDigit(c)
    ensures d < 10
  {
    c as int - '0' as int
  }

  /** The decimal text of n, most significant digit first, no leading zeros. */
  function Decimal(n: nat): (s: string)
    ensures |s| >= 1 && AllDigits(s)
    ensures s[0] == '0' ==> n == 0 && s == "0"
    decreases n
  {
    if n < 10 then [DigitChar(n)] else Decimal(n / 10) + [DigitChar(n % 10)]
  }

  /** The number a string of decimal digits denotes. */
  function DecimalValue(s: string): nat
    requires AllDigits(s)
    decreases |s|
  {
    if s == [] then 0 else 10 * DecimalValue(s[..|s| - 1]) + DigitValue(s[|s| - 1])
  }

  /** Reading back the decimal text of n gives n. */
  lemma {:induction false} DecimalRoundTrip(n: nat)
    ensures DecimalValue(Decimal(n)) == n
    decreases n
  {
    var s := Decimal(n);
    if n < 10 {
      assert s[..|s| - 1] == [];
    } else {
      DecimalRoundTrip(n / 10);
      assert s[..|s| - 1] == Decimal(n / 10);
    }
  }

  /** Distinct numbers have distinct decimal texts. */
  lemma DecimalInjective(a: nat, b: nat)
    requires Decimal(a) == Decimal(b)
    ensures a == b
  {
    DecimalRoundTrip(a);
    DecimalRoundTrip(b);
  }

  /**
   * A run of digits followed by text that starts with a non-digit splits in
   * only one way: the digit run ends where the first non-digit is.
   */
  lemma DigitRunSplit(a: string, x: string, b: string, y: string)
    requires AllDigits(a) && AllDigits(b)
    requires |x| > 0 && !IsDigit(x[0]) && |y| > 0 && !IsDigit(y[0])
    requires a + x == b + y
    ensures a == b && x == y
  {
    assert a == (a + x)[..|a|] && b == (b + y)[..|b|];
    assert x == (a + x)[|a|..] && y == (b + y)[|b|..];
  }

  /** After a common prefix, a digit run followed by a non-digit text is read back uniquely. */
  lemma DigitRunAfterPrefix(p: string, a: string, x: string, a': string, x': string)
    requires AllDigits(a) && AllDigits(a')
    requires |x| > 0 && !IsDigit(x[0]) && |x'| > 0 && !IsDigit(x'[0])
    requires p + (a + x) == p + (a' + x')
    ensures a == a' && x == x'
  {
    assert (p + (a + x))[|p|..] == a + x;
    assert (p + (a' + x'))[|p|..] == a' + x';
    DigitRunSplit(a, x, a', x');
  }

  /** Three numbers embedded in fixed text: p + a + s1 + b + s2 + c. */
  function ThreeNumbers(p: string, a: nat, s1: string, b: nat, s2: string, c: nat): string {
    p + Decimal(a) + s1 + Decimal(b) + s2 + Decimal(c)
  }

  lemma ThreeRunsDetermined(p: string, s1: string, s2: string,
                            a: string, b: string, c: string, a': string, b': string, c': string)
    requires AllDigits(a) && AllDigits(b) && AllDigits(a') && AllDigits(b')
    requires |s1| > 0 && !IsDigit(s1[0]) && |s2| > 0 && !IsDigit(s2[0])
    requires p + a + s1 + b + s2 + c == p + a' + s1 + b' + s2 + c'
    ensures a == a' && b == b' && c == c'
  {
    var rest, rest' := s2 + c, s2 + c';
    var tail, tail' := s1 + (b + rest), s1 + (b' + rest');
    assert p + a + s1 + b + s2 + c == p + (a + tail);
    assert p + a' + s1 + b' + s2 + c' == p + (a' + tail');
    DigitRunAfterPrefix(p, a, tail, a', tail');
    DigitRunAfterPrefix(s1, b, rest, b', rest');
    assert c == rest[|s2|..] && c' == rest'[|s2|..];
  }

  /**
   * When the separators s1 and s2 start with a non-digit, the text
   * ThreeNumbers(p, a, s1, b, s2, c) determines the three numbers.
   */
  lemma ThreeNumbersDetermined(p: string, s1: string, s2: string,
                               a: nat, b: nat, c: nat, a': nat, b': nat, c': nat)
    requires |s1| > 0 && !IsDigit(s1[0]) && |s2| > 0 && !IsDigit(s2[0])
    requires ThreeNumbers(p, a, s1, b, s2, c) == ThreeNumbers(p, a', s1, b', s2, c')
    ensures a == a' && b == b' && c == c'
  {
    var da, db, dc := Decimal(a), Decimal(b), Decimal(c);
    var da', db', dc' := Decimal(a'), Decimal(b'), Decimal(c');
    ThreeRunsDetermined(p, s1, s2, da, db, dc, da', db', dc');
    DecimalInjective(a, a');
    DecimalInjective(b, b');
    DecimalInjective(c, c');
  }

  /** Rust's `format!("{}, {}!", word, name)`: the name is embedded verbatim. */
  function Salutation(word: string, name: string): (m: string)
    ensures |m| == |word| + |name| + 3
    ensures m[..|word|] == word && m[|word|..|word| + 2] == ", "
    ensures m[|word| + 2..|m| - 1] == name && m[|m| - 1] == '!'
  {
    word + ", " + name + "!"
  }

  /** The name can be read back from the greeting, so different names give different greetings. */
  lemma SalutationInjective(word: string, name: string, name': string)
    requires Salutation(word, name) == Salutation(word, name')
    ensures name == name'
  {
    var m := Salutation(word, name);
    assert name == m[|word| + 2..|m| - 1] == name';
  }
}
