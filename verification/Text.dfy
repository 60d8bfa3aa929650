/** Options, decimal printing and the string helpers the other modules share. */
module Text {

  datatype Option<+T> = None | Some(value: T)

  predicate IsDigit(c: char) { '0' <= c <= '9' }

  function DigitChar(d: nat): (c: char)
    requires d < 10
    ensures IsDigit(c) && c as int == '0' as int + d
  {
    ('0' as int + d) as char
  }

  /** The digits of a natural number, most significant first, as `%d` prints it. */
  function Digits(n: nat): (s: string)
    ensures |s| > 0 && forall i | 0 <= i < |s| :: IsDigit(s[i])
  {
    if n < 10 then [DigitChar(n)] else Digits(n / 10) + [DigitChar(n % 10)]
  }

  /** `%d` and `strconv.FormatInt(_, 10)` on a signed integer. */
  function Decimal(n: int): string {
    if n < 0 then "-" + Digits(-n) else Digits(n)
  }

  /** The number a digit string denotes: the inverse of Digits. */
  function NatOf(s: string): nat
    requires forall i | 0 <= i < |s| :: IsDigit(s[i])
  {
    if s == [] then 0
    else
      assert IsDigit(s[|s| - 1]);
      NatOf(s[..|s| - 1]) * 10 + (s[|s| - 1] as int - '0' as int)
  }

  lemma {:induction false} NatOfDigits(n: nat)
    ensures NatOf(Digits(n)) == n
  {
    if n >= 10 {
      NatOfDigits(n / 10);
      assert Digits(n)[..|Digits(n)| - 1] == Digits(n / 10);
    } else {
      assert Digits(n)[..0] == [];
      assert NatOf(Digits(n)[..0]) == 0;
    }
  }

  ghost predicate NoDigitFirst(s: string) { s == [] || !IsDigit(s[0]) }

  lemma SamePrefix<T>(p: seq<T>, x: seq<T>, y: seq<T>)
    requires p + x == p + y
    ensures x == y
  {
    assert x == (p + x)[|p|..] && y == (p + y)[|p|..];
  }

  lemma Regroup<T>(p: seq<T>, x: seq<T>, s: seq<T>)
    ensures (p + x) + s == p + (x + s)
  {}

  /** Both texts start with p: what follows p is equal too. */
  lemma PeelPrefix<T>(p: seq<T>, x: seq<T>, s: seq<T>, y: seq<T>, t: seq<T>)
    requires (p + x) + s == (p + y) + t
    ensures x + s == y + t
  {
    Regroup(p, x, s);
    Regroup(p, y, t);
    SamePrefix(p, x + s, y + t);
  }

  lemma SameFirst<T>(x: seq<T>, s: seq<T>, y: seq<T>, t: seq<T>)
    requires x != [] && y != [] && x + s == y + t
    ensures x[0] == y[0]
  {
    assert x[0] == (x + s)[0] && y[0] == (y + t)[0];
  }

  /** How many digits a text starts with. */
  function DigitRun(z: string): (n: nat)
    ensures n <= |z|
  {
    if z == [] || !IsDigit(z[0]) then 0 else 1 + DigitRun(z[1..])
  }

  lemma {:induction false} DigitRunOf(x: string, s: string)
    requires forall i | 0 <= i < |x| :: IsDigit(x[i])
    requires NoDigitFirst(s)
    ensures DigitRun(x + s) == |x|
  {
    if x == [] {
      assert x + s == s;
    } else {
      assert (x + s)[1..] == x[1..] + s;
      DigitRunOf(x[1..], s);
    }
  }

  lemma DigitsReadBack(a: nat, b: nat, s: string, t: string)
    requires NoDigitFirst(s) && NoDigitFirst(t)
    requires Digits(a) + s == Digits(b) + t
    ensures a == b && s == t
  {
    var x, y := Digits(a), Digits(b);
    DigitRunOf(x, s);
    DigitRunOf(y, t);
    assert x == (x + s)[..|x|] && y == (y + t)[..|y|];
    SamePrefix(x, s, t);
    NatOfDigits(a);
    NatOfDigits(b);
  }

  /** Decimal printing can be read back, whatever follows, as long as that is no digit. */
  lemma DecimalReadsBack(a: int, b: int, s: string, t: string)
    requires NoDigitFirst(s) && NoDigitFirst(t)
    requires Decimal(a) + s == Decimal(b) + t
    ensures a == b && s == t
  {
    SameFirst(Decimal(a), s, Decimal(b), t);
    if a < 0 {
      PeelPrefix("-", Digits(-a), s, Digits(-b), t);
      DigitsReadBack(-a, -b, s, t);
    } else {
      DigitsReadBack(a, b, s, t);
    }
  }

  lemma DecimalInjective(a: int, b: int)
    requires Decimal(a) == Decimal(b)
    ensures a == b
  {
    assert Decimal(a) + "" == Decimal(b) + "";
    DecimalReadsBack(a, b, "", "");
  }

  /** strings.Contains. */
  predicate Contains(s: string, sub: string) {
    exists i | 0 <= i <= |s| :: sub <= s[i..]
  }

  /**
   * strings.ToLower, as far as a search for ASCII text can see it: besides A-Z only
   * U+0130 and U+212A have an ASCII lower case.
   */
  function Lower(s: string): string {
    seq(|s|, i requires 0 <= i < |s| => LowerChar(s[i]))
  }

  function LowerChar(c: char): char {
    if 'A' <= c <= 'Z' then (c as int + 32) as char
    else if c == '\U{130}' then 'i'
    else if c == '\U{212A}' then 'k'
    else c
  }
}
