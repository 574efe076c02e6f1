/**
 Decimal integers as fmt.Sprint writes them and strconv.Atoi reads them, for
 Go's 64-bit int.
 */
module Decimal {
  import opened Wrappers

  const MAX_INT := 0x7fff_ffff_ffff_ffff
  const MIN_INT := -0x8000_0000_0000_0000

  predicate IsInt(n: int) {
    MIN_INT <= n <= MAX_INT
  }

  /** Two's-complement wrap-around of an int result. */
  function Wrap(n: int): int {
    (n - MIN_INT) % 0x1_0000_0000_0000_0000 + MIN_INT
  }

  function Digit(d: int): char
    requires 0 <= d < 10
  {
    d as char + '0'
  }

  function Digits(n: nat): (s: string)
    ensures s != ""
  {
    if n < 10 then [Digit(n)] else Digits(n / 10) + [Digit(n % 10)]
  }

  function Print(n: int): string {
    if n < 0 then "-" + Digits(-n) else Digits(n)
  }

  function ReadDigits(s: string): Option<nat> {
    if s == "" then Some(0)
    else
      var c := s[|s| - 1];
      match ReadDigits(s[..|s| - 1])
      case None => None
      case Some(n) => if '0' <= c <= '9' then Some(10 * n + (c as int - '0' as int)) else None
  }

  /** An optional sign, at least one digit, and a value an int holds. */
  function Atoi(s: string): Option<int> {
    var signed := s != "" && (s[0] == '-' || s[0] == '+');
    var digits := if signed then s[1..] else s;
    if digits == "" then None
    else match ReadDigits(digits)
      case None => None
      case Some(n) =>
        var abs: int := n;
        var value := if s[0] == '-' then -abs else abs;
        if IsInt(value) then Some(value) else None
  }

  lemma {:induction false} DigitsReadBack(n: nat)
    ensures ReadDigits(Digits(n)) == Some(n)
    ensures forall i | 0 <= i < |Digits(n)| :: '0' <= Digits(n)[i] <= '9'
    ensures n > 0 ==> Digits(n)[0] != '0'
    ensures n < 10 ==> |Digits(n)| == 1
  {
    if n < 10 {
      assert Digits(n)[..0] == "";
    } else {
      DigitsReadBack(n / 10);
      assert Digits(n)[..|Digits(n)| - 1] == Digits(n / 10);
    }
  }

  /** What reads as an int is a sign, or none, and digits that are a 64-bit value; anything else is refused. */
  lemma AtoiMeans(s: string, n: int)
    ensures Atoi(s) == Some(n) <==>
      -9223372036854775808 <= n <= 9223372036854775807 && (Unsigned(s, n) || Signed(s, '+', n) || Signed(s, '-', -n))
  {
  }

  ghost predicate Unsigned(s: string, n: int) {
    s != "" && s[0] != '-' && s[0] != '+' && ReadDigits(s).Some? && ReadDigits(s).value == n
  }

  ghost predicate Signed(s: string, sign: char, n: int) {
    |s| > 1 && s[0] == sign && ReadDigits(s[1..]).Some? && ReadDigits(s[1..]).value == n
  }

  /** Digits read as what they say, from the left, and nothing but digits does. */
  lemma {:induction false} ReadDigitsMeans(s: string, c: char)
    ensures ReadDigits("") == Some(0)
    ensures ReadDigits(s).Some? && '0' <= c <= '9' ==>
      ReadDigits(s + [c]) == Some(10 * ReadDigits(s).value + (c as int - '0' as int))
    ensures ReadDigits(s).None? || !('0' <= c <= '9') ==> ReadDigits(s + [c]).None?
  {
    assert (s + [c])[..|s|] == s;
  }

  /** Printing an int and reading it back gives the int; there is no plus sign, and no zero in front. */
  lemma AtoiPrint(n: int)
    requires IsInt(n)
    ensures Atoi(Print(n)) == Some(n)
    ensures Print(n)[0] == '-' <==> n < 0
    ensures Print(n)[0] != '+' && (n == 0 ==> Print(n) == "0")
    ensures n > 0 ==> Print(n)[0] != '0'
    ensures n < 0 ==> Print(n)[1] != '0'
  {
    var m: nat := if n < 0 then -n else n;
    DigitsReadBack(m);
    assert '0' <= Digits(m)[0] <= '9';
    if n < 0 {
      assert Print(n)[1..] == Digits(m);
    }
  }
}
