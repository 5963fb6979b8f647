/** Numbers as text, in a base of up to sixteen. */
module Numerals {
  import opened Common

  function DigitOf(d: nat): (c: char)
    requires d < 16
    ensures Worth(c) == d
  {
    (if d < 10 then 48 + d else 87 + d) as char
  }

  /** What a lower-case digit is worth; 16 if it is none. */
  function Worth(c: char): nat {
    if '0' <= c <= '9' then c as int - 48 else if 'a' <= c <= 'f' then c as int - 87 else 16
  }

  predicate IsDigit(c: char, base: nat) { Worth(c) < base }

  /** The shortest notation of `n`, as Rust formats unsigned integers. */
  function Digits(n: nat, base: nat): (s: string)
    requires 2 <= base <= 16
    ensures s != "" && forall i :: 0 <= i < |s| ==> IsDigit(s[i], base)
  {
    if n < base then [DigitOf(n)]
    else
      DivMod(n, base);
      var low := n % base;
      Digits(n / base, base) + [DigitOf(low)]
  }

  function ParseDigits(s: string, base: nat): Option<nat>
    requires 2 <= base <= 16
  {
    if s == "" then Some(0)
    else match ParseDigits(Init(s), base)
      case None => None
      case Some(high) => if IsDigit(Last(s), base) then Some(high * base + Worth(Last(s))) else None
  }

  lemma {:induction false} DigitsBack(n: nat, base: nat)
    requires 2 <= base <= 16
    ensures ParseDigits(Digits(n, base), base) == Some(n)
  {
    if n < base {
      assert "" + [DigitOf(n)] == [DigitOf(n)];
    } else {
      DivMod(n, base);
      var high, low := n / base, n % base;
      DigitsBack(high, base);
    }
  }

  lemma DivMod(n: nat, base: nat)
    requires base >= 2
    ensures n == n / base * base + n % base && n % base < base && (n > 0 ==> n / base < n)
  {
  }

  lemma DigitsAbsent(n: nat, base: nat, c: char)
    requires 2 <= base <= 16 && !IsDigit(c, base)
    ensures c !in Digits(n, base)
  {
    assert forall i :: 0 <= i < |Digits(n, base)| ==> IsDigit(Digits(n, base)[i], base);
  }

  /** The digits, and what they are worth. */
  lemma DigitsAre(d: nat, base: nat)
    requires d < base && 2 <= base <= 16
    ensures Digits(d, base) == ["0123456789abcdef"[d]] && Worth("0123456789abcdef"[d]) == d
  {
  }

  /** More than one digit: the quotient's digits, then the remainder's. */
  lemma DigitsGo(n: nat, base: nat)
    requires n >= base && 2 <= base <= 16
    ensures Digits(n, base) == Digits(n / base, base) + Digits(n % base, base)
  {
    DivMod(n, base);
  }
}
