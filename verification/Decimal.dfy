/** Decimal numerals, printed as sprintf does and read back in 32-bit arithmetic. */
module Decimal {
  type Word = n: nat | n < 0x1_0000_0000

  function DigitChar(d: nat): char
    requires d < 10
  {
    '0' + d as char
  }

  function Digits(n: nat): (s: string)
    ensures s != []
  {
    if n < 10 then [DigitChar(n)] else Digits(n / 10) + [DigitChar(n % 10)]
  }

  predicate IsSpace(c: char) {
    9 <= c as int <= 13 || c == ' '
  }

  predicate IsDigit(c: char) {
    '0' <= c <= '9'
  }

  function DigitValue(c: char): nat
    requires IsDigit(c)
  {
    c as int - '0' as int
  }

  /** The digits at the front of `s`, read in 32-bit arithmetic, and what follows them. */
  function Number(s: string, acc: Word): (r: (Word, string))
    ensures |r.1| <= |s|
  {
    if s != [] && IsDigit(s[0])
    then Number(s[1..], (acc * 10 + DigitValue(s[0])) % 0x1_0000_0000)
    else (acc, s)
  }

  function Value(s: string, acc: Word): Word
    requires forall c | c in s :: IsDigit(c)
    decreases s
  {
    if s == [] then acc else Value(s[1..], (acc * 10 + DigitValue(s[0])) % 0x1_0000_0000)
  }

  lemma {:induction false} NumberValue(s: string, acc: Word, rest: string)
    requires forall c | c in s :: IsDigit(c)
    requires rest == [] || !IsDigit(rest[0])
    ensures Number(s + rest, acc) == (Value(s, acc), rest)
    decreases s
  {
    if s == [] {
      assert s + rest == rest;
    } else {
      NumberValue(s[1..], (acc * 10 + DigitValue(s[0])) % 0x1_0000_0000, rest);
      assert (s + rest)[1..] == s[1..] + rest;
    }
  }

  lemma {:induction false} ValueAppend(s: string, c: char, acc: Word)
    requires (forall c | c in s :: IsDigit(c)) && IsDigit(c)
    ensures forall d | d in s + [c] :: IsDigit(d)
    ensures Value(s + [c], acc) == (Value(s, acc) * 10 + DigitValue(c)) % 0x1_0000_0000
    decreases s
  {
    if s == [] {
      assert s + [c] == [c];
    } else {
      ValueAppend(s[1..], c, (acc * 10 + DigitValue(s[0])) % 0x1_0000_0000);
      assert (s + [c])[1..] == s[1..] + [c];
    }
  }

  lemma DigitCharValue(d: nat)
    requires d < 10
    ensures IsDigit(DigitChar(d)) && DigitValue(DigitChar(d)) == d
  {
  }

  lemma {:induction false} DigitsValue(n: Word)
    ensures forall c | c in Digits(n) :: IsDigit(c)
    ensures Value(Digits(n), 0) == n
  {
    DigitCharValue(n % 10);
    if n >= 10 {
      DigitsValue(n / 10);
      ValueAppend(Digits(n / 10), DigitChar(n % 10), 0);
      hide Value;
    } else {
      assert [DigitChar(n)][1..] == [];
    }
  }

  function Power10(k: nat): nat {
    if k == 0 then 1 else 10 * Power10(k - 1)
  }

  lemma {:induction false} DigitsLength(n: nat, k: nat)
    requires k > 0 && n < Power10(k)
    ensures |Digits(n)| <= k
  {
    if n >= 10 {
      DigitsLength(n / 10, k - 1);
    }
  }

  /** snprintf at the end of a buffer of `size` characters with the final null: what does not fit is cut off. */
  method Snprintf(buf: string, size: nat, text: string) returns (r: string)
    requires |buf| < size
    ensures r <= buf + text && |r| < size
    ensures r == buf + text <==> |buf| + |text| < size
    ensures |buf| + |text| >= size ==> |r| == size - 1
  {
    var room := size - 1 - |buf|;
    r := buf + if |text| <= room then text else text[..room];
  }
}
