/** Integers in decimal, as string interpolation writes them, and a reader for them. */
module Decimals {

  function Digit(n: nat): (c: char)
    requires n < 10
    ensures '0' <= c <= '9'
  {
    '0' + n as char
  }

  function PrintNat(n: nat): (s: string)
    ensures s != "" && '0' <= s[0] <= '9'
  {
    if n < 10 then [Digit(n)] else PrintNat(n / 10) + [Digit(n % 10)]
  }

  function PrintInt(n: int): string {
    if n < 0 then "-" + PrintNat(-n) else PrintNat(n)
  }

  predicate StartsWithDigit(s: string) {
    s != "" && '0' <= s[0] <= '9'
  }

  /** Reads digits for as long as there are any. */
  function ReadNat(s: string, value: nat): (r: (nat, string))
    ensures |r.1| <= |s|
  {
    if StartsWithDigit(s) then ReadNat(s[1..], 10 * value + (s[0] - '0') as nat) else (value, s)
  }

  function ReadInt(s: string): (r: (int, string))
    ensures |r.1| <= |s|
  {
    var negative := s != "" && s[0] == '-';
    var r := ReadNat(if negative then s[1..] else s, 0);
    var value: int := r.0;
    (if negative then -value else value, r.1)
  }

  lemma {:induction false} ReadNatPrinted(n: nat, rest: string)
    ensures ReadNat(PrintNat(n) + rest, 0) == ReadNat(rest, n)
    decreases n
  {
    var last := [Digit(n % 10)];
    assert (last + rest)[1..] == rest;
    if n < 10 {
      assert PrintNat(n) == last;
    } else {
      ReadNatPrinted(n / 10, last + rest);
      assert PrintNat(n) + rest == PrintNat(n / 10) + (last + rest);
    }
  }

  lemma ReadIntPrinted(n: int, rest: string)
    requires !StartsWithDigit(rest)
    ensures ReadInt(PrintInt(n) + rest) == (n, rest)
  {
    if n < 0 {
      assert (PrintInt(n) + rest)[1..] == PrintNat(-n) + rest;
      ReadNatPrinted(-n, rest);
    } else {
      ReadNatPrinted(n, rest);
    }
  }
}
