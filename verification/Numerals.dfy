/** Printed numbers: `f"{n:02x}"`, `f"{n:04d}"` and `int.__repr__`. */
module Numerals {

  function Max(a: nat, b: nat): nat { if a > b then a else b }

  datatype Base = Decimal | Hexadecimal

  function Size(b: Base): nat { if b.Decimal? then 10 else 16 }

  function Times(b: Base, n: nat): nat { if b.Decimal? then 10 * n else 16 * n }

  function Quotient(b: Base, n: nat): nat { if b.Decimal? then n / 10 else n / 16 }

  function Remainder(b: Base, n: nat): nat { if b.Decimal? then n % 10 else n % 16 }

  function DigitChar(d: nat): char
    requires d < 16
  {
    if d < 10 then ('0' as int + d) as char else ('a' as int + d - 10) as char
  }

  /** The value of a hexadecimal digit in either case, or 16. */
  function DigitValue(c: char): nat {
    if '0' <= c <= '9' then c as int - '0' as int
    else if 'a' <= c <= 'f' then c as int - 'a' as int + 10
    else if 'A' <= c <= 'F' then c as int - 'A' as int + 10
    else 16
  }

  predicate AllDigits(base: Base, s: string) { forall i | 0 <= i < |s| :: DigitValue(s[i]) < Size(base) }

  function ValueOf(base: Base, s: string): nat {
    if s == [] then 0 else Times(base, ValueOf(base, s[..|s| - 1])) + DigitValue(s[|s| - 1])
  }

  /** `n` in a base, without leading zeros. */
  function Numeral(base: Base, n: nat): (s: string)
    ensures |s| >= 1 && AllDigits(base, s)
  {
    if n < Size(base) then [DigitChar(n)] else Numeral(base, Quotient(base, n)) + [DigitChar(Remainder(base, n))]
  }

  function Padding(count: int): string { if count <= 0 then "" else ['0'] + Padding(count - 1) }

  /** `n` in a base, filled with zeros to a width. */
  function Padded(base: Base, width: nat, n: nat): string
  {
    Padding(width - |Numeral(base, n)|) + Numeral(base, n)
  }

  lemma {:induction false} ValueOfNumeral(base: Base, n: nat)
    ensures ValueOf(base, Numeral(base, n)) == n
  {
    var s := Numeral(base, n);
    if n < Size(base) {
      assert s[..0] == [];
    } else {
      ValueOfNumeral(base, Quotient(base, n));
      assert s[..|s| - 1] == Numeral(base, Quotient(base, n));
    }
  }

  lemma {:induction false} PaddingIsWorthless(base: Base, count: int, s: string)
    ensures ValueOf(base, Padding(count) + s) == ValueOf(base, s)
  {
    var padded := Padding(count) + s;
    if s != [] {
      PaddingIsWorthless(base, count, s[..|s| - 1]);
      assert padded[..|padded| - 1] == Padding(count) + s[..|s| - 1];
    } else if count > 0 {
      assert padded == Padding(count);
      PaddingIsZero(base, count);
    }
  }

  lemma {:induction false} PaddingIsZero(base: Base, count: int)
    ensures ValueOf(base, Padding(count)) == 0
    ensures forall i | 0 <= i < |Padding(count)| :: Padding(count)[i] == '0'
    ensures |Padding(count)| == if count <= 0 then 0 else count
    decreases count
  {
    if count > 0 {
      PaddingIsZero(base, count - 1);
      var s, t := Padding(count), Padding(count - 1);
      assert s[..|s| - 1] == t;
    }
  }

  /** A padded numeral of any width still names one number. */
  lemma PaddedIsInjective(base: Base, width: nat, m: nat, n: nat)
    requires Padded(base, width, m) == Padded(base, width, n)
    ensures m == n
  {
    hide Numeral, Padding, ValueOf;
    PaddingIsWorthless(base, width - |Numeral(base, m)|, Numeral(base, m));
    PaddingIsWorthless(base, width - |Numeral(base, n)|, Numeral(base, n));
    ValueOfNumeral(base, m);
    ValueOfNumeral(base, n);
  }
}
