/** Positional notation: numerals of any length, fixed-width words, and the values they denote. */
module Numerals {
  import opened Base

  type Radix = b: nat | b >= 2 witness 2
  type Digits = seq<nat>

  predicate InBase(base: Radix, ds: Digits) {
    forall i | 0 <= i < |ds| :: ds[i] < base
  }

  /** One more digit at the low end, and taking it off again. */
  function Shift(base: Radix, high: nat, low: nat): nat {
    high * base + low
  }

  function High(base: Radix, n: nat): (high: nat)
    ensures high <= n && (n > 0 ==> high < n)
  {
    QuotientShrinks(n, base);
    n / base
  }

  function Low(base: Radix, n: nat): (low: nat)
    ensures low < base
  {
    n % base
  }

  lemma QuotientShrinks(n: nat, base: Radix)
    ensures 0 <= n / base <= n && (n > 0 ==> n / base < n)
  {
    var q := n / base;
    assert q * base <= n;
    assert q * 2 <= q * base;
  }

  lemma ShiftOf(base: Radix, n: nat)
    ensures Shift(base, High(base, n), Low(base, n)) == n
  {
  }

  lemma Distribute(x: nat, y: nat, c: nat)
    ensures (x + y) * c == x * c + y * c
  {
  }

  lemma Product(x: nat, c: nat)
    ensures 0 <= x * c
  {
  }

  lemma Apart(a: nat, b: nat, c: nat)
    requires a < b
    ensures a * c + c <= b * c
  {
    Distribute(a, b - a, c);
    Distribute(1, b - a - 1, c);
    Product(b - a - 1, c);
  }

  lemma Cancel(a: nat, b: nat, c: nat)
    ensures a < b ==> a * c + c <= b * c
    ensures a * c < b * c + c ==> a <= b
  {
    if a < b { Apart(a, b, c); } else if b < a { Apart(b, a, c); }
  }

  lemma OfShift(base: Radix, high: nat, low: nat)
    requires low < base
    ensures High(base, Shift(base, high, low)) == high && Low(base, Shift(base, high, low)) == low
  {
    var n := Shift(base, high, low);
    ShiftOf(base, n);
    Cancel(n / base, high, base);
    Cancel(high, n / base, base);
  }

  lemma ShiftGrows(base: Radix, high: nat, low: nat, bound: nat)
    requires low < base
    ensures high < bound <==> Shift(base, high, low) < Shift(base, bound, 0)
  {
    Cancel(high, bound, base);
    Cancel(bound, high, base);
  }

  /** The value of digits written most significant first. */
  function Value(base: Radix, ds: Digits): nat {
    if ds == [] then 0 else Shift(base, Value(base, ds[..|ds| - 1]), ds[|ds| - 1])
  }

  /** The shortest way to write `n`; zero is one digit. */
  function Numeral(base: Radix, n: nat): Digits {
    if n < base then [n] else Numeral(base, High(base, n)) + [Low(base, n)]
  }

  /** The lowest `width` digits of `n`, most significant first. */
  function Word(base: Radix, width: nat, n: nat): (ds: Digits)
    ensures |ds| == width && InBase(base, ds)
  {
    if width == 0 then [] else Word(base, width - 1, High(base, n)) + [Low(base, n)]
  }

  function Pow(base: Radix, k: nat): nat {
    if k == 0 then 1 else Shift(base, Pow(base, k - 1), 0)
  }

  lemma NonZeroHigh(base: Radix, n: nat)
    requires n >= base
    ensures High(base, n) > 0
  {
    ShiftOf(base, n);
  }

  lemma {:induction false} NumeralDenotes(base: Radix, n: nat)
    ensures Value(base, Numeral(base, n)) == n && InBase(base, Numeral(base, n))
    ensures Numeral(base, n) != [] && (n > 0 ==> Numeral(base, n)[0] > 0)
  {
    hide Shift, High, Low;
    var ds := Numeral(base, n);
    if n >= base {
      NumeralDenotes(base, High(base, n));
      NonZeroHigh(base, n);
      ShiftOf(base, n);
      assert ds[..|ds| - 1] == Numeral(base, High(base, n));
    } else {
      SingleDigit(base, n);
    }
  }

  lemma SingleDigit(base: Radix, n: nat)
    ensures Value(base, [n]) == n
  {
    assert [n][..0] == [];
  }

  lemma {:induction false} ValueBound(base: Radix, ds: Digits)
    requires InBase(base, ds)
    ensures Value(base, ds) < Pow(base, |ds|)
  {
    hide Shift;
    if ds != [] {
      var most := ds[..|ds| - 1];
      ValueBound(base, most);
      ShiftGrows(base, Value(base, most), ds[|ds| - 1], Pow(base, |most|));
    }
  }

  /** A word keeps the value of every number that fits. */
  lemma {:induction false} WordDenotes(base: Radix, width: nat, n: nat)
    requires n < Pow(base, width)
    ensures Value(base, Word(base, width, n)) == n
  {
    hide Shift, High, Low;
    if width > 0 {
      ShiftOf(base, n);
      ShiftGrows(base, High(base, n), Low(base, n), Pow(base, width - 1));
      WordDenotes(base, width - 1, High(base, n));
      var ds := Word(base, width, n);
      assert ds[..width - 1] == Word(base, width - 1, High(base, n));
    }
  }

  /** Every word is the word of its value. */
  lemma {:induction false} WordOfValue(base: Radix, ds: Digits)
    requires InBase(base, ds)
    ensures Word(base, |ds|, Value(base, ds)) == ds
  {
    hide Shift, High, Low;
    if ds != [] {
      var most, low := ds[..|ds| - 1], ds[|ds| - 1];
      OfShift(base, Value(base, most), low);
      WordOfValue(base, most);
    }
  }

  /** Digits that are not merely zeros in front: what `Numeral` writes, and nothing else is. */
  predicate Shortest(ds: Digits) {
    ds != [] && (ds[0] > 0 || |ds| == 1)
  }

  lemma ShiftFromZero(base: Radix, high: nat, low: nat)
    ensures (high == 0 ==> Shift(base, high, low) == low) && (high > 0 ==> Shift(base, high, low) >= base)
  {
    assert high > 0 ==> (high - 1) * base >= 0;
  }

  lemma {:induction false} NumeralOfValue(base: Radix, ds: Digits)
    requires InBase(base, ds) && Shortest(ds)
    ensures Numeral(base, Value(base, ds)) == ds && (ds[0] > 0 ==> Value(base, ds) > 0)
  {
    hide Shift, High, Low;
    var most, low := ds[..|ds| - 1], ds[|ds| - 1];
    ShiftFromZero(base, Value(base, most), low);
    if most != [] {
      NumeralOfValue(base, most);
      OfShift(base, Value(base, most), low);
    }
  }

  /** Eight base-256 digits are exactly the 64-bit numbers. */
  lemma WordsOf64Bits()
    ensures Pow(256, 8) == U64_MAX + 1
  {
    assert Pow(256, 4) == 0x1_0000_0000;
  }
}
