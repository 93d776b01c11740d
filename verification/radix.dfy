/**
 * Big natural numbers written as big-endian digit sequences in a given base.
 * Base 256 gives byte strings, base 58 gives Base58 text.
 */
module Radix {

  /** Every element of `ds` is a digit of `base`. */
  predicate IsDigits(ds: seq<nat>, base: nat) {
    forall i :: 0 <= i < |ds| ==> ds[i] < base
  }

  /** No leading zero digit: the shortest spelling of a number. */
  predicate Minimal(ds: seq<nat>) {
    |ds| == 0 || ds[0] != 0
  }

  /** The number that the big-endian digits `ds` spell in `base`. */
  function FromDigits(ds: seq<nat>, base: nat): nat
    decreases |ds|
  {
    if |ds| == 0 then 0 else FromDigits(ds[..|ds| - 1], base) * base + ds[|ds| - 1]
  }

  /** The shortest big-endian spelling of `n` in `base` (empty for zero). */
  function ToDigits(n: nat, base: nat): (ds: seq<nat>)
    requires base >= 2
    ensures IsDigits(ds, base)
    ensures Minimal(ds)
    ensures FromDigits(ds, base) == n
    decreases n
  {
    if n == 0 then [] else
      var prefix := ToDigits(n / base, base);
      assert (prefix + [n % base])[..|prefix|] == prefix;
      prefix + [n % base]
  }

  /** A spelling with a non-zero leading digit denotes a positive number. */
  lemma {:induction false} LeadingDigitBound(ds: seq<nat>, base: nat)
    requires base >= 1
    requires |ds| > 0
    ensures FromDigits(ds, base) >= ds[0]
    decreases |ds|
  {
    if |ds| > 1 {
      var prefix := ds[..|ds| - 1];
      LeadingDigitBound(prefix, base);
      assert prefix[0] == ds[0];
    }
  }

  /** Dividing `q * base + d` by `base` recovers `q` and the digit `d`. */
  lemma DivModOfDigitAppend(q: nat, d: nat, base: nat)
    requires d < base
    ensures (q * base + d) / base == q
    ensures (q * base + d) % base == d
  {
    var n := q * base + d;
    var q', d' := n / base, n % base;
    assert q' * base + d' == n;
    if q' < q {
      MulStep(q', q, base);
    } else if q < q' {
      MulStep(q, q', base);
    }
  }

  /** For `a < b`, the multiples `a * c` and `b * c` are at least `c` apart. */
  lemma MulStep(a: nat, b: nat, c: nat)
    requires a < b
    ensures a * c + c <= b * c
  {
    var k := b - a - 1;
    assert b * c == a * c + c + k * c;
  }

  /** Reading a minimal spelling back and respelling it gives the same digits. */
  lemma {:induction false} ToDigitsFromDigits(ds: seq<nat>, base: nat)
    requires base >= 2
    requires IsDigits(ds, base)
    requires Minimal(ds)
    ensures ToDigits(FromDigits(ds, base), base) == ds
    decreases |ds|
  {
    if |ds| > 0 {
      var prefix := ds[..|ds| - 1];
      var d := ds[|ds| - 1];
      var n := FromDigits(ds, base);
      LeadingDigitBound(ds, base);
      DivModOfDigitAppend(FromDigits(prefix, base), d, base);
      ToDigitsFromDigits(prefix, base);
      assert ds == prefix + [d];
    }
  }
}
