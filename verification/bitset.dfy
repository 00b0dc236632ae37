/**
 A model of the fixed-width `bitset<12>` the decoder uses to collect the rows
 punched in one column, together with its `to_ulong` conversion.

 A bit set of width `w` is a sequence of `w` booleans; element `i` is bit `i`,
 which weighs `2^i` in the numeric value.
 */
module Bitset {

  /** Number of bits of every bit set in this program (`bitset<12>`). */
  const Width: nat := 12

  function Pow2(i: nat): (r: nat)
    ensures r >= 1
  {
    if i == 0 then 1 else 2 * Pow2(i - 1)
  }

  /** `2^i` for every bit position of a `bitset<12>`, written out. */
  const Weights: seq<nat> := [1, 2, 4, 8, 16, 32, 64, 128, 256, 512, 1024, 2048]

  lemma {:induction false} WeightIsPow2(i: nat)
    requires i < |Weights|
    ensures Weights[i] == Pow2(i)
  {
    if i > 0 {
      WeightIsPow2(i - 1);
      assert Weights[i] == 2 * Weights[i - 1];
    }
  }

  lemma {:induction false} Pow2Increasing(i: nat, j: nat)
    requires i < j
    ensures Pow2(i) < Pow2(j)
    decreases j
  {
    if i + 1 < j {
      Pow2Increasing(i, j - 1);
    }
  }

  /** Bit weights grow strictly with the position, so they are distinct. */
  lemma WeightsIncreasing(i: nat, j: nat)
    requires i < j < |Weights|
    ensures Weights[i] < Weights[j]
  {
    WeightIsPow2(i);
    WeightIsPow2(j);
    Pow2Increasing(i, j);
  }

  /** Moving three positions up multiplies a weight by 8. */
  lemma WeightShift(r: nat)
    requires 3 <= r < |Weights|
    ensures Weights[r] == 8 * Weights[r - 3]
  {
    WeightIsPow2(r);
    WeightIsPow2(r - 3);
    assert Pow2(r) == 2 * Pow2(r - 1) == 4 * Pow2(r - 2);
  }

  /** `bitset::reset()`: every bit cleared. */
  function Reset(): (b: seq<bool>)
    ensures |b| == Width
    ensures forall i :: 0 <= i < |b| ==> !b[i]
  {
    seq(Width, _ => false)
  }

  /** `bitset::set(i)`: bit `i` set, the others unchanged. */
  function SetBit(b: seq<bool>, i: nat): (r: seq<bool>)
    requires i < |b|
    ensures |r| == |b| && r[i]
    ensures forall j :: 0 <= j < |b| && j != i ==> r[j] == b[j]
  {
    b[i := true]
  }

  /** `bitset::to_ulong()`: the number whose binary digit `i` is bit `i`. */
  function ToULong(b: seq<bool>): nat
  {
    if |b| == 0 then 0 else (if b[0] then 1 else 0) + 2 * ToULong(b[1..])
  }

  /** The `w` low binary digits of `n`, least significant first. */
  function ToBits(n: nat, w: nat): (b: seq<bool>)
    ensures |b| == w
  {
    if w == 0 then [] else [n % 2 == 1] + ToBits(n / 2, w - 1)
  }

  /** A value of a `w`-bit set fits in `w` bits: every `to_ulong` of a
      `bitset<12>` is below 4096. */
  lemma {:induction false} ToULongBound(b: seq<bool>)
    ensures ToULong(b) < Pow2(|b|)
    decreases |b|
  {
    if |b| > 0 {
      ToULongBound(b[1..]);
    }
  }

  /** Reading the bits back from the value gives the same bit set. */
  lemma {:induction false} ToBitsToULong(b: seq<bool>)
    ensures ToBits(ToULong(b), |b|) == b
    decreases |b|
  {
    if |b| > 0 {
      ToBitsToULong(b[1..]);
      var n := ToULong(b);
      assert n % 2 == 1 <==> b[0];
      assert n / 2 == ToULong(b[1..]);
    }
  }

  /** Every number that fits in `w` bits is the value of some `w`-bit set. */
  lemma {:induction false} ToULongToBits(n: nat, w: nat)
    requires n < Pow2(w)
    ensures ToULong(ToBits(n, w)) == n
    decreases w
  {
    if w > 0 {
      ToULongToBits(n / 2, w - 1);
      assert ToBits(n, w)[1..] == ToBits(n / 2, w - 1);
    }
  }

  /** Two bit sets of the same width with the same value are equal, so a
      column pattern is recovered exactly from its numeric key. */
  lemma ToULongInjective(a: seq<bool>, b: seq<bool>)
    requires |a| == |b| && ToULong(a) == ToULong(b)
    ensures a == b
  {
    ToBitsToULong(a);
    ToBitsToULong(b);
  }

  /** The cleared bit set has value 0. */
  lemma {:induction false} ToULongNone(b: seq<bool>)
    requires forall i :: 0 <= i < |b| ==> !b[i]
    ensures ToULong(b) == 0
    decreases |b|
  {
    if |b| > 0 {
      ToULongNone(b[1..]);
    }
  }

  /** Setting a clear bit `i` adds exactly `2^i` to the value. */
  lemma {:induction false} SetBitAdds(b: seq<bool>, i: nat)
    requires i < |b| && !b[i]
    ensures ToULong(SetBit(b, i)) == ToULong(b) + Pow2(i)
    decreases |b|
  {
    if i == 0 {
      assert SetBit(b, i)[1..] == b[1..];
    } else {
      assert SetBit(b, i)[1..] == SetBit(b[1..], i - 1);
      SetBitAdds(b[1..], i - 1);
    }
  }
}
