/**
 Checks that run an accumulator over the digits of a number from right to left,
 for any step function, and what the step must do for errors to be detected.
 */
module DigitFold {

  type Digit = d: int | 0 <= d < 10

  type Stepper = (Digit, nat, Digit) -> Digit

  /** The accumulator after the n rightmost digits. */
  function Fold(step: Stepper, ds: seq<Digit>, n: nat): Digit
    requires n <= |ds|
  {
    if n == 0 then 0 else step(Fold(step, ds, n - 1), n - 1, ds[|ds| - n])
  }

  // What a step must do for errors to be seen: keep different accumulators apart,
  // tell digits apart, and tell the order of two digits.

  ghost predicate KeepsApart(step: Stepper) {
    forall c: Digit, c': Digit, i: nat, d: Digit | c != c' :: step(c, i, d) != step(c', i, d)
  }

  ghost predicate TellsDigits(step: Stepper) {
    forall c: Digit, i: nat, a: Digit, b: Digit | a != b :: step(c, i, a) != step(c, i, b)
  }

  ghost predicate TellsOrder(step: Stepper) {
    forall c: Digit, i: nat, a: Digit, b: Digit | a != b ::
      step(step(c, i, a), i + 1, b) != step(step(c, i, b), i + 1, a)
  }

  /** The digits from position m to position n, counted from the right, agree. */
  ghost predicate Agree(ds: seq<Digit>, es: seq<Digit>, m: nat, n: nat) {
    |ds| == |es| && m <= n <= |ds| && forall i | |ds| - n <= i < |ds| - m :: ds[i] == es[i]
  }

  /** The accumulator looks at the rightmost digits only. */
  lemma {:induction false} FoldSame(step: Stepper, ds: seq<Digit>, es: seq<Digit>, n: nat)
    requires Agree(ds, es, 0, n)
    ensures Fold(step, ds, n) == Fold(step, es, n)
  {
    if n > 0 {
      FoldSame(step, ds, es, n - 1);
    }
  }

  /** Once two accumulators differ, equal digits to the left keep them apart. */
  lemma {:induction false} DifferenceStays(step: Stepper, ds: seq<Digit>, es: seq<Digit>, m: nat, n: nat)
    requires KeepsApart(step) && Agree(ds, es, m, n)
    requires Fold(step, ds, m) != Fold(step, es, m)
    ensures Fold(step, ds, n) != Fold(step, es, n)
  {
    if m < n {
      DifferenceStays(step, ds, es, m, n - 1);
    }
  }

  lemma {:induction false} ChangeDetected(step: Stepper, ds: seq<Digit>, i: nat, d: Digit)
    requires KeepsApart(step) && TellsDigits(step) && i < |ds| && d != ds[i]
    ensures Fold(step, ds[i := d], |ds|) != Fold(step, ds, |ds|)
  {
    var es, n := ds[i := d], |ds| - i;
    FoldSame(step, ds, es, n - 1);
    DifferenceStays(step, ds, es, n, |ds|);
  }

  lemma {:induction false} ExchangeDetected(step: Stepper, ds: seq<Digit>, i: nat)
    requires KeepsApart(step) && TellsOrder(step) && i + 1 < |ds| && ds[i] != ds[i + 1]
    ensures Fold(step, ds[i := ds[i + 1]][i + 1 := ds[i]], |ds|) != Fold(step, ds, |ds|)
  {
    var es, n := ds[i := ds[i + 1]][i + 1 := ds[i]], |ds| - i;
    FoldSame(step, ds, es, n - 2);
    var c := Fold(step, ds, n - 2);
    assert Fold(step, ds, n - 1) == step(c, n - 2, ds[i + 1]) && Fold(step, es, n - 1) == step(c, n - 2, ds[i]);
    DifferenceStays(step, ds, es, n, |ds|);
  }

  /** Steps that do the same give the same accumulator. */
  lemma {:induction false} FoldsAgree(step: Stepper, other: Stepper, ds: seq<Digit>, n: nat)
    requires n <= |ds| && forall c: Digit, i: nat, d: Digit :: step(c, i, d) == other(c, i, d)
    ensures Fold(step, ds, n) == Fold(other, ds, n)
  {
    if n > 0 {
      FoldsAgree(step, other, ds, n - 1);
    }
  }

  /** For a step that multiplies from the right, and takes the last digit as it is, the
      last digit is the first factor. */
  lemma {:induction false} LastDigitFirst(
      step: Stepper, times: (Digit, Digit) -> Digit, payload: seq<Digit>, c: Digit, n: nat)
    requires 1 <= n <= |payload| + 1
    requires forall a: Digit, b: Digit, i: nat, d: Digit :: step(times(a, b), i, d) == times(a, step(b, i, d))
    requires step(0, 0, c) == times(c, step(0, 0, 0))
    ensures Fold(step, payload + [c], n) == times(c, Fold(step, payload + [0], n))
  {
    var ds, zs := payload + [c], payload + [0];
    if n > 1 {
      LastDigitFirst(step, times, payload, c, n - 1);
      assert ds[|ds| - n] == zs[|zs| - n];
    } else {
      assert Fold(step, ds, 0) == 0 && Fold(step, zs, 0) == 0;
    }
  }
}
