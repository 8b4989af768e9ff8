/**
 The Verhoeff check (internal/scan/custom.go): an accumulator over the dihedral
 group table, with a position-dependent permutation of the digits.
 */
module Verhoeff {
  import opened DigitFold

  function D(): seq<seq<int>> { [
    [0, 1, 2, 3, 4, 5, 6, 7, 8, 9],
    [1, 2, 3, 4, 0, 6, 7, 8, 9, 5],
    [2, 3, 4, 0, 1, 7, 8, 9, 5, 6],
    [3, 4, 0, 1, 2, 8, 9, 5, 6, 7],
    [4, 0, 1, 2, 3, 9, 5, 6, 7, 8],
    [5, 9, 8, 7, 6, 0, 4, 3, 2, 1],
    [6, 5, 9, 8, 7, 1, 0, 4, 3, 2],
    [7, 6, 5, 9, 8, 2, 1, 0, 4, 3],
    [8, 7, 6, 5, 9, 3, 2, 1, 0, 4],
    [9, 8, 7, 6, 5, 4, 3, 2, 1, 0]
  ] }

  function P(): seq<seq<int>> { [
    [0, 1, 2, 3, 4, 5, 6, 7, 8, 9],
    [1, 5, 7, 6, 2, 8, 3, 0, 9, 4],
    [5, 8, 0, 3, 7, 9, 6, 1, 4, 2],
    [8, 9, 1, 6, 0, 4, 3, 5, 2, 7],
    [9, 4, 5, 3, 1, 2, 6, 8, 7, 0],
    [4, 2, 8, 6, 5, 7, 3, 9, 0, 1],
    [2, 7, 9, 3, 8, 0, 6, 4, 1, 5],
    [7, 0, 4, 6, 9, 1, 3, 2, 5, 8]
  ] }

  function Mod5(x: int): int
    requires -5 < x < 15
  {
    if x < 0 then x + 5 else if x < 5 then x else if x < 10 then x - 5 else x - 10
  }

  /** The group of the pentagon: rotations 0-4, reflections 5-9. */
  function Compose(a: Digit, b: Digit): Digit {
    if a < 5 then
      if b < 5 then Mod5(a + b) else 5 + Mod5(a + b)
    else
      if b < 5 then 5 + Mod5(a - b) else Mod5(a - b)
  }

  lemma {:induction false} TableIsGroup(a: Digit, b: Digit)
    ensures D()[a][b] == Compose(a, b)
  {
    if a == 0 { } else if a == 1 { } else if a == 2 { } else if a == 3 { } else if a == 4 { }
    else if a == 5 { } else if a == 6 { } else if a == 7 { } else if a == 8 { } else { }
  }

  lemma ComposeAssociative(a: Digit, b: Digit, c: Digit)
    ensures Compose(Compose(a, b), c) == Compose(a, Compose(b, c))
  {
  }

  lemma ComposeInjective(a: Digit, b: Digit, c: Digit)
    ensures Compose(a, b) == Compose(a, c) ==> b == c
    ensures Compose(b, a) == Compose(c, a) ==> b == c
  {
  }

  lemma {:induction false} PermutationInjective(i: nat, a: Digit, b: Digit)
    requires i < 8
    ensures 0 <= P()[i][a] < 10 && (P()[i][a] == P()[i][b] ==> a == b)
  {
    if i < 4 { LowRowInjective(i, a, b); } else { HighRowInjective(i, a, b); }
  }

  lemma {:induction false} LowRowInjective(i: nat, a: Digit, b: Digit)
    requires i < 4
    ensures 0 <= P()[i][a] < 10 && (P()[i][a] == P()[i][b] ==> a == b)
  {
    if i == 0 { } else if i == 1 { } else if i == 2 { } else { }
  }

  lemma {:induction false} HighRowInjective(i: nat, a: Digit, b: Digit)
    requires 4 <= i < 8
    ensures 0 <= P()[i][a] < 10 && (P()[i][a] == P()[i][b] ==> a == b)
  {
    if i == 4 { } else if i == 5 { } else if i == 6 { } else { }
  }

  lemma {:induction false} PermutationStep(i: nat, a: Digit)
    requires i < 8
    ensures 0 <= P()[i][a] < 10 && P()[(i + 1) % 8][a] == P()[1][P()[i][a]]
  {
    if i == 0 { } else if i == 1 { } else if i == 2 { } else if i == 3 { } else if i == 4 { }
    else if i == 5 { } else if i == 6 { } else { }
  }

  lemma {:induction false} SwapChanges(x: Digit, y: Digit)
    requires x != y
    ensures 0 <= P()[1][x] < 10 && 0 <= P()[1][y] < 10
    ensures Compose(x, P()[1][y]) != Compose(y, P()[1][x])
  {
    if x == 0 { } else if x == 1 { } else if x == 2 { } else if x == 3 { } else if x == 4 { }
    else if x == 5 { } else if x == 6 { } else if x == 7 { } else if x == 8 { } else { }
  }

  // ------------------------------------------------------------- the check

  /** The digits of the text; blanks and dashes are skipped, anything else is an error. */
  datatype Parsed = NotDigits | Digits(ds: seq<Digit>)

  predicate IsDigit(c: char) { '0' <= c <= '9' }

  predicate IsSeparator(c: char) { c == ' ' || c == '-' }

  function ValueOf(c: char): Digit
    requires IsDigit(c)
  {
    c as int - '0' as int
  }

  function Parse(s: string): Parsed {
    if s == "" then Digits([])
    else
      var init := Parse(s[..|s| - 1]);
      var c := s[|s| - 1];
      if init.NotDigits? || !(IsDigit(c) || IsSeparator(c)) then NotDigits
      else if IsDigit(c) then Digits(init.ds + [ValueOf(c)])
      else init
  }

  /** How the accumulator takes the digit d at position i from the right. */
  function Step(c: Digit, i: nat, d: Digit): Digit {
    PermutationInjective(i % 8, d, d);
    Compose(c, P()[i % 8][d])
  }

  predicate Valid(ds: seq<Digit>) {
    |ds| >= 2 && Fold(Step, ds, |ds|) == 0
  }

  method VerhoeffValid(s: string) returns (ok: bool)
    ensures ok <==> Accepts(s)
  {
    var digits: seq<Digit> := [];
    for i := 0 to |s|
      invariant Parse(s[..i]) == Digits(digits)
    {
      var c := s[i];
      assert s[..i + 1][..i] == s[..i];
      if IsDigit(c) {
        digits := digits + [ValueOf(c)];
      } else if !IsSeparator(c) {
        ErrorsStay(s, i + 1);
        return false;
      }
    }
    assert s[..|s|] == s;
    if |digits| < 2 {
      return false;
    }
    var c := Checksum(digits);
    ok := c == 0;
  }

  /** The loop starts from the last digit, which is the check digit. */
  method Checksum(digits: seq<Digit>) returns (c: Digit)
    ensures c == Fold(Step, digits, |digits|)
  {
    c := 0;
    var n := |digits|;
    for i := 0 to n
      invariant c == Fold(Step, digits, i)
    {
      c := Lookup(c, i, digits);
    }
  }

  /** The two table accesses of the loop. */
  method Lookup(c: Digit, i: nat, digits: seq<Digit>) returns (r: Digit)
    requires i < |digits| && c == Fold(Step, digits, i)
    ensures r == Fold(Step, digits, i + 1)
  {
    var d := digits[|digits| - i - 1];
    PermutationInjective(i % 8, d, d);
    TableIsGroup(c, P()[i % 8][d]);
    r := D()[c][P()[i % 8][d]];
    assert r == Step(c, i, d);
  }

  lemma {:induction false} ErrorsStay(s: string, i: nat)
    requires i <= |s| && Parse(s[..i]).NotDigits?
    ensures Parse(s).NotDigits?
    decreases |s|
  {
    if i < |s| {
      assert s[..|s| - 1][..i] == s[..i];
      ErrorsStay(s[..|s| - 1], i);
    } else {
      assert s[..i] == s;
    }
  }

  // What the accumulator is: the digit at position i from the right goes i times through
  // the first permutation, so the check digit, at position 0, is taken as it is.

  function Permuted(i: nat, d: Digit): Digit {
    if i == 0 then d else
      var e := Permuted(i - 1, d);
      PermutationInjective(1, e, e);
      P()[1][e]
  }

  lemma {:induction false} RowIsPower(i: nat, d: Digit)
    ensures P()[i % 8][d] == Permuted(i, d)
  {
    if i > 0 {
      RowIsPower(i - 1, d);
      NextRow(i - 1, d);
    } else {
      FirstRow(d);
    }
  }

  lemma {:induction false} NextRow(i: nat, d: Digit)
    ensures 0 <= P()[i % 8][d] < 10 && P()[(i + 1) % 8][d] == P()[1][P()[i % 8][d]]
  {
    PermutationStep(i % 8, d);
    assert (i + 1) % 8 == (i % 8 + 1) % 8;
  }

  lemma FirstRow(d: Digit)
    ensures P()[0][d] == d
  {
  }

  function PermutedStep(c: Digit, i: nat, d: Digit): Digit {
    Compose(c, Permuted(i, d))
  }

  /** The product, in the group of the pentagon, of the digits so permuted, from the right. */
  function Product(ds: seq<Digit>): Digit {
    Fold(PermutedStep, ds, |ds|)
  }

  lemma {:induction false} FoldIsProduct(ds: seq<Digit>)
    ensures Fold(Step, ds, |ds|) == Product(ds)
  {
    forall c: Digit, i: nat, d: Digit ensures Step(c, i, d) == PermutedStep(c, i, d) {
      RowIsPower(i, d);
    }
    FoldsAgree(Step, PermutedStep, ds, |ds|);
  }

  function Inverse(a: Digit): Digit {
    if a == 0 || a > 4 then a else 5 - a
  }

  lemma InverseIs(a: Digit, b: Digit)
    ensures Compose(a, b) == 0 <==> a == Inverse(b)
  {
  }

  /** The check digit comes first in the product. */
  lemma {:induction false} CheckDigitFirst(payload: seq<Digit>, c: Digit)
    ensures Product(payload + [c]) == Compose(c, Product(payload + [0]))
  {
    forall a: Digit, b: Digit, i: nat, d: Digit
      ensures PermutedStep(Compose(a, b), i, d) == Compose(a, PermutedStep(b, i, d))
    {
      ComposeAssociative(a, b, Permuted(i, d));
    }
    assert PermutedStep(0, 0, c) == Compose(c, PermutedStep(0, 0, 0));
    LastDigitFirst(PermutedStep, Compose, payload, c, |payload| + 1);
  }

  /** Every payload has one check digit, and no other is accepted. */
  lemma {:induction false} CheckDigitUnique(payload: seq<Digit>, c: Digit)
    requires payload != []
    ensures Valid(payload + [c]) <==> c == Inverse(Product(payload + [0]))
  {
    FoldIsProduct(payload + [c]);
    CheckDigitFirst(payload, c);
    InverseIs(c, Product(payload + [0]));
  }

  /** A published example: the check digit of 236 is 3. */
  lemma {:induction false} KnownNumberAccepted(c: Digit)
    ensures Valid([2, 3, 6] + [c]) <==> c == 3
  {
    var ds: seq<Digit> := [2, 3, 6] + [0];
    assert Fold(PermutedStep, ds, 1) == 0;
    assert Permuted(0, 6) == 6 && Permuted(1, 6) == 3 && Fold(PermutedStep, ds, 2) == 3;
    assert Permuted(0, 3) == 3 && Permuted(1, 3) == 6 && Permuted(2, 3) == 3 && Fold(PermutedStep, ds, 3) == 1;
    assert Permuted(0, 2) == 2 && Permuted(1, 2) == 7 && Permuted(2, 2) == 0 && Permuted(3, 2) == 1;
    assert Fold(PermutedStep, ds, 4) == 2;
    CheckDigitUnique([2, 3, 6], c);
  }

  // ------------------------------------------------------------- detection

  lemma {:induction false} StepDetects()
    ensures KeepsApart(Step) && TellsDigits(Step) && TellsOrder(Step)
  {
    forall c: Digit, c': Digit, i: nat, d: Digit | c != c' ensures Step(c, i, d) != Step(c', i, d) {
      StepInjective(c, c', i, d);
    }
    forall c: Digit, i: nat, a: Digit, b: Digit | a != b ensures Step(c, i, a) != Step(c, i, b) {
      DigitChanges(c, i, a, b);
    }
    forall c: Digit, i: nat, a: Digit, b: Digit | a != b
      ensures Step(Step(c, i, a), i + 1, b) != Step(Step(c, i, b), i + 1, a)
    {
      StepsDoNotCommute(c, i, a, b);
    }
  }

  lemma {:induction false} StepsDoNotCommute(c: Digit, i: nat, a: Digit, b: Digit)
    requires a != b
    ensures Step(Step(c, i, a), i + 1, b) != Step(Step(c, i, b), i + 1, a)
  {
    assert (i + 1) % 8 == (i % 8 + 1) % 8;
    SwapDiffers(c, i % 8, a, b);
  }

  lemma {:induction false} StepInjective(c: Digit, c': Digit, i: nat, d: Digit)
    requires c != c'
    ensures Step(c, i, d) != Step(c', i, d)
  {
    PermutationInjective(i % 8, d, d);
    ComposeInjective(P()[i % 8][d], c, c');
  }

  lemma {:induction false} DigitChanges(c: Digit, i: nat, a: Digit, b: Digit)
    requires a != b
    ensures Step(c, i, a) != Step(c, i, b)
  {
    PermutationInjective(i % 8, a, b);
    PermutationInjective(i % 8, b, a);
    ComposeInjective(c, P()[i % 8][a], P()[i % 8][b]);
  }

  lemma {:induction false} SwapDiffers(c: Digit, p: nat, a: Digit, b: Digit)
    requires p < 8 && a != b
    ensures 0 <= P()[p][a] < 10 && 0 <= P()[p][b] < 10
    ensures 0 <= P()[(p + 1) % 8][a] < 10 && 0 <= P()[(p + 1) % 8][b] < 10
    ensures Compose(Compose(c, P()[p][a]), P()[(p + 1) % 8][b]) != Compose(Compose(c, P()[p][b]), P()[(p + 1) % 8][a])
  {
    PermutationInjective(p, a, b);
    PermutationInjective(p, b, a);
    PermutationStep(p, a);
    PermutationStep(p, b);
    var x, y := P()[p][a], P()[p][b];
    SwapChanges(x, y);
    ComposeAssociative(c, x, P()[1][y]);
    ComposeAssociative(c, y, P()[1][x]);
    ComposeInjective(c, Compose(x, P()[1][y]), Compose(y, P()[1][x]));
  }

  /** Changing any one digit of a valid number is detected, at every length. */
  lemma {:induction false} SingleChangeDetected(ds: seq<Digit>, i: nat, d: Digit)
    requires Valid(ds) && i < |ds| && d != ds[i]
    ensures !Valid(ds[i := d])
  {
    StepDetects();
    ChangeDetected(Step, ds, i, d);
  }

  /** Swapping any two unequal neighbours is detected, at every position, across
      the wrap of the position modulo 8 included. */
  lemma {:induction false} SwapDetected(ds: seq<Digit>, i: nat)
    requires Valid(ds) && i + 1 < |ds| && ds[i] != ds[i + 1]
    ensures !Valid(ds[i := ds[i + 1]][i + 1 := ds[i]])
  {
    StepDetects();
    ExchangeDetected(Step, ds, i);
  }

  // ------------------------------------------------- the same on the text

  predicate Accepts(s: string) {
    Parse(s).Digits? && Valid(Parse(s).ds)
  }

  /** How many digits precede the character i. */
  function DigitsBefore(s: string, i: nat): nat
    requires i <= |s| && Parse(s[..i]).Digits?
  {
    |Parse(s[..i]).ds|
  }

  /** Replacing one digit character replaces one digit. */
  lemma {:induction false} ParseChanged(s: string, i: nat, c: char)
    requires i < |s| && IsDigit(s[i]) && IsDigit(c) && Parse(s).Digits?
    ensures Parse(s[..i]).Digits?
    ensures var k := DigitsBefore(s, i);
            k < |Parse(s).ds| && Parse(s).ds[k] == ValueOf(s[i]) &&
            Parse(s[i := c]) == Digits(Parse(s).ds[k := ValueOf(c)])
    decreases |s|
  {
    var n := |s| - 1;
    var init := s[..n];
    if i == n {
      assert s[i := c][..n] == init;
    } else {
      assert init[..i] == s[..i] && s[i := c][..n] == init[i := c];
      ParseChanged(init, i, c);
    }
  }

  /** A text with one digit mistyped is rejected. */
  lemma {:induction false} MistypedDigitRejected(s: string, i: nat, c: char)
    requires Accepts(s) && i < |s| && IsDigit(s[i]) && IsDigit(c) && c != s[i]
    ensures !Accepts(s[i := c])
  {
    ParseChanged(s, i, c);
    SingleChangeDetected(Parse(s).ds, DigitsBefore(s, i), ValueOf(c));
  }

  /** Separators do not count. */
  lemma {:induction false} NextDigit(s: string, i: nat, j: nat)
    requires i < j <= |s| && IsDigit(s[i]) && Parse(s[..i]).Digits?
    requires forall m | i < m < j :: IsSeparator(s[m])
    ensures Parse(s[..j]).Digits? && DigitsBefore(s, j) == DigitsBefore(s, i) + 1
    decreases j
  {
    assert s[..j][..j - 1] == s[..j - 1];
    if j > i + 1 {
      NextDigit(s, i, j - 1);
    }
  }

  /** Two neighbouring digits exchanged, with at most separators between them. */
  lemma {:induction false} ExchangedDigitsRejected(s: string, i: nat, j: nat)
    requires Accepts(s) && i < j < |s| && IsDigit(s[i]) && IsDigit(s[j]) && s[i] != s[j]
    requires forall m | i < m < j :: IsSeparator(s[m])
    ensures !Accepts(s[i := s[j]][j := s[i]])
  {
    var t := s[i := s[j]];
    ParseChanged(s, i, s[j]);
    ParseChanged(s, j, s[i]);
    NextDigit(s, i, j);
    ParseChanged(t, j, s[i]);
    assert t[..i] == s[..i];
    NextDigit(t, i, j);
    var k := DigitsBefore(s, i);
    SwapDetected(Parse(s).ds, k);
  }
}
