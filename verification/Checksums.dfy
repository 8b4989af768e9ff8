/**
 The Luhn check (Annex B of ISO/IEC 7812-1) and the IBAN check (ISO/IEC 7064,
 MOD 97-10) of internal/scan/detect.go.
 */
module Checksums {

  type Digit = d: int | 0 <= d < 10

  predicate IsDigit(c: char) { '0' <= c <= '9' }

  predicate IsLetter(c: char) { 'A' <= c <= 'Z' }

  function DigitOf(c: char): Digit
    requires IsDigit(c)
  {
    c as int - '0' as int
  }

  // ------------------------------------------------------------------ Luhn

  /** The digits of the text; every other character is skipped. */
  function DigitsOf(s: string): seq<Digit> {
    if s == "" then []
    else DigitsOf(s[..|s| - 1]) + if IsDigit(s[|s| - 1]) then [DigitOf(s[|s| - 1])] else []
  }

  function Doubled(d: Digit): Digit {
    if 2 * d > 9 then 2 * d - 9 else 2 * d
  }

  predicate Odd(i: nat) {
    i > 0 && !Odd(i - 1)
  }

  /** The contribution of digit d at position i from the right. */
  function Weighted(i: nat, d: Digit): Digit {
    if Odd(i) then Doubled(d) else d
  }

  /** The sum over the n rightmost digits. */
  function LuhnSum(ds: seq<Digit>, n: nat): nat
    requires n <= |ds|
  {
    if n == 0 then 0 else LuhnSum(ds, n - 1) + Weighted(n - 1, ds[|ds| - n])
  }

  predicate Uniform(ds: seq<Digit>) {
    forall i | 0 <= i < |ds| :: ds[i] == ds[0]
  }

  predicate LuhnOk(ds: seq<Digit>) {
    13 <= |ds| <= 19 && !Uniform(ds) && LuhnSum(ds, |ds|) % 10 == 0
  }

  method LuhnValid(s: string) returns (ok: bool)
    ensures ok <==> LuhnOk(DigitsOf(s))
  {
    var digits: seq<Digit> := [];
    for i := 0 to |s|
      invariant digits == DigitsOf(s[..i])
    {
      assert s[..i + 1][..i] == s[..i];
      if IsDigit(s[i]) {
        digits := digits + [DigitOf(s[i])];
      }
    }
    assert s[..|s|] == s;
    if |digits| < 13 || |digits| > 19 {
      return false;
    }
    var same := true;
    for j := 1 to |digits|
      invariant same <==> forall k | 0 <= k < j :: digits[k] == digits[0]
    {
      if digits[j] != digits[0] {
        same := false;
        break;
      }
    }
    if same {
      return false;
    }
    var sum, double := 0, false;
    var i := |digits| - 1;
    while i >= 0
      invariant -1 <= i < |digits|
      invariant sum == LuhnSum(digits, |digits| - 1 - i)
      invariant double <==> Odd(|digits| - 1 - i)
    {
      var d: int := digits[i];
      if double {
        d := d * 2;
        if d > 9 {
          d := d - 9;
        }
      }
      sum := sum + d;
      double := !double;
      i := i - 1;
    }
    ok := sum % 10 == 0;
  }

  /** Two numbers that agree except on m..n from the right differ in their sums
      exactly by what they differ there. */
  lemma {:induction false} SumDifference(ds: seq<Digit>, es: seq<Digit>, m: nat, n: nat)
    requires |ds| == |es| && m <= n <= |ds|
    requires forall i | 0 <= i < |ds| - m :: |ds| - n <= i ==> ds[i] == es[i]
    ensures LuhnSum(ds, n) - LuhnSum(es, n) == LuhnSum(ds, m) - LuhnSum(es, m)
  {
    if m < n {
      SumDifference(ds, es, m, n - 1);
    }
  }

  /** Changing any one digit of a valid number is detected. */
  lemma {:induction false} LuhnSingleChange(ds: seq<Digit>, i: nat, d: Digit)
    requires LuhnOk(ds) && i < |ds| && d != ds[i]
    ensures !LuhnOk(ds[i := d])
  {
    var es, n := ds[i := d], |ds| - i;
    SumDifference(ds, es, 0, n - 1);
    SumDifference(ds, es, n, |ds|);
    var delta := Weighted(n - 1, ds[i]) - Weighted(n - 1, d);
    assert LuhnSum(ds, |ds|) - LuhnSum(es, |ds|) == delta && delta != 0 && -10 < delta < 10;
    SameResidue(LuhnSum(ds, |ds|), LuhnSum(es, |ds|));
  }

  lemma {:induction false} LuhnSwapSum(ds: seq<Digit>, i: nat)
    requires i + 1 < |ds|
    ensures var es, n := ds[i := ds[i + 1]][i + 1 := ds[i]], |ds| - i;
            LuhnSum(ds, |ds|) - LuhnSum(es, |ds|) ==
            Weighted(n - 1, ds[i]) + Weighted(n - 2, ds[i + 1]) - Weighted(n - 1, ds[i + 1]) - Weighted(n - 2, ds[i])
  {
    var es, n := ds[i := ds[i + 1]][i + 1 := ds[i]], |ds| - i;
    SumDifference(ds, es, 0, n - 2);
    SumDifference(ds, es, n, |ds|);
    assert LuhnSum(ds, n - 1) == LuhnSum(ds, n - 2) + Weighted(n - 2, ds[i + 1]);
    assert LuhnSum(es, n - 1) == LuhnSum(es, n - 2) + Weighted(n - 2, ds[i]);
  }

  lemma {:induction false} SwapGain(i: nat, a: Digit, b: Digit)
    requires a != b
    ensures var delta := Weighted(i + 1, a) + Weighted(i, b) - Weighted(i + 1, b) - Weighted(i, a);
            -10 < delta < 10 && (delta == 0 <==> (a == 0 && b == 9) || (a == 9 && b == 0))
  {
    DoublingGain(a, b);
  }

  /** Exchanging two unequal neighbours of a valid number goes undetected exactly
      when they are 0 and 9. */
  lemma {:induction false} LuhnSwapIff(ds: seq<Digit>, i: nat)
    requires LuhnOk(ds) && i + 1 < |ds| && ds[i] != ds[i + 1]
    ensures LuhnOk(ds[i := ds[i + 1]][i + 1 := ds[i]]) <==>
            (ds[i] == 0 && ds[i + 1] == 9) || (ds[i] == 9 && ds[i + 1] == 0)
  {
    var es := ds[i := ds[i + 1]][i + 1 := ds[i]];
    NotUniform(es, i);
    LuhnSwapSum(ds, i);
    SwapGain(|ds| - i - 2, ds[i], ds[i + 1]);
    SameResidue(LuhnSum(ds, |ds|), LuhnSum(es, |ds|));
  }

  lemma NotUniform(ds: seq<Digit>, i: nat)
    requires i + 1 < |ds| && ds[i] != ds[i + 1]
    ensures !Uniform(ds)
  {
  }

  lemma SameResidue(x: nat, y: nat)
    requires x % 10 == 0 && -10 < x - y < 10
    ensures y % 10 == 0 <==> x == y
  {
  }

  lemma DoublingGain(a: Digit, b: Digit)
    requires a != b
    ensures Doubled(a) - a == Doubled(b) - b <==> (a == 0 && b == 9) || (a == 9 && b == 0)
  {
  }

  // What the sum is, in closed form: from the right, the digits at positions 0, 2, 4 and
  // so on as they are, and of those between them both decimal digits of their double.

  function DigitsOfDouble(d: int): int {
    (2 * d) / 10 + (2 * d) % 10
  }

  function PairSum(ds: seq<Digit>): int {
    var n := |ds|;
    if n == 0 then 0
    else if n == 1 then ds[0]
    else PairSum(ds[..n - 2]) + DigitsOfDouble(ds[n - 2]) + ds[n - 1]
  }

  lemma {:induction false} LuhnSumShifted(ds: seq<Digit>, n: nat)
    requires n + 2 <= |ds|
    ensures var k := |ds|;
            LuhnSum(ds, n + 2) == LuhnSum(ds[..k - 2], n) + DigitsOfDouble(ds[k - 2]) + ds[k - 1]
  {
    if n > 0 {
      LuhnSumShifted(ds, n - 1);
      assert Odd(n + 1) <==> Odd(n - 1);
      assert ds[|ds| - (n + 2)] == ds[..|ds| - 2][|ds| - 2 - n];
    } else {
      assert LuhnSum(ds, 2) == LuhnSum(ds, 1) + Weighted(1, ds[|ds| - 2]);
      assert LuhnSum(ds, 1) == Weighted(0, ds[|ds| - 1]);
      assert Odd(1) && !Odd(0);
    }
  }

  lemma {:induction false} LuhnSumIs(ds: seq<Digit>)
    ensures LuhnSum(ds, |ds|) == PairSum(ds)
  {
    if |ds| >= 2 {
      LuhnSumShifted(ds, |ds| - 2);
      LuhnSumIs(ds[..|ds| - 2]);
    } else if |ds| == 1 {
      assert !Odd(0) && LuhnSum(ds, 1) == LuhnSum(ds, 0) + Weighted(0, ds[0]);
    }
  }

  /** What `LuhnValid` accepts, without reference to how it computes. */
  lemma {:induction false} LuhnOkIs(ds: seq<Digit>)
    ensures LuhnOk(ds) <==>
            13 <= |ds| <= 19 && (exists i | 0 <= i < |ds| :: ds[i] != ds[0]) && PairSum(ds) % 10 == 0
  {
    LuhnSumIs(ds);
  }

  /** The check digit counts once: raising it by one raises the sum by one. */
  lemma {:induction false} CheckDigitCountsOnce(payload: seq<Digit>, c: Digit)
    ensures PairSum(payload + [c]) == PairSum(payload + [0]) + c
  {
    var n := |payload|;
    if n > 0 {
      assert (payload + [c])[..n - 1] == payload[..n - 1] == (payload + [0])[..n - 1];
    }
  }

  /** Every payload of 12 to 18 digits has one check digit, and no other is accepted. */
  lemma {:induction false} CheckDigitUnique(payload: seq<Digit>, c: Digit)
    requires 12 <= |payload| <= 18
    ensures LuhnOk(payload + [c]) <==>
            !Uniform(payload + [c]) && c == (10 - LuhnSum(payload + [0], |payload| + 1) % 10) % 10
  {
    LuhnSumIs(payload + [c]);
    LuhnSumIs(payload + [0]);
    CheckDigitCountsOnce(payload, c);
    CompletesTen(PairSum(payload + [0]), c);
  }

  lemma CompletesTen(x: int, c: Digit)
    requires x >= 0
    ensures (x + c) % 10 == 0 <==> c == (10 - x % 10) % 10
  {
  }

  /** Where there are only digits, each of them is read. */
  lemma {:induction false} AllDigitsRead(s: string)
    requires forall i | 0 <= i < |s| :: IsDigit(s[i])
    ensures |DigitsOf(s)| == |s| && forall i | 0 <= i < |s| :: DigitsOf(s)[i] == DigitOf(s[i])
  {
    if s != "" {
      AllDigitsRead(s[..|s| - 1]);
    }
  }

  /** A well-known valid number: a four and fifteen ones. */
  lemma {:induction false} KnownCardAccepted()
    ensures LuhnOk(DigitsOf("4" + seq(15, _ => '1')))
  {
    var s := "4" + seq(15, _ => '1');
    var ds: seq<Digit> := [4, 1] + Ones(7);
    AllDigitsRead(s);
    AllOnes(7);
    assert DigitsOf(s) == ds;
    PairsAppend([4, 1], 7);
    LuhnSumIs(ds);
    assert PairSum([4, 1]) == 9 && ds[1] != ds[0];
  }

  function Ones(pairs: nat): seq<Digit> {
    if pairs == 0 then [] else Ones(pairs - 1) + [1, 1]
  }

  lemma {:induction false} AllOnes(pairs: nat)
    ensures |Ones(pairs)| == 2 * pairs && forall i | 0 <= i < 2 * pairs :: Ones(pairs)[i] == 1
  {
    if pairs > 0 {
      AllOnes(pairs - 1);
    }
  }

  lemma {:induction false} PairsAppend(ds: seq<Digit>, pairs: nat)
    ensures PairSum(ds + Ones(pairs)) == PairSum(ds) + 3 * pairs
  {
    if pairs > 0 {
      PairsAppend(ds, pairs - 1);
      var all := ds + Ones(pairs);
      assert all == ds + Ones(pairs - 1) + [1, 1];
      assert all[..|all| - 2] == ds + Ones(pairs - 1);
    } else {
      assert ds + Ones(0) == ds;
    }
  }

  // The same on the text that is scanned, where anything but a digit is skipped.

  /** Replacing one digit character replaces one digit. */
  lemma {:induction false} DigitsChanged(s: string, i: nat, c: char)
    requires i < |s| && IsDigit(s[i]) && IsDigit(c)
    ensures var k := |DigitsOf(s[..i])|;
            k < |DigitsOf(s)| && DigitsOf(s)[k] == DigitOf(s[i]) && DigitsOf(s[i := c]) == DigitsOf(s)[k := DigitOf(c)]
    decreases |s|
  {
    var n := |s| - 1;
    if i == n {
      assert s[i := c][..n] == s[..n];
    } else {
      assert s[..n][..i] == s[..i] && s[i := c][..n] == s[..n][i := c];
      DigitsChanged(s[..n], i, c);
    }
  }

  /** Only the digits of a text count. */
  lemma {:induction false} NextDigit(s: string, i: nat, j: nat)
    requires i < j <= |s| && IsDigit(s[i])
    requires forall m | i < m < j :: !IsDigit(s[m])
    ensures |DigitsOf(s[..j])| == |DigitsOf(s[..i])| + 1
    decreases j
  {
    assert s[..j][..j - 1] == s[..j - 1];
    if j > i + 1 {
      NextDigit(s, i, j - 1);
    }
  }

  /** A number with one digit mistyped is rejected. */
  lemma {:induction false} LuhnMistypedRejected(s: string, i: nat, c: char)
    requires LuhnOk(DigitsOf(s)) && i < |s| && IsDigit(s[i]) && IsDigit(c) && c != s[i]
    ensures !LuhnOk(DigitsOf(s[i := c]))
  {
    DigitsChanged(s, i, c);
    LuhnSingleChange(DigitsOf(s), |DigitsOf(s[..i])|, DigitOf(c));
  }

  /** Two neighbouring digits exchanged, whatever is printed between them: accepted
      exactly when they are 0 and 9. */
  lemma {:induction false} LuhnExchangedIff(s: string, i: nat, j: nat)
    requires LuhnOk(DigitsOf(s)) && i < j < |s| && IsDigit(s[i]) && IsDigit(s[j]) && s[i] != s[j]
    requires forall m | i < m < j :: !IsDigit(s[m])
    ensures LuhnOk(DigitsOf(s[i := s[j]][j := s[i]])) <==>
            (s[i] == '0' && s[j] == '9') || (s[i] == '9' && s[j] == '0')
  {
    var k, t := |DigitsOf(s[..i])|, s[i := s[j]];
    DigitsChanged(s, i, s[j]);
    DigitsChanged(s, j, s[j]);
    NextDigit(s, i, j);
    NextDigit(t, i, j);
    assert t[..i] == s[..i];
    DigitsChanged(t, j, s[i]);
    LuhnSwapIff(DigitsOf(s), k);
  }

  // ------------------------------------------------------------------ IBAN

  /** Blanks removed, letters in upper case. What upper case is, for letters outside
      ASCII too, is a parameter: a text in which any remain is refused anyway. */
  function Compact(s: string, upper: char -> char): string {
    if s == "" then "" else (if s[0] == ' ' then "" else [upper(s[0])]) + Compact(s[1..], upper)
  }

  predicate Alphanumeric(t: string) {
    forall c | c in t :: IsDigit(c) || IsLetter(c)
  }

  /** A digit stands for itself, a letter for the two-digit number from 10 on. */
  function Append(x: int, c: char): int
    requires IsDigit(c) || IsLetter(c)
  {
    if IsDigit(c) then x * 10 + (c as int - '0' as int) else x * 100 + (c as int - 'A' as int + 10)
  }

  /** The whole text read as one number. */
  function Expanded(t: string): nat
    requires Alphanumeric(t)
  {
    if t == "" then 0
    else
      assert t[|t| - 1] in t;
      Append(Expanded(t[..|t| - 1]), t[|t| - 1])
  }

  function Rearranged(t: string): string
    requires |t| >= 4
  {
    t[4..] + t[..4]
  }

  predicate IbanOk(t: string) {
    15 <= |t| <= 34 && Alphanumeric(Rearranged(t)) && Expanded(Rearranged(t)) % 97 == 1
  }

  /** The streaming remainder is the remainder of the whole number. */
  method IbanPlausible(s: string, upper: char -> char) returns (ok: bool)
    ensures ok <==> IbanOk(Compact(s, upper))
  {
    var t := Compact(s, upper);
    if |t| < 15 || |t| > 34 {
      return false;
    }
    var r := Rearranged(t);
    var rem := 0;
    for i := 0 to |r|
      invariant Alphanumeric(r[..i]) && rem == Expanded(r[..i]) % 97
    {
      var c := r[i];
      if !(IsDigit(c) || IsLetter(c)) {
        assert c in r;
        return false;
      }
      assert r[..i + 1][..i] == r[..i];
      AppendRemainder(Expanded(r[..i]), c);
      rem := Append(rem, c) % 97;
    }
    assert r[..|r|] == r;
    ok := rem == 1;
  }

  lemma {:induction false} AppendRemainder(x: nat, c: char)
    requires IsDigit(c) || IsLetter(c)
    ensures Append(x % 97, c) % 97 == Append(x, c) % 97
  {
    var q, r := x / 97, x % 97;
    assert x == 97 * q + r;
    if IsDigit(c) {
      MultipleDropsOut(Append(r, c), 10 * q);
    } else {
      MultipleDropsOut(Append(r, c), 100 * q);
    }
  }

  lemma {:induction false} MultipleDropsOut(x: int, k: int)
    ensures (x + 97 * k) % 97 == x % 97
  {
    assert x + 97 * k == 97 * (x / 97 + k) + x % 97;
  }

  // What the number is: its decimal digits are those of the text, each letter spelt with
  // the two digits of the number it stands for, and the check digits come last.

  function DecimalDigit(d: int): string
    requires 0 <= d < 10
  {
    [(d + '0' as int) as char]
  }

  function Spelled(t: string): string
    requires Alphanumeric(t)
  {
    if t == "" then ""
    else
      assert t[|t| - 1] in t;
      var c := t[|t| - 1];
      Spelled(t[..|t| - 1]) + if IsDigit(c) then [c] else
        var n := c as int - 'A' as int + 10;
        DecimalDigit(n / 10) + DecimalDigit(n % 10)
  }

  function Decimal(s: string): nat
    requires forall i | 0 <= i < |s| :: IsDigit(s[i])
  {
    if s == "" then 0 else 10 * Decimal(s[..|s| - 1]) + DigitOf(s[|s| - 1])
  }

  lemma {:induction false} ExpandedIs(t: string)
    requires Alphanumeric(t)
    ensures forall i | 0 <= i < |Spelled(t)| :: IsDigit(Spelled(t)[i])
    ensures Expanded(t) == Decimal(Spelled(t))
  {
    if t != "" {
      var init, c := t[..|t| - 1], t[|t| - 1];
      assert c in t;
      ExpandedIs(init);
      if !IsDigit(c) {
        var n := c as int - 'A' as int + 10;
        var s := Spelled(init) + DecimalDigit(n / 10);
        assert s[..|s| - 1] == Spelled(init);
        assert Spelled(t) == s + DecimalDigit(n % 10);
        assert Spelled(t)[..|s|] == s;
      } else {
        assert Spelled(t)[..|Spelled(t)| - 1] == Spelled(init);
      }
    }
  }

  lemma {:induction false} RearrangedHolds(t: string, c: char)
    requires |t| >= 4
    ensures c in Rearranged(t) <==> c in t
  {
    assert t == t[..4] + t[4..];
  }

  /** What `IbanPlausible` accepts: 15 to 34 letters and digits that, the first four
      moved to the end and spelt out, leave one when divided by 97. */
  lemma {:induction false} IbanOkIs(t: string)
    requires |t| >= 4 && Alphanumeric(t)
    ensures Alphanumeric(t[4..] + t[..4])
    ensures forall i | 0 <= i < |Spelled(t[4..] + t[..4])| :: IsDigit(Spelled(t[4..] + t[..4])[i])
    ensures IbanOk(t) <==> 15 <= |t| <= 34 && Decimal(Spelled(t[4..] + t[..4])) % 97 == 1
  {
    forall c | c in Rearranged(t) ensures c in t { RearrangedHolds(t, c); }
    ExpandedIs(Rearranged(t));
  }

  /** Any other character is refused. */
  lemma {:induction false} OtherCharactersRefused(t: string)
    requires IbanOk(t)
    ensures Alphanumeric(t)
  {
    forall c | c in t ensures IsDigit(c) || IsLetter(c) { RearrangedHolds(t, c); }
  }

  /** The country code and the check digits are moved to the end, in this order. */
  lemma {:induction false} CheckDigitsAreLast(t: string)
    requires |t| >= 4 && Alphanumeric(t[4..] + t[..2]) && IsDigit(t[2]) && IsDigit(t[3])
    ensures Alphanumeric(Rearranged(t))
    ensures Expanded(Rearranged(t)) == 100 * Expanded(t[4..] + t[..2]) + 10 * DigitOf(t[2]) + DigitOf(t[3])
  {
    var p := t[4..] + t[..2];
    var q := OneMore(p, t[2]);
    var r := OneMore(q, t[3]);
    assert r == Rearranged(t);
  }

  /** Check digits that make an IBAN valid differ by a multiple of 97. */
  lemma {:induction false} CheckDigitsDecide(t: string, u: string)
    requires IbanOk(t) && |u| == |t| && u[4..] == t[4..] && u[..2] == t[..2]
    requires IsDigit(t[2]) && IsDigit(t[3]) && IsDigit(u[2]) && IsDigit(u[3])
    ensures IbanOk(u) <==>
            (10 * DigitOf(u[2]) + DigitOf(u[3]) - 10 * DigitOf(t[2]) - DigitOf(t[3])) % 97 == 0
  {
    assert forall c | c in t[4..] + t[..2] :: c in Rearranged(t);
    CheckDigitsAreLast(t);
    CheckDigitsAreLast(u);
    SameRemainder(Expanded(Rearranged(u)), Expanded(Rearranged(t)));
  }

  lemma {:induction false} OneMore(t: string, c: char) returns (u: string)
    requires Alphanumeric(t) && (IsDigit(c) || IsLetter(c))
    ensures u == t + [c] && Alphanumeric(u) && Expanded(u) == Append(Expanded(t), c)
  {
    u := t + [c];
    assert u[..|t|] == t;
  }

  /** A published example. */
  lemma {:induction false} KnownIbanAccepted()
    ensures IbanOk("NO9386011117947")
  {
    var t := "NO9386011117947";
    assert t[4..] + t[..2] == "86011117947" + "NO";
    KnownPayload();
    CheckDigitsAreLast(t);
  }

  lemma {:induction false} KnownPayload()
    ensures Alphanumeric("86011117947" + "NO") && Expanded("86011117947" + "NO") == 860111179472324
  {
    var t := KnownBeginning();
    t := OneMore(t, '7');
    t := OneMore(t, '9');
    t := OneMore(t, '4');
    t := OneMore(t, '7');
    t := OneMore(t, 'N');
    t := OneMore(t, 'O');
    assert t == "86011117947" + "NO";
  }

  lemma {:induction false} KnownBeginning() returns (t: string)
    ensures t == "8601111" && Alphanumeric(t) && Expanded(t) == 8601111
  {
    t := OneMore("", '8');
    t := OneMore(t, '6');
    t := OneMore(t, '0');
    t := OneMore(t, '1');
    t := OneMore(t, '1');
    t := OneMore(t, '1');
    t := OneMore(t, '1');
  }

  predicate SameKind(a: char, b: char) {
    (IsDigit(a) && IsDigit(b)) || (IsLetter(a) && IsLetter(b))
  }

  /** Ten is invertible modulo 97. */
  lemma {:induction false} TimesTen(x: int)
    requires x % 97 != 0
    ensures (10 * x) % 97 != 0
  {
    assert x == 68 * (10 * x) - 97 * (7 * x);
  }

  lemma {:induction false} AppendKeepsApart(x: int, y: int, c: char)
    requires IsDigit(c) || IsLetter(c)
    requires (x - y) % 97 != 0
    ensures (Append(x, c) - Append(y, c)) % 97 != 0
  {
    TimesTen(x - y);
    TimesTen(10 * (x - y));
  }

  lemma {:induction false} AppendDiffers(x: int, a: char, b: char)
    requires SameKind(a, b) && a != b
    ensures (Append(x, a) - Append(x, b)) % 97 != 0
  {
    var delta := a as int - b as int;
    assert Append(x, a) - Append(x, b) == delta && delta != 0 && -97 < delta < 97;
  }

  lemma {:induction false} StaysAlphanumeric(t: string, i: nat, c: char)
    requires Alphanumeric(t) && i < |t| && (IsDigit(c) || IsLetter(c))
    ensures Alphanumeric(t[i := c]) && Alphanumeric(t[..|t| - 1])
  {
    assert forall x | x in t[i := c] :: x in t || x == c;
  }

  lemma {:induction false} LastSubstituted(t: string, c: char)
    requires t != "" && Alphanumeric(t) && SameKind(t[|t| - 1], c) && c != t[|t| - 1]
    requires Alphanumeric(t[|t| - 1 := c])
    ensures (Expanded(t) - Expanded(t[|t| - 1 := c])) % 97 != 0
  {
    var n := |t| - 1;
    assert t[n := c][..n] == t[..n];
    AppendDiffers(Expanded(t[..n]), t[n], c);
  }

  lemma {:induction false} DifferenceCarriedOn(t: string, u: string)
    requires t != "" && |t| == |u| && t[|t| - 1] == u[|u| - 1] && Alphanumeric(t) && Alphanumeric(u)
    requires Alphanumeric(t[..|t| - 1]) && Alphanumeric(u[..|u| - 1])
    requires (Expanded(t[..|t| - 1]) - Expanded(u[..|u| - 1])) % 97 != 0
    ensures (Expanded(t) - Expanded(u)) % 97 != 0
  {
    var n := |t| - 1;
    assert t[n] in t;
    AppendKeepsApart(Expanded(t[..n]), Expanded(u[..n]), t[n]);
  }

  /** Replacing one character by another of its kind changes the remainder. */
  lemma {:induction false} SubstitutionChangesRemainder(t: string, i: nat, c: char)
    requires Alphanumeric(t) && i < |t| && SameKind(t[i], c) && c != t[i]
    ensures Alphanumeric(t[i := c]) && (Expanded(t) - Expanded(t[i := c])) % 97 != 0
    decreases |t|
  {
    var n := |t| - 1;
    StaysAlphanumeric(t, i, c);
    if i == n {
      LastSubstituted(t, c);
    } else {
      assert t[i := c][..n] == t[..n][i := c];
      SubstitutionChangesRemainder(t[..n], i, c);
      DifferenceCarriedOn(t, t[i := c]);
    }
  }

  /** A digit mistyped as a digit, or a letter as a letter, in a valid IBAN. */
  lemma {:induction false} IbanSubstitutionRejected(t: string, i: nat, c: char)
    requires IbanOk(t) && i < |t| && SameKind(t[i], c) && c != t[i]
    ensures !IbanOk(t[i := c])
  {
    var r := Rearranged(t);
    var k := if i < 4 then |t| - 4 + i else i - 4;
    assert r[k] == t[i];
    assert Rearranged(t[i := c]) == r[k := c];
    SubstitutionChangesRemainder(r, k, c);
    SameRemainder(Expanded(r), Expanded(r[k := c]));
  }

  // ------------------------------------------------- exchanged neighbours

  function Swapped(t: string, i: nat): string
    requires i + 1 < |t|
  {
    t[i := t[i + 1]][i + 1 := t[i]]
  }

  /** A digit d and the letter that stands for 11 d. */
  predicate Twins(a: char, b: char) {
    || (a == '1' && b == 'B') || (a == '2' && b == 'M') || (a == '3' && b == 'X')
    || (a == 'B' && b == '1') || (a == 'M' && b == '2') || (a == 'X' && b == '3')
  }

  lemma Multiple(x: int, k: int)
    requires x == 97 * k
    ensures x % 97 == 0
  {
    MultipleDropsOut(0, k);
  }

  /** Nine is invertible modulo 97. */
  lemma {:induction false} TimesNine(x: int)
    ensures (9 * x) % 97 == 0 <==> x % 97 == 0
  {
    if x % 97 == 0 { Multiple(9 * x, 9 * (x / 97)); }
    if (9 * x) % 97 == 0 { Multiple(x, 54 * (9 * x / 97) - 5 * x); }
  }

  lemma {:induction false} SmallMultiple(x: int)
    requires -97 < x < 97
    ensures x % 97 == 0 <==> x == 0
  {
  }

  lemma {:induction false} TwoDigits(x: int, a: char, b: char)
    requires IsDigit(a) && IsDigit(b)
    ensures (Append(Append(x, a), b) - Append(Append(x, b), a)) % 97 == 0 <==> a == b
  {
    var e := a as int - b as int;
    assert Append(Append(x, a), b) - Append(Append(x, b), a) == 9 * e;
    TimesNine(e);
    SmallMultiple(e);
  }

  lemma {:induction false} TwoLetters(x: int, a: char, b: char)
    requires IsLetter(a) && IsLetter(b)
    ensures (Append(Append(x, a), b) - Append(Append(x, b), a)) % 97 == 0 <==> a == b
  {
    var e := a as int - b as int;
    assert Append(Append(x, a), b) - Append(Append(x, b), a) == 99 * e;
    MultipleDropsOut(2 * e, e);
    SmallMultiple(2 * e);
  }

  /** Appending two characters in either order: the number read before them cancels out. */
  lemma {:induction false} SwapDifference(x: int, a: char, b: char)
    requires (IsDigit(a) || IsLetter(a)) && (IsDigit(b) || IsLetter(b))
    ensures (Append(Append(x, a), b) - Append(Append(x, b), a)) % 97 == 0 <==> a == b || Twins(a, b)
  {
    if IsDigit(a) && IsDigit(b) {
      TwoDigits(x, a, b);
    } else if IsLetter(a) && IsLetter(b) {
      TwoLetters(x, a, b);
    } else if IsDigit(a) {
      DigitAndLetter(x, a, b);
    } else {
      DigitAndLetter(x, b, a);
      Opposite(Append(Append(x, b), a), Append(Append(x, a), b));
    }
  }

  lemma Opposite(x: int, y: int)
    ensures (x - y) % 97 == 0 <==> (y - x) % 97 == 0
  {
  }

  lemma {:induction false} DigitAndLetter(x: int, d: char, c: char)
    requires IsDigit(d) && IsLetter(c)
    ensures (Append(Append(x, d), c) - Append(Append(x, c), d)) % 97 == 0 <==> Twins(d, c)
  {
    var e := 11 * (d as int - '0' as int) - (c as int - 'A' as int + 10);
    assert Append(Append(x, d), c) - Append(Append(x, c), d) == 9 * e;
    TimesNine(e);
    SmallMultiple(e);
  }

  lemma {:induction false} AppendKeepsTogether(x: int, y: int, c: char)
    requires IsDigit(c) || IsLetter(c)
    requires (x - y) % 97 == 0
    ensures (Append(x, c) - Append(y, c)) % 97 == 0
  {
    if IsDigit(c) {
      Multiple(Append(x, c) - Append(y, c), 10 * ((x - y) / 97));
    } else {
      Multiple(Append(x, c) - Append(y, c), 100 * ((x - y) / 97));
    }
  }

  lemma {:induction false} EqualityCarriedOn(t: string, u: string)
    requires t != "" && |t| == |u| && t[|t| - 1] == u[|u| - 1] && Alphanumeric(t) && Alphanumeric(u)
    requires Alphanumeric(t[..|t| - 1]) && Alphanumeric(u[..|u| - 1])
    requires (Expanded(t[..|t| - 1]) - Expanded(u[..|u| - 1])) % 97 == 0
    ensures (Expanded(t) - Expanded(u)) % 97 == 0
  {
    var n := |t| - 1;
    assert t[n] in t;
    AppendKeepsTogether(Expanded(t[..n]), Expanded(u[..n]), t[n]);
  }

  lemma {:induction false} LastTwoSwapped(t: string)
    requires |t| >= 2 && Alphanumeric(t) && Alphanumeric(Swapped(t, |t| - 2))
    ensures (Expanded(t) - Expanded(Swapped(t, |t| - 2))) % 97 == 0 <==>
            t[|t| - 2] == t[|t| - 1] || Twins(t[|t| - 2], t[|t| - 1])
  {
    var n, u := |t| - 2, Swapped(t, |t| - 2);
    var p := t[..n];
    assert t[n] in t && t[n + 1] in t;
    assert t[..n + 1][..n] == p && u[..n + 1][..n] == p;
    assert Alphanumeric(p) && Alphanumeric(t[..n + 1]) && Alphanumeric(u[..n + 1]);
    assert Expanded(t) == Append(Append(Expanded(p), t[n]), t[n + 1]);
    assert Expanded(u) == Append(Append(Expanded(p), t[n + 1]), t[n]);
    SwapDifference(Expanded(p), t[n], t[n + 1]);
  }

  lemma {:induction false} SwappedAlphanumeric(t: string, i: nat)
    requires Alphanumeric(t) && i + 1 < |t|
    ensures Alphanumeric(Swapped(t, i)) && Alphanumeric(t[..|t| - 1])
  {
    assert t[i] in t && t[i + 1] in t;
    assert forall x | x in Swapped(t, i) :: x in t;
  }

  /** Exchanging two neighbours leaves the remainder as it is exactly when they are
      equal or twins. */
  lemma {:induction false} SwapRemainder(t: string, i: nat)
    requires Alphanumeric(t) && i + 1 < |t|
    ensures Alphanumeric(Swapped(t, i))
    ensures (Expanded(t) - Expanded(Swapped(t, i))) % 97 == 0 <==> t[i] == t[i + 1] || Twins(t[i], t[i + 1])
    decreases |t|
  {
    var n, u := |t| - 1, Swapped(t, i);
    SwappedAlphanumeric(t, i);
    if i + 1 == n {
      LastTwoSwapped(t);
    } else {
      assert u[..n] == Swapped(t[..n], i);
      SwapRemainder(t[..n], i);
      if (Expanded(t[..n]) - Expanded(u[..n])) % 97 == 0 {
        EqualityCarriedOn(t, u);
      } else {
        DifferenceCarriedOn(t, u);
      }
    }
  }

  /** Two unequal neighbours of a valid IBAN exchanged, on one side of the cut after
      the fourth character: accepted exactly when they are 1 and B, 2 and M, or 3 and X. */
  lemma {:induction false} IbanSwapIff(t: string, i: nat)
    requires IbanOk(t) && i + 1 < |t| && i != 3 && t[i] != t[i + 1]
    ensures IbanOk(Swapped(t, i)) <==> Twins(t[i], t[i + 1])
  {
    var r := Rearranged(t);
    var k := if i < 4 then |t| - 4 + i else i - 4;
    assert r[k] == t[i] && r[k + 1] == t[i + 1];
    assert Rearranged(Swapped(t, i)) == Swapped(r, k);
    SwapRemainder(r, k);
    SameRemainder(Expanded(r), Expanded(Swapped(r, k)));
  }

  lemma {:induction false} SameRemainder(x: int, y: int)
    ensures x % 97 == y % 97 <==> (x - y) % 97 == 0
  {
    assert x - y == 97 * (x / 97 - y / 97) + (x % 97 - y % 97);
    SmallMultiple(x % 97 - y % 97);
    MultipleDropsOut(x % 97 - y % 97, x / 97 - y / 97);
  }

  // --------------------------------------- the same on the text that is scanned

  /** Blanks do not count, and case does not matter. */
  lemma {:induction false} CompactChanged(s: string, i: nat, c: char, upper: char -> char)
    requires i < |s| && s[i] != ' ' && c != ' '
    ensures var k, t := |Compact(s[..i], upper)|, Compact(s, upper);
            k < |t| && t[k] == upper(s[i]) && Compact(s[i := c], upper) == t[k := upper(c)]
    decreases i
  {
    if i > 0 {
      assert s[..i][1..] == s[1..][..i - 1] && s[i := c][1..] == s[1..][i - 1 := c];
      CompactChanged(s[1..], i - 1, c, upper);
    } else {
      assert s[..i] == "" && s[i := c][1..] == s[1..];
    }
  }

  lemma {:induction false} NextCharacter(s: string, i: nat, j: nat, upper: char -> char)
    requires i < j <= |s| && s[i] != ' '
    requires forall m | i < m < j :: s[m] == ' '
    ensures |Compact(s[..j], upper)| == |Compact(s[..i], upper)| + 1
    decreases i
  {
    if i > 0 {
      assert s[..i][1..] == s[1..][..i - 1] && s[..j][1..] == s[1..][..j - 1];
      NextCharacter(s[1..], i - 1, j - 1, upper);
    } else {
      assert s[..i] == "";
      BlanksVanish(s[..j][1..], upper);
    }
  }

  lemma {:induction false} BlanksVanish(s: string, upper: char -> char)
    requires forall m | 0 <= m < |s| :: s[m] == ' '
    ensures Compact(s, upper) == ""
  {
    if s != "" { BlanksVanish(s[1..], upper); }
  }

  /** One character mistyped as another of its kind. */
  lemma {:induction false} IbanMistypedRejected(s: string, i: nat, c: char, upper: char -> char)
    requires IbanOk(Compact(s, upper)) && i < |s| && s[i] != ' ' && c != ' '
    requires SameKind(upper(s[i]), upper(c)) && upper(c) != upper(s[i])
    ensures !IbanOk(Compact(s[i := c], upper))
  {
    CompactChanged(s, i, c, upper);
    IbanSubstitutionRejected(Compact(s, upper), |Compact(s[..i], upper)|, upper(c));
  }

  /** Two neighbours exchanged, with at most blanks between them. */
  lemma {:induction false} IbanExchangedIff(s: string, i: nat, j: nat, upper: char -> char)
    requires IbanOk(Compact(s, upper)) && i < j < |s| && s[i] != ' ' && s[j] != ' '
    requires forall m | i < m < j :: s[m] == ' '
    requires upper(s[i]) != upper(s[j]) && |Compact(s[..i], upper)| != 3
    ensures IbanOk(Compact(s[i := s[j]][j := s[i]], upper)) <==> Twins(upper(s[i]), upper(s[j]))
  {
    var u := s[i := s[j]];
    CompactChanged(s, i, s[j], upper);
    CompactChanged(s, j, s[j], upper);
    NextCharacter(s, i, j, upper);
    NextCharacter(u, i, j, upper);
    assert u[..i] == s[..i];
    CompactChanged(u, j, s[i], upper);
    IbanSwapIff(Compact(s, upper), |Compact(s[..i], upper)|);
  }
}
