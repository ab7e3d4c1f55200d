/** The check digit of a CLABE, the 18-digit Mexican bank account number. */
module Clabe {
  import opened Text

  const LENGTH: nat := 18

  function DigitValue(c: char): (d: nat)
    requires IsDigit(c)
    ensures d < 10
  {
    c as int - '0' as int
  }

  /** A digit times the weight of its place: three, seven, one, and again. */
  function Weighed(d: int, i: nat): int {
    if i % 3 == 0 then 3 * d else if i % 3 == 1 then 7 * d else d
  }

  /** The weighted sum of all the digits; the last one, the check digit, weighs one. */
  function WeightedSum(c: string): nat
    requires AllDigits(c)
  {
    if c == "" then 0
    else WeightedSum(c[..|c| - 1]) + Weighed(DigitValue(c[|c| - 1]), |c| - 1)
  }

  /** Eighteen digits whose weighted sum is a multiple of ten. */
  predicate Valid(c: string) {
    EighteenDigits(c) && WeightedSum(c) % 10 == 0
  }

  predicate EighteenDigits(c: string) {
    |c| == LENGTH && AllDigits(c)
  }

  method IsValidClabe(clabe: string) returns (valid: bool)
    ensures valid <==> Valid(Trim(clabe))
  {
    var c := Trim(clabe);
    if !EighteenDigits(c) {
      return false;
    }
    var sum := ReducedSum(c);
    var checkDigit := (10 - (sum % 10)) % 10;
    valid := checkDigit == DigitValue(c[17]);
    NextPlace(c, 17);
    assert c[..18] == c;
    CheckDigitCompletes(sum, WeightedSum(c[..17]), DigitValue(c[17]));
  }

  /** The loop over the first seventeen places; each product is reduced before it is added. */
  method ReducedSum(c: string) returns (sum: nat)
    requires EighteenDigits(c)
    ensures sum % 10 == WeightedSum(c[..17]) % 10
  {
    var weights := [3, 7, 1];
    sum := 0;
    for i := 0 to 17
      invariant sum % 10 == WeightedSum(c[..i]) % 10
    {
      var product := LastDigit(DigitValue(c[i]), weights[i % 3]);
      AddReduced(sum, WeightedSum(c[..i]), DigitValue(c[i]), i);
      NextPlace(c, i);
      sum := sum + product;
    }
  }

  lemma NextPlace(c: string, i: nat)
    requires AllDigits(c) && i < |c|
    ensures WeightedSum(c[..i + 1]) == WeightedSum(c[..i]) + Weighed(DigitValue(c[i]), i)
  {
    assert c[..i + 1][..i] == c[..i];
  }

  function LastDigit(digit: nat, weight: nat): nat {
    (digit * weight) % 10
  }

  lemma AddReduced(sum: nat, exact: nat, d: nat, i: nat)
    requires sum % 10 == exact % 10
    ensures (sum + LastDigit(d, [3, 7, 1][i % 3])) % 10 == (exact + Weighed(d, i)) % 10
  {
    assert d * [3, 7, 1][i % 3] == Weighed(d, i) by {
      assert i % 3 == 0 || i % 3 == 1 || i % 3 == 2;
    }
    ReducedTerm(sum, exact, Weighed(d, i));
  }

  lemma ReducedTerm(sum: nat, exact: nat, term: nat)
    requires sum % 10 == exact % 10
    ensures (sum + term % 10) % 10 == (exact + term) % 10
  {
    var tens := exact / 10 + term / 10 - sum / 10;
    assert exact + term == sum + term % 10 + 10 * tens;
    PlusTens(sum + term % 10, tens);
  }

  lemma PlusTens(x: int, tens: int)
    ensures (x + 10 * tens) % 10 == x % 10
  {
  }

  lemma CheckDigitCompletes(sum: int, exact: int, d: nat)
    requires sum % 10 == exact % 10 && d < 10
    ensures (10 - (sum % 10)) % 10 == d <==> (exact + d) % 10 == 0
  {
  }

  lemma {:induction false} ChangeOneDigit(c: string, i: nat, x: char)
    requires AllDigits(c) && i < |c| && IsDigit(x)
    ensures AllDigits(c[i := x])
    ensures WeightedSum(c[i := x]) == WeightedSum(c) + Weighed(DigitValue(x), i) - Weighed(DigitValue(c[i]), i)
  {
    var last := |c| - 1;
    if i == last {
      assert c[i := x][..last] == c[..last];
    } else {
      ChangeOneDigit(c[..last], i, x);
      assert c[i := x][..last] == c[..last][i := x];
    }
  }

  function CharOf(d: nat): (c: char)
    requires d < 10
    ensures IsDigit(c) && DigitValue(c) == d
  {
    '0' + d as char
  }

  /** Every 17-digit prefix is completed by exactly one check digit. */
  lemma OneCheckDigit(prefix: string)
    requires |prefix| == 17 && AllDigits(prefix)
    ensures exists x :: Valid(prefix + [x])
    ensures forall x, y | Valid(prefix + [x]) && Valid(prefix + [y]) :: x == y
  {
    var x := CharOf((10 - WeightedSum(prefix) % 10) % 10);
    Completed(prefix, x);
    forall x, y | Valid(prefix + [x]) && Valid(prefix + [y]) ensures x == y {
      Completed(prefix, x);
      Completed(prefix, y);
    }
  }

  /** What the check digit must be. */
  lemma Completed(prefix: string, x: char)
    requires |prefix| == 17 && AllDigits(prefix)
    ensures Valid(prefix + [x]) <==> IsDigit(x) && DigitValue(x) == (10 - WeightedSum(prefix) % 10) % 10
  {
    var c := prefix + [x];
    assert c[17] == x && c[..17] == prefix;
    if IsDigit(x) {
      CheckDigitCompletes(WeightedSum(prefix), WeightedSum(prefix), DigitValue(x));
    }
  }

  /** Changing any one digit of a valid CLABE is detected. */
  lemma OneWrongDigitIsDetected(c: string, i: nat, x: char)
    requires Valid(c) && i < LENGTH && IsDigit(x) && x != c[i]
    ensures !Valid(c[i := x])
  {
    var before, after := Weighed(DigitValue(c[i]), i), Weighed(DigitValue(x), i);
    ChangeOneDigit(c, i, x);
    WeightsSeparate(DigitValue(x), DigitValue(c[i]), i);
    ShiftMultiple(WeightedSum(c), after - before, WeightedSum(c[i := x]));
  }

  lemma ShiftMultiple(sum: int, shift: int, shifted: int)
    requires sum % 10 == 0 && shifted == sum + shift
    ensures shifted % 10 == 0 <==> shift % 10 == 0
  {
  }

  lemma WeightsSeparate(x: nat, y: nat, i: nat)
    requires x < 10 && y < 10 && x != y
    ensures (Weighed(x, i) - Weighed(y, i)) % 10 != 0
  {
  }

  /** Two neighbouring places weigh a pair and its swap alike, modulo ten, only at a multiple of five apart. */
  lemma NeighboursSeparate(x: nat, y: nat, i: nat)
    requires x < 10 && y < 10
    ensures (Weighed(y, i) + Weighed(x, i + 1) - Weighed(x, i) - Weighed(y, i + 1)) % 10 == 0 <==> (x - y) % 5 == 0
  {
    var difference := Weighed(y, i) + Weighed(x, i + 1) - Weighed(x, i) - Weighed(y, i + 1);
    if i % 3 == 0 {
      assert (i + 1) % 3 == 1 && difference == 4 * (x - y);
    } else if i % 3 == 1 {
      assert (i + 1) % 3 == 2 && difference == 6 * (y - x);
    } else {
      assert (i + 1) % 3 == 0 && difference == 2 * (x - y);
    }
    EvenMultiples(x - y);
    EvenMultiples(y - x);
  }

  lemma EvenMultiples(d: int)
    requires -10 < d < 10
    ensures (2 * d) % 10 == 0 <==> d % 5 == 0
    ensures (4 * d) % 10 == 0 <==> d % 5 == 0
    ensures (6 * d) % 10 == 0 <==> d % 5 == 0
    ensures d % 5 == 0 <==> (-d) % 5 == 0
  {
  }

  function Swap(c: string, i: nat): string
    requires i + 1 < |c|
  {
    c[i := c[i + 1]][i + 1 := c[i]]
  }

  /** Swapping two neighbours goes unnoticed exactly when they are equal or differ by five. */
  lemma WhenASwapGoesUnnoticed(c: string, i: nat)
    requires Valid(c) && i + 1 < LENGTH
    ensures Valid(Swap(c, i)) <==> (DigitValue(c[i]) - DigitValue(c[i + 1])) % 5 == 0
  {
    ChangeOneDigit(c, i, c[i + 1]);
    ChangeOneDigit(c[i := c[i + 1]], i + 1, c[i]);
    var x, y := DigitValue(c[i]), DigitValue(c[i + 1]);
    NeighboursSeparate(x, y, i);
    ShiftMultiple(WeightedSum(c), Weighed(y, i) + Weighed(x, i + 1) - Weighed(x, i) - Weighed(y, i + 1),
                  WeightedSum(Swap(c, i)));
  }

  // ---------- The sum, written out ----------

  function D(c: string, i: nat): nat
    requires AllDigits(c) && i < |c|
  {
    c[i] as int - '0' as int
  }

  /** The three weights go round from the first digit to the check digit. */
  lemma SumWrittenOut(c: string)
    requires EighteenDigits(c)
    ensures WeightedSum(c) ==
            3 * (D(c, 0) + D(c, 3) + D(c, 6) + D(c, 9) + D(c, 12) + D(c, 15)) +
            7 * (D(c, 1) + D(c, 4) + D(c, 7) + D(c, 10) + D(c, 13) + D(c, 16)) +
            (D(c, 2) + D(c, 5) + D(c, 8) + D(c, 11) + D(c, 14) + D(c, 17))
  {
    NineMore(c, 0);
    NineMore(c, 9);
    Whole(c);
  }

  lemma Whole(c: string)
    requires |c| == 18 && AllDigits(c)
    ensures WeightedSum(c[..18]) == WeightedSum(c) && WeightedSum(c[..0]) == 0
  {
    assert c[..18] == c;
  }

  lemma NineMore(c: string, i: nat)
    requires AllDigits(c) && i + 9 <= |c| && i % 3 == 0
    ensures WeightedSum(c[..i + 9]) == WeightedSum(c[..i]) +
            3 * (D(c, i) + D(c, i + 3) + D(c, i + 6)) +
            7 * (D(c, i + 1) + D(c, i + 4) + D(c, i + 7)) +
            (D(c, i + 2) + D(c, i + 5) + D(c, i + 8))
  {
    ThreeMore(c, i);
    ThreeMore(c, i + 3);
    ThreeMore(c, i + 6);
  }

  lemma ThreeMore(c: string, i: nat)
    requires AllDigits(c) && i + 3 <= |c| && i % 3 == 0
    ensures WeightedSum(c[..i + 3]) == WeightedSum(c[..i]) + 3 * D(c, i) + 7 * D(c, i + 1) + D(c, i + 2)
  {
    NextPlace(c, i);
    NextPlace(c, i + 1);
    NextPlace(c, i + 2);
  }

  /** A known account number is valid, and no longer with another last digit. */
  lemma KnownClabe()
    ensures Valid("002010077777777771") && !Valid("002010077777777770")
  {
    SumWrittenOut("002010077777777771");
    SumWrittenOut("002010077777777770");
  }
}
