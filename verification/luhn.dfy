/** The card-number gate of the PII redactor: the Luhn formula of ISO/IEC 7812-1, Annex B. */
module Luhn {

  type Digit = d: nat | d <= 9

  predicate IsDigit(c: char) { '0' <= c <= '9' }

  function DigitOf(c: char): Digit
    requires IsDigit(c)
  {
    (c - '0') as int
  }

  /** The digits of the raw text, separators dropped. */
  function Digits(raw: string): seq<Digit> {
    if raw == "" then []
    else if IsDigit(raw[0]) then [DigitOf(raw[0])] + Digits(raw[1..])
    else Digits(raw[1..])
  }

  // ---------------------------------------------------------------- the formula

  /** Every second digit from the right counts as the digit sum of its double. */
  function Weight(d: Digit, doubled: bool): nat {
    if doubled then 2 * d / 10 + 2 * d % 10 else d
  }

  /** Position k of n counts doubled when its distance to the last digit is odd. */
  predicate DoubledAt(k: nat, n: nat)
    requires k < n
  {
    (n - 1 - k) % 2 == 1
  }

  function WeightedSum(ds: seq<Digit>, k: nat): nat
    requires k <= |ds|
    decreases |ds| - k
  {
    if k == |ds| then 0 else Weight(ds[k], DoubledAt(k, |ds|)) + WeightedSum(ds, k + 1)
  }

  predicate Valid(ds: seq<Digit>) {
    13 <= |ds| <= 19 && WeightedSum(ds, 0) % 10 == 0
  }

  /** The reverse loop with its alternating flag computes the formula. */
  method IsLuhnValid(raw: string) returns (valid: bool)
    ensures valid == Valid(Digits(raw))
  {
    var digits := Digits(raw);
    if |digits| < 13 || |digits| > 19 {
      return false;
    }
    var sum := 0;
    var alt := false;
    var i := |digits|;
    while i > 0
      invariant 0 <= i <= |digits|
      invariant alt == ((|digits| - i) % 2 == 1)
      invariant sum == WeightedSum(digits, i)
    {
      var x: nat := digits[i - 1];
      if alt {
        x := x * 2;
        if x > 9 {
          x := x - 9;
        }
      }
      sum := sum + x;
      alt := !alt;
      i := i - 1;
    }
    valid := sum % 10 == 0;
  }

  // ---------------------------------------------------------------- the formula from the right

  /** The check digit as it stands, the digit before it doubled and reduced by 9 past 9, and so on leftwards. */
  function FromTheRight(ds: seq<Digit>): nat {
    if ds == [] then 0
    else if |ds| == 1 then ds[0]
    else
      var check: nat, second: nat := ds[|ds| - 1], ds[|ds| - 2];
      FromTheRight(ds[..|ds| - 2]) + check + if second > 4 then 2 * second - 9 else 2 * second
  }

  lemma {:induction false} SumOfFront(ds: seq<Digit>, k: nat)
    requires k + 2 <= |ds|
    ensures WeightedSum(ds, k) == WeightedSum(ds[..|ds| - 2], k) + WeightedSum(ds, |ds| - 2)
    decreases |ds| - k
  {
    hide Weight;
    if k + 2 < |ds| { SumOfFront(ds, k + 1); }
  }

  lemma {:induction false} SumIsFromTheRight(ds: seq<Digit>)
    ensures WeightedSum(ds, 0) == FromTheRight(ds)
  {
    if |ds| == 1 {
      assert WeightedSum(ds, 1) == 0;
    } else if |ds| >= 2 {
      var n := |ds|;
      SumIsFromTheRight(ds[..n - 2]);
      SumOfFront(ds, 0);
      assert WeightedSum(ds, n) == 0;
      assert WeightedSum(ds, n - 1) == ds[n - 1];
      DoubleWeight(ds[n - 2]);
    }
  }

  /** Main result: a text is accepted exactly when it has 13 to 19 digits whose sum from the right is a multiple of ten. */
  lemma ValidMeans(raw: string)
    ensures Valid(Digits(raw)) <==> 13 <= |Digits(raw)| <= 19 && FromTheRight(Digits(raw)) % 10 == 0
  {
    SumIsFromTheRight(Digits(raw));
  }

  /** Each decimal digit has its value, and any other character is skipped. */
  lemma DigitsMean(front: string, c: char, back: string)
    ensures Digits(front + [c] + back) ==
      Digits(front) + (if c in "0123456789" then Digits([c]) else []) + Digits(back)
    ensures forall d: Digit :: Digits(["0123456789"[d]]) == [d]
    ensures Digits("") == []
  {
    DigitsOfConcat(front + [c], back);
    DigitsOfConcat(front, [c]);
    assert [c][1..] == "";
    TenDigits(c);
    forall d: Digit ensures Digits(["0123456789"[d]]) == [d] {
      OneDigit("0123456789"[d]);
    }
  }

  lemma TenDigits(c: char)
    ensures IsDigit(c) <==> c in "0123456789"
  {
    if IsDigit(c) {
      assert "0123456789"[DigitOf(c)] == c;
    }
  }

  lemma {:induction false} DigitsOnly(raw: string)
    requires forall k :: 0 <= k < |raw| ==> IsDigit(raw[k])
    ensures |Digits(raw)| == |raw| && forall k :: 0 <= k < |raw| ==> Digits(raw)[k] == DigitOf(raw[k])
  {
    if raw != "" { DigitsOnly(raw[1..]); }
  }

  /** The card number of the repository's own test. */
  lemma KnownNumberIsAccepted()
    ensures Valid(Digits("4111111111111111"))
  {
    FourAndOnes("4111111111111111");
  }

  lemma FourAndOnes(raw: string)
    requires |raw| == 16 && raw[0] == '4' && forall k :: 0 < k < 16 ==> raw[k] == '1'
    ensures Valid(Digits(raw))
  {
    hide Digits, WeightedSum, FromTheRight;
    DigitsOnly(raw);
    var ds := Digits(raw);
    OnesAfterFour(ds, 16);
    assert ds[..16] == ds;
    SumIsFromTheRight(ds);
  }

  lemma {:induction false} OnesAfterFour(ds: seq<Digit>, n: nat)
    requires 2 <= n <= |ds| && n % 2 == 0 && ds[0] == 4 && forall k :: 0 < k < n ==> ds[k] == 1
    ensures 2 * FromTheRight(ds[..n]) == 12 + 3 * n
  {
    assert ds[..n][..n - 2] == ds[..n - 2];
    if n > 2 { OnesAfterFour(ds, n - 2); }
  }

  // ---------------------------------------------------------------- what it detects

  lemma {:induction false} ChangeOne(ds: seq<Digit>, i: nat, d: Digit, k: nat)
    requires i < |ds| && k <= |ds|
    ensures WeightedSum(ds[i := d], k) ==
      WeightedSum(ds, k) + if k <= i then Weight(d, DoubledAt(i, |ds|)) - Weight(ds[i], DoubledAt(i, |ds|)) else 0
    decreases |ds| - k
  {
    if k < |ds| { ChangeOne(ds, i, d, k + 1); }
  }

  /** Changing exactly one digit of a valid number always makes it invalid. */
  lemma OneWrongDigitIsCaught(ds: seq<Digit>, i: nat, d: Digit)
    requires Valid(ds) && i < |ds| && d != ds[i]
    ensures !Valid(ds[i := d])
  {
    ChangeOne(ds, i, d, 0);
    WeightsDiffer(d, ds[i], DoubledAt(i, |ds|));
    SumMovesBy(WeightedSum(ds, 0), Weight(d, DoubledAt(i, |ds|)) - Weight(ds[i], DoubledAt(i, |ds|)));
  }

  lemma SumMovesBy(sum: int, delta: int)
    requires sum % 10 == 0
    ensures (sum + delta) % 10 == delta % 10
  {
  }

  lemma WeightsDiffer(a: Digit, b: Digit, doubled: bool)
    requires a != b
    ensures (Weight(a, doubled) - Weight(b, doubled)) % 10 != 0
    ensures Weight(a, doubled) <= 9 && Weight(b, doubled) <= 9
  {
    DoubleWeight(a);
    DoubleWeight(b);
  }

  lemma DoubleWeight(d: Digit)
    ensures Weight(d, true) == if d <= 4 then 2 * d else 2 * d - 9
  {
  }

  function Swapped(ds: seq<Digit>, i: nat): seq<Digit>
    requires i + 1 < |ds|
  {
    ds[i := ds[i + 1]][i + 1 := ds[i]]
  }

  /** Swapping two adjacent digits goes unnoticed exactly when they are equal or are 0 and 9. */
  lemma AdjacentSwapIsCaughtExactly(ds: seq<Digit>, i: nat)
    requires Valid(ds) && i + 1 < |ds|
    ensures Valid(Swapped(ds, i)) <==> ds[i] == ds[i + 1] || {ds[i], ds[i + 1]} == {0, 9}
  {
    var a, b := ds[i], ds[i + 1];
    SwapMovesSum(ds, i);
    SumMovesBy(WeightedSum(ds, 0), WeightedSum(Swapped(ds, i), 0) - WeightedSum(ds, 0));
    SwapDifference(a, b);
    SwapDifference(b, a);
    PairIsNineZero(a, b);
  }

  lemma PairIsNineZero(a: Digit, b: Digit)
    ensures {a, b} == {0, 9} <==> (a == 0 && b == 9) || (a == 9 && b == 0)
  {
    if {a, b} == {0, 9} { assert 0 in {a, b} && 9 in {a, b}; }
  }

  lemma {:induction false} SwapMovesSum(ds: seq<Digit>, i: nat)
    requires i + 1 < |ds|
    ensures var a, b := ds[i], ds[i + 1];
      WeightedSum(Swapped(ds, i), 0) - WeightedSum(ds, 0) ==
      if DoubledAt(i, |ds|) then Weight(b, true) - b + a - Weight(a, true) else Weight(a, true) - a + b - Weight(b, true)
  {
    hide DoubledAt;
    hide Weight;
    var a, b := ds[i], ds[i + 1];
    ChangeOne(ds, i, b, 0);
    ChangeOne(ds[i := b], i + 1, a, 0);
    DoublingAlternates(i, |ds|);
    PlainWeight(a);
    PlainWeight(b);
  }

  lemma DoublingAlternates(i: nat, n: nat)
    requires i + 1 < n
    ensures DoubledAt(i, n) == !DoubledAt(i + 1, n)
  {
  }

  lemma PlainWeight(d: Digit)
    ensures Weight(d, false) == d
  {
  }

  lemma SwapDifference(a: Digit, b: Digit)
    ensures (Weight(a, true) - a + b - Weight(b, true)) % 10 == 0 <==>
      a == b || (a == 0 && b == 9) || (a == 9 && b == 0)
  {
    DoubleWeight(a);
    DoubleWeight(b);
  }

  // ---------------------------------------------------------------- the same in the raw text

  lemma {:induction false} DigitsOfConcat(x: string, y: string)
    ensures Digits(x + y) == Digits(x) + Digits(y)
  {
    if x == "" {
      assert x + y == y;
    } else {
      DigitsOfConcat(x[1..], y);
      assert (x + y)[1..] == x[1..] + y;
    }
  }

  /** Retyping one digit of an accepted text, whatever separators it has, makes it rejected. */
  lemma OneMistypedCharacterIsCaught(raw: string, i: nat, c: char)
    requires i < |raw| && IsDigit(raw[i]) && IsDigit(c) && c != raw[i]
    requires Valid(Digits(raw))
    ensures !Valid(Digits(raw[i := c]))
  {
    var front, back := raw[..i], raw[i + 1..];
    assert raw == front + ([raw[i]] + back) && raw[i := c] == front + ([c] + back);
    DigitsOfConcat(front, [raw[i]] + back);
    DigitsOfConcat(front, [c] + back);
    DigitsOfConcat([raw[i]], back);
    DigitsOfConcat([c], back);
    OneDigit(raw[i]);
    OneDigit(c);
    var ds, j := Digits(raw), |Digits(front)|;
    assert ds == Digits(front) + [DigitOf(raw[i])] + Digits(back);
    assert Digits(raw[i := c]) == ds[j := DigitOf(c)];
    OneWrongDigitIsCaught(ds, j, DigitOf(c));
  }

  lemma OneDigit(c: char)
    requires IsDigit(c)
    ensures Digits([c]) == [DigitOf(c)]
  {
    assert [c][1..] == "";
  }
}
