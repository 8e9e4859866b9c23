/**
  The chart decision of `create_visualization` (app.py:125-145): the tokens
  found by the scanner are converted to numbers (app.py:129), a chart is drawn
  only when there are more than one of them (app.py:131), and then only the
  first ten are plotted (app.py:132); otherwise an informational notice is
  shown instead (app.py:144-145).
 */
module Chart {
  import opened NumberScan

  /** An exact decimal number: `mantissa / 10^scale`. */
  datatype Decimal = Decimal(mantissa: nat, scale: nat)

  function Pow10(n: nat): (p: nat)
    ensures p >= 1
  {
    if n == 0 then 1 else 10 * Pow10(n - 1)
  }

  function DigitValue(c: char): (d: nat)
    requires IsDigit(c)
    ensures d < 10
  {
    (c as int) - ('0' as int)
  }

  /** The number a run of decimal digits denotes. */
  function DigitsValue(t: string): (v: nat)
    requires AllDigits(t)
    ensures v < Pow10(|t|)
  {
    if t == [] then 0
    else
      var v' := DigitsValue(t[..|t| - 1]);
      assert v' <= Pow10(|t| - 1) - 1;
      10 * v' + DigitValue(t[|t| - 1])
  }

  /** One more digit at the end shifts the value by one decimal place. */
  lemma DigitsValueSnoc(t: string, c: char)
    requires AllDigits(t) && IsDigit(c)
    ensures AllDigits(t + [c])
    ensures DigitsValue(t + [c]) == 10 * DigitsValue(t) + DigitValue(c)
  {
    var u := t + [c];
    assert AllDigits(u) by {
      forall k | 0 <= k < |u| ensures IsDigit(u[k]) {
        if k < |t| { assert u[k] == t[k]; }
      }
    }
    assert u[..|u| - 1] == t;
  }

  /** Digits written after other digits shift them by one decimal place each. */
  lemma {:induction false} DigitsValueAppend(a: string, b: string)
    requires AllDigits(a) && AllDigits(b)
    ensures AllDigits(a + b)
    ensures DigitsValue(a + b) == DigitsValue(a) * Pow10(|b|) + DigitsValue(b)
    decreases |b|
  {
    AllDigitsConcat(a, b);
    if b == [] {
      assert a + b == a;
    } else {
      var b', c := b[..|b| - 1], b[|b| - 1];
      assert b == b' + [c];
      assert AllDigits(b') by {
        forall k | 0 <= k < |b'| ensures IsDigit(b'[k]) { assert b'[k] == b[k]; }
      }
      assert a + b == (a + b') + [c];
      DigitsValueAppend(a, b');
      DigitsValueSnoc(a + b', c);
      DigitsValueSnoc(b', c);
      ShiftDigit(DigitsValue(a), Pow10(|b'|), DigitsValue(b'), DigitValue(c), Pow10(|b|));
    }
  }

  lemma ShiftDigit(x: int, n: int, y: int, d: int, m: int)
    requires m == 10 * n
    ensures 10 * (x * n + y) + d == x * m + (10 * y + d)
  {
  }

  /** Leading zeros do not change the value (`float("007") == 7.0`). */
  lemma LeadingZero(t: string)
    requires AllDigits(t)
    ensures AllDigits("0" + t) && DigitsValue("0" + t) == DigitsValue(t)
  {
    assert AllDigits("0");
    DigitsValueAppend("0", t);
    assert DigitsValue("0") == 0 by {
      assert "0"[..0] == [];
    }
  }

  /** The exact value of a token: the digits with the point removed, scaled
      down by one decimal place per digit after the point. */
  function NumeralValue(t: string): (v: Decimal)
    requires IsNumeral(t)
    ensures v.scale < |t|
  {
    NumeralPoint(t);
    var p := DigitRunEnd(t, 0);
    if p == |t| then Decimal(DigitsValue(t), 0)
    else
      AllDigitsConcat(t[..p], t[p + 1..]);
      Decimal(DigitsValue(t[..p] + t[p + 1..]), |t| - p - 1)
  }

  lemma AllDigitsConcat(a: string, b: string)
    requires AllDigits(a) && AllDigits(b)
    ensures AllDigits(a + b)
  {
    forall k | 0 <= k < |a + b| ensures IsDigit((a + b)[k]) {
      if k >= |a| { assert (a + b)[k] == b[k - |a|]; } else { assert (a + b)[k] == a[k]; }
    }
  }

  /** A run of digits denotes the integer it spells. */
  lemma IntegerValue(t: string)
    requires |t| > 0 && AllDigits(t)
    ensures IsNumeral(t) && NumeralValue(t) == Decimal(DigitsValue(t), 0)
  {
    RunEndUnique(t, 0, |t|);
  }

  /** Digits, a point and digits denote the integer part times ten to the
      number of fraction digits plus the fraction part, at that scale. */
  lemma DecimalValue(t: string, p: nat)
    requires DecimalAt(t, p)
    ensures IsNumeral(t)
    ensures NumeralValue(t)
      == Decimal(DigitsValue(t[..p]) * Pow10(|t| - p - 1) + DigitsValue(t[p + 1..]), |t| - p - 1)
  {
    DecimalPointIsRunEnd(t, p);
    DigitsValueAppend(t[..p], t[p + 1..]);
  }

  /** The numbers extracted from the text, in scan order (app.py:128-129). */
  function Numbers(data: string): (vs: seq<Decimal>)
    ensures |vs| == |FindAll(data)|
    ensures forall k | 0 <= k < |vs| :: vs[k] == NumeralValue(FindAll(data)[k])
  {
    var tokens := FindAll(data);
    seq(|tokens|, k requires 0 <= k < |tokens| => NumeralValue(tokens[k]))
  }

  /** How many points are plotted at most. */
  const MaxPoints: nat := 10

  function Min(a: nat, b: nat): nat {
    if a <= b then a else b
  }

  /** What is displayed: a line chart of a series, or the notice that there is
      not enough numerical data. */
  datatype Visualization = LineChart(series: seq<Decimal>) | NotEnoughData

  /** The chart drawn for a document: the threshold is tested on the whole list
      of numbers, and the chart plots its first `MaxPoints` only. */
  function Visualize(data: string): (v: Visualization)
    ensures v.LineChart? <==> |FindAll(data)| > 1
    ensures v.LineChart? ==>
      && 2 <= |v.series| <= MaxPoints
      && |v.series| == Min(MaxPoints, |FindAll(data)|)
      && forall k | 0 <= k < |v.series| :: v.series[k] == NumeralValue(FindAll(data)[k])
  {
    var numbers := Numbers(data);
    if |numbers| > 1 then LineChart(numbers[..Min(MaxPoints, |numbers|)])
    else NotEnoughData
  }
}
