/** web/app.js, niceAxis: a chart axis snapped to round numbers, over the reals. */
module NiceAxis {

  function Pow10(e: int): (p: real)
    ensures p > 0.0
    decreases if e < 0 then -e else e
  {
    if e == 0 then 1.0 else if e > 0 then 10.0 * Pow10(e - 1) else Pow10(e + 1) / 10.0
  }

  lemma {:induction false} Pow10Step(e: int)
    ensures Pow10(e + 1) == 10.0 * Pow10(e)
  {
  }

  lemma {:induction false} TenthFloor(y: real)
    requires y >= 1.0
    ensures (y / 10.0).Floor < y.Floor && 0 <= (y / 10.0).Floor
  {
  }

  /** Math.floor(Math.log10(x)) for x at least 1. */
  function LogUp(x: real): (e: int)
    requires x >= 1.0
    ensures Pow10(e) <= x < 10.0 * Pow10(e)
    decreases x.Floor
  {
    if x < 10.0 then assert Pow10(0) == 1.0; 0
    else
      TenthFloor(x);
      var e := LogUp(x / 10.0);
      Pow10Step(e);
      e + 1
  }

  /** And for x below 1. */
  function LogDown(x: real): (e: int)
    requires 0.0 < x < 1.0
    ensures Pow10(e) <= x < 10.0 * Pow10(e)
    decreases (1.0 / x).Floor
  {
    if x >= 0.1 then
      assert Pow10(0) == 1.0 && Pow10(-1) == Pow10(0) / 10.0;
      -1
    else
      InverseShrinks(x);
      var e := LogDown(10.0 * x);
      Pow10Step(e - 1);
      e - 1
  }

  lemma {:induction false} InverseShrinks(x: real)
    requires 0.0 < x < 0.1
    ensures 0 <= (1.0 / (10.0 * x)).Floor < (1.0 / x).Floor
  {
    var y, z := 1.0 / x, 1.0 / (10.0 * x);
    assert y * x == 1.0 && z * (10.0 * x) == 1.0;
    assert (10.0 * z) * x == y * x;
    Compare(10.0 * z, y, x);
    Compare(y, 10.0 * z, x);
    Compare(10.0, y, x);
    assert y == 10.0 * z && y > 10.0;
    TenthFloor(y);
  }

  /** Math.floor(Math.log10(x)): the power of ten at or below x. */
  function FloorLog10(x: real): (e: int)
    requires x > 0.0
    ensures Pow10(e) <= x < 10.0 * Pow10(e)
  {
    if x >= 1.0 then LogUp(x) else LogDown(x)
  }

  function Floor(x: real): int { x.Floor }

  function Ceil(x: real): int { -((-x).Floor) }

  datatype Axis = Axis(min: real, max: real, step: real)

  function Top(min: real, max: real): real { if max > min then max else min + 1.0 }

  function Factor(norm: real): real {
    if norm < 1.5 then 1.0 else if norm < 3.0 then 2.0 else if norm < 7.0 then 5.0 else 10.0
  }

  function Step(rough: real): real
    requires rough > 0.0
  {
    var mag := Pow10(FloorLog10(rough));
    Factor(rough / mag) * mag
  }

  /** A step of 1, 2, 5 or 10 times 10^e. */
  predicate RoundStep(step: real, e: int) {
    var p := Pow10(e);
    step == p || step == 2.0 * p || step == 5.0 * p || step == 10.0 * p
  }

  function StepFor(span: real, count: real): (step: real)
    requires span > 0.0 && count > 0.0
    ensures step > 0.0
  {
    RoughPositive(span, count);
    StepSize(span / count);
    Step(span / count)
  }

  function Make(min: real, max: real, count: real): Axis
    requires count > 0.0
  {
    var top := Top(min, max);
    Snap(min, top, StepFor(top - min, count))
  }

  function Snap(min: real, top: real, step: real): Axis
    requires step > 0.0
  {
    Axis(Floor(min / step) as real * step, Ceil(top / step) as real * step, step)
  }

  /** The axis's ends are k and l steps from zero. */
  predicate EndsAt(a: Axis, k: int, l: int) {
    a.min == k as real * a.step && a.max == l as real * a.step
  }

  lemma {:induction false} RoughPositive(span: real, count: real)
    requires span > 0.0 && count > 0.0
    ensures span / count > 0.0 && (span / count) * count == span
  {
    var q := span / count;
    assert q * count == span;
    Compare(0.0, q, count);
  }

  /** The step is round, 1, 2, 5 or 10 times the power of ten below the rough step, which decides at 1.5, 3 and 7
      times it; so it is from two thirds of the rough step to five thirds. */
  lemma {:induction false} StepSize(rough: real)
    requires rough > 0.0
    ensures Step(rough) > 0.0 && RoundStep(Step(rough), FloorLog10(rough))
    ensures var p := Pow10(FloorLog10(rough));
            Step(rough) == if rough < 1.5 * p then p else if rough < 3.0 * p then 2.0 * p
                           else if rough < 7.0 * p then 5.0 * p else 10.0 * p
    ensures 2.0 * rough < 3.0 * Step(rough) && 3.0 * Step(rough) <= 5.0 * rough
  {
    var mag := Pow10(FloorLog10(rough));
    var norm := rough / mag;
    NormRange(rough, mag, norm);
    FactorTimes(norm, mag, rough);
    FactorDecides(norm, mag, rough);
  }

  lemma {:induction false} FactorDecides(norm: real, p: real, rough: real)
    requires p > 0.0 && norm * p == rough
    ensures Factor(norm) * p == if rough < 1.5 * p then p else if rough < 3.0 * p then 2.0 * p
                                else if rough < 7.0 * p then 5.0 * p else 10.0 * p
  {
    Compare(norm, 1.5, p);
    Compare(norm, 3.0, p);
    Compare(norm, 7.0, p);
    if norm < 1.5 {
      assert Factor(norm) == 1.0;
    } else if norm < 3.0 {
      assert Factor(norm) == 2.0;
    } else if norm < 7.0 {
      assert Factor(norm) == 5.0;
    }
  }

  lemma {:induction false} NormRange(rough: real, mag: real, norm: real)
    requires mag > 0.0 && norm == rough / mag && mag <= rough < 10.0 * mag
    ensures norm * mag == rough && 1.0 <= norm < 10.0
  {
    assert norm * mag == rough;
    Between(norm, mag, 1.0, 10.0);
  }

  lemma {:induction false} FactorTimes(norm: real, mag: real, rough: real)
    requires mag > 0.0 && norm * mag == rough && 1.0 <= norm < 10.0
    ensures var s := Factor(norm) * mag; s > 0.0 && 2.0 * rough < 3.0 * s && 3.0 * s <= 5.0 * rough
  {
    var f := Factor(norm);
    assert 2.0 * norm < 3.0 * f && 3.0 * f <= 5.0 * norm;
    Compare(2.0 * norm, 3.0 * f, mag);
    Scale(3.0 * f, 5.0 * norm, mag);
    assert (2.0 * norm) * mag == 2.0 * rough && (5.0 * norm) * mag == 5.0 * rough;
    assert (3.0 * f) * mag == 3.0 * (f * mag);
  }

  lemma {:induction false} Compare(a: real, b: real, m: real)
    requires m > 0.0
    ensures a < b <==> a * m < b * m
  {
  }

  lemma {:induction false} Between(a: real, m: real, lo: real, hi: real)
    requires m > 0.0 && lo * m <= a * m < hi * m
    ensures lo <= a < hi
  {
  }

  lemma {:induction false} TimesBack(x: real, s: real, q: real)
    requires s > 0.0 && q == x / s
    ensures q * s == x
  {
  }

  lemma {:induction false} TimesMinus(a: real, b: real, s: real)
    ensures (a - b) * s == a * s - b * s
  {
  }

  lemma {:induction false} Stretch(a: real, b: real, m: real)
    requires a < b && m > 0.0
    ensures a * m < b * m
  {
  }

  lemma {:induction false} Low(q: real, n: real, s: real, x: real)
    requires s > 0.0 && q * s == x && n <= q
    ensures n * s <= x
  {
    Scale(n, q, s);
  }

  lemma {:induction false} High(q: real, n: real, s: real, x: real)
    requires s > 0.0 && q * s == x && q <= n
    ensures x <= n * s
  {
    Scale(q, n, s);
  }

  lemma {:induction false} BelowNext(q: real, n: real, s: real, x: real)
    requires s > 0.0 && q * s == x && q < n + 1.0
    ensures x < n * s + s
  {
    var f := n + 1.0;
    Stretch(q, f, s);
    assert f * s == n * s + s;
  }

  lemma {:induction false} AboveLast(q: real, n: real, s: real, x: real)
    requires s > 0.0 && q * s == x && n - 1.0 < q
    ensures n * s - s < x
  {
    var f := n - 1.0;
    Stretch(f, q, s);
    assert f * s == n * s - s;
  }

  lemma {:induction false} FloorTimes(x: real, s: real)
    requires s > 0.0
    ensures Floor(x / s) as real * s <= x < Floor(x / s) as real * s + s
  {
    TimesBack(x, s, x / s);
    Low(x / s, Floor(x / s) as real, s, x);
    BelowNext(x / s, Floor(x / s) as real, s, x);
  }

  lemma {:induction false} CeilTimes(x: real, s: real)
    requires s > 0.0
    ensures Ceil(x / s) as real * s - s < x <= Ceil(x / s) as real * s
  {
    TimesBack(x, s, x / s);
    AboveLast(x / s, Ceil(x / s) as real, s, x);
    High(x / s, Ceil(x / s) as real, s, x);
  }

  /** The axis covers the input and ends within a step of it; both ends are whole multiples, k and l, of its
      step; zero is a gridline when the range crosses it; and l - k is at least 0.6 times the count and below
      1.5 times the count plus 2. */
  predicate Nice(a: Axis, min: real, max: real, count: real, k: int, l: int) {
    && EndsAt(a, k, l)
    && a.min <= min && min <= a.max && max <= a.max
    && min < a.min + a.step && a.max - a.step < (if max > min then max else min + 1.0)
    && (min <= 0.0 <= max ==> k <= 0 <= l)
    && 0.6 * count <= (l - k) as real < 1.5 * count + 2.0
  }

  /** For every range and every positive count the axis is nice, in steps of 1, 2, 5 or 10 times 10^e. */
  lemma {:induction false} AxisIsNice(min: real, max: real, count: real) returns (a: Axis, k: int, l: int, e: int)
    requires count > 0.0
    ensures a == Make(min, max, count)
    ensures Nice(a, min, max, count, k, l) && RoundStep(a.step, e)
  {
    var step;
    step, a, k, l, e := NiceFor(min, Top(min, max), count);
    MakeIs(min, max, count, step);
    NiceBelow(a, min, max, count, k, l);
  }

  lemma {:induction false} MakeIs(min: real, max: real, count: real, step: real)
    requires count > 0.0 && step > 0.0 && StepFor(Top(min, max) - min, count) == step
    ensures Make(min, max, count) == Snap(min, Top(min, max), step)
  {
  }

  lemma {:induction false} NiceFor(min: real, top: real, count: real) returns (step: real, a: Axis, k: int, l: int, e: int)
    requires count > 0.0 && top > min
    ensures step > 0.0 && StepFor(top - min, count) == step && a == Snap(min, top, step)
    ensures Nice(a, min, top, count, k, l) && RoundStep(a.step, e)
  {
    hide Nice, RoundStep, Step, Snap, FloorLog10, Pow10;
    var rough := (top - min) / count;
    RoughPositive(top - min, count);
    StepSize(rough);
    step, e := Step(rough), FloorLog10(rough);
    a, k, l := Ends(min, top, step, rough, count);
  }

  lemma {:induction false} NiceBelow(a: Axis, min: real, max: real, count: real, k: int, l: int)
    requires Nice(a, min, Top(min, max), count, k, l)
    ensures Nice(a, min, max, count, k, l)
  {
  }

  lemma {:induction false} Ends(min: real, top: real, step: real, rough: real, count: real) returns (a: Axis, k: int, l: int)
    requires step > 0.0 && count > 0.0 && rough * count == top - min > 0.0
    requires 2.0 * rough < 3.0 * step && 3.0 * step <= 5.0 * rough
    ensures a == Snap(min, top, step)
    ensures Nice(a, min, top, count, k, l) && a.step == step
  {
    a, k, l := Snap(min, top, step), Floor(min / step), Ceil(top / step);
    FloorTimes(min, step);
    CeilTimes(top, step);
    NiceEnds(k, l, step, rough, count, min, top);
  }

  lemma {:induction false} NiceEnds(k: int, l: int, step: real, rough: real, count: real, min: real, top: real)
    requires step > 0.0 && count > 0.0 && rough * count == top - min > 0.0
    requires 2.0 * rough < 3.0 * step && 3.0 * step <= 5.0 * rough
    requires k as real * step <= min < k as real * step + step
    requires l as real * step - step < top <= l as real * step
    ensures Nice(Axis(k as real * step, l as real * step, step), min, top, count, k, l)
  {
    CountBounds(k, l, step, rough, count, min, top);
    ZeroInside(k, l, step, min, top);
  }

  lemma {:induction false} CountBounds(k: int, l: int, step: real, rough: real, count: real, min: real, top: real)
    requires step > 0.0 && count > 0.0 && rough * count == top - min
    requires 2.0 * rough < 3.0 * step && 3.0 * step <= 5.0 * rough
    requires k as real * step <= min < k as real * step + step
    requires l as real * step - step < top <= l as real * step
    ensures 0.6 * count <= (l - k) as real < 1.5 * count + 2.0
  {
    var n, area, span := (l - k) as real, step * count, top - min;
    AreaBounds(step, rough, count, area, span);
    TimesMinus(l as real, k as real, step);
    assert n == l as real - k as real;
    Solve(n, step, count, area);
  }

  lemma {:induction false} AreaBounds(step: real, rough: real, count: real, area: real, span: real)
    requires count > 0.0 && rough * count == span && area == step * count
    requires 2.0 * rough < 3.0 * step && 3.0 * step <= 5.0 * rough
    ensures 2.0 * span < 3.0 * area && 3.0 * area <= 5.0 * span
  {
    Scale(3.0 * step, 5.0 * rough, count);
    Compare(2.0 * rough, 3.0 * step, count);
    assert (3.0 * step) * count == 3.0 * area && (5.0 * rough) * count == 5.0 * span;
    assert (2.0 * rough) * count == 2.0 * span;
  }

  lemma {:induction false} Solve(n: real, step: real, count: real, area: real)
    requires step > 0.0 && area == step * count
    requires 0.6 * area <= n * step < 1.5 * area + 2.0 * step
    ensures 0.6 * count <= n < 1.5 * count + 2.0
  {
    assert (0.6 * count) * step == 0.6 * area;
    assert (1.5 * count + 2.0) * step == 1.5 * area + 2.0 * step;
    Compare(n, 0.6 * count, step);
    Compare(n, 1.5 * count + 2.0, step);
  }

  lemma {:induction false} Scale(a: real, b: real, m: real)
    requires a <= b && m > 0.0
    ensures a * m <= b * m
  {
  }

  lemma {:induction false} ZeroInside(k: int, l: int, step: real, min: real, top: real)
    requires step > 0.0 && k as real * step <= min && top <= l as real * step
    ensures min <= 0.0 <= top ==> k <= 0 <= l
  {
    Compare(0.0, k as real, step);
    Compare(l as real, 0.0, step);
  }
}
