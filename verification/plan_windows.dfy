/** web/plan-forecast.js and web/ev-plan.js: sums over the part of a plan that a window shows, over the
    reals. A field that is not a finite number is None. */
module PlanWindows {
  import opened Wrappers

  const MS_PER_HOUR: real := 3600000.0

  function Max(a: real, b: real): real { if a >= b then a else b }

  function Min(a: real, b: real): real { if a <= b then a else b }

  /** How much of [start, end) lies in the window, never negative. */
  function Overlap(start: real, end: real, from: real, until: real): (d: real)
    ensures d >= 0.0
  {
    Max(0.0, Min(end, until) - Max(start, from))
  }

  /** Neighbouring windows share nothing and lose nothing. */
  lemma {:induction false} OverlapAdds(start: real, end: real, a: real, b: real, c: real)
    requires a <= b <= c
    ensures Overlap(start, end, a, c) == Overlap(start, end, a, b) + Overlap(start, end, b, c)
  {
  }

  lemma {:induction false} Distribute(w: real, x: real, y: real)
    ensures w * (x + y) == w * x + w * y
  {
  }

  // ---- forecastMargins ----

  datatype Action = Action(
    start: real, lengthMs: real, executionStart: real,
    forecastPv: Option<real>, forecastLoad: Option<real>, pv: Option<real>, load: Option<real>)
  {
    predicate Known() { forecastPv.Some? && forecastLoad.Some? && pv.Some? && load.Some? }
  }

  datatype Margins = Margins(sunBeyond: real, plannedSunBeyond: real, sunHeld: real, useAdded: real)

  const ZERO := Margins(0.0, 0.0, 0.0, 0.0)

  function Add(x: Margins, y: Margins): Margins {
    Margins(x.sunBeyond + y.sunBeyond, x.plannedSunBeyond + y.plannedSunBeyond,
            x.sunHeld + y.sunHeld, x.useAdded + y.useAdded)
  }

  function Scaled(m: Margins, h: real): Margins {
    Margins(m.sunBeyond * h, m.plannedSunBeyond * h, m.sunHeld * h, m.useAdded * h)
  }

  function Shown(a: Action, from: real, until: real): real {
    Overlap(Max(a.start, a.executionStart), a.start + a.lengthMs, from, until)
  }

  /** The margins of one hour of an action, in kWh. */
  function Rate(a: Action): Margins
    requires a.Known()
  {
    var sun, planned := Max(0.0, -a.forecastPv.value), Max(0.0, -a.pv.value);
    var use, plannedUse := Max(0.0, a.forecastLoad.value), Max(0.0, a.load.value);
    Margins(Max(0.0, sun - use) / 1000.0, Max(0.0, planned - plannedUse) / 1000.0,
            Max(0.0, sun - planned) / 1000.0, Max(0.0, plannedUse - use) / 1000.0)
  }

  /** The window's sums, an action without all its values adding nothing. */
  function Sums(actions: seq<Action>, from: real, until: real): Margins {
    if actions == [] then ZERO else
    var last := actions[|actions| - 1];
    var before := Sums(actions[..|actions| - 1], from, until);
    if last.Known() then Add(before, Scaled(Rate(last), Shown(last, from, until) / MS_PER_HOUR)) else before
  }

  ghost predicate ShowsUnknown(actions: seq<Action>, from: real, until: real) {
    exists i :: 0 <= i < |actions| && Shown(actions[i], from, until) > 0.0 && !actions[i].Known()
  }

  ghost predicate ShowsAny(actions: seq<Action>, from: real, until: real) {
    exists i :: 0 <= i < |actions| && Shown(actions[i], from, until) > 0.0
  }

  /** How far the sums over the first i actions have come once the next one is seen. */
  lemma {:induction false} SumsStep(actions: seq<Action>, i: nat, from: real, until: real)
    requires i < |actions|
    ensures Shown(actions[i], from, until) == 0.0 ==>
            Sums(actions[..i + 1], from, until) == Sums(actions[..i], from, until)
    ensures Shown(actions[i], from, until) > 0.0 && actions[i].Known() ==>
            Sums(actions[..i + 1], from, until) ==
            Add(Sums(actions[..i], from, until),
                Scaled(Rate(actions[i]), Shown(actions[i], from, until) / MS_PER_HOUR))
  {
    assert actions[..i + 1][..i] == actions[..i];
    if Shown(actions[i], from, until) == 0.0 && actions[i].Known() {
      NothingShown(Rate(actions[i]), Sums(actions[..i], from, until));
    }
  }

  method ForecastMargins(actions: seq<Action>, from: real, until: real) returns (r: Option<Margins>)
    ensures r.Some? <==> ShowsAny(actions, from, until) && !ShowsUnknown(actions, from, until)
    ensures r.Some? ==> r.value == Sums(actions, from, until)
  {
    var sums, count := ZERO, 0;
    for i := 0 to |actions|
      invariant sums == Sums(actions[..i], from, until)
      invariant count >= 0
      invariant count > 0 ==> ShowsAny(actions, from, until)
      invariant count == 0 ==> forall j :: 0 <= j < i ==> Shown(actions[j], from, until) <= 0.0
      invariant forall j :: 0 <= j < i && Shown(actions[j], from, until) > 0.0 ==> actions[j].Known()
    {
      var a := actions[i];
      var start := Max(Max(a.start, a.executionStart), from);
      var end := Min(a.start + a.lengthMs, until);
      ShownIs(a, from, until);
      SumsStep(actions, i, from, until);
      if end <= start {
        continue;
      }
      if !a.Known() {
        return None;
      }
      var hours := (end - start) / MS_PER_HOUR;
      sums := Add(sums, Scaled(Rate(a), hours));
      count := count + 1;
    }
    assert actions[..|actions|] == actions;
    r := if count > 0 then Some(sums) else None;
  }

  lemma {:induction false} ShownIs(a: Action, from: real, until: real)
    ensures var start, end := Max(Max(a.start, a.executionStart), from), Min(a.start + a.lengthMs, until);
            Shown(a, from, until) == if end <= start then 0.0 else end - start
  {
  }

  lemma {:induction false} NothingShown(m: Margins, before: Margins)
    ensures Add(before, Scaled(m, 0.0 / MS_PER_HOUR)) == before
  {
  }

  lemma {:induction false} ScaledAdds(m: Margins, x: real, y: real)
    ensures Scaled(m, x + y) == Add(Scaled(m, x), Scaled(m, y))
  {
    Distribute(m.sunBeyond, x, y);
    Distribute(m.plannedSunBeyond, x, y);
    Distribute(m.sunHeld, x, y);
    Distribute(m.useAdded, x, y);
  }

  lemma {:induction false} HoursAdd(m: Margins, whole: real, left: real, right: real)
    requires whole == left + right
    ensures Scaled(m, whole / MS_PER_HOUR) == Add(Scaled(m, left / MS_PER_HOUR), Scaled(m, right / MS_PER_HOUR))
  {
    assert whole / MS_PER_HOUR == left / MS_PER_HOUR + right / MS_PER_HOUR;
    ScaledAdds(m, left / MS_PER_HOUR, right / MS_PER_HOUR);
  }

  lemma {:induction false} SharesOfOne(a: Action, x: real, y: real, z: real)
    requires a.Known() && x <= y <= z
    ensures Scaled(Rate(a), Shown(a, x, z) / MS_PER_HOUR) ==
            Add(Scaled(Rate(a), Shown(a, x, y) / MS_PER_HOUR), Scaled(Rate(a), Shown(a, y, z) / MS_PER_HOUR))
  {
    OverlapAdds(Max(a.start, a.executionStart), a.start + a.lengthMs, x, y, z);
    HoursAdd(Rate(a), Shown(a, x, z), Shown(a, x, y), Shown(a, y, z));
  }

  lemma {:induction false} AddInterchanges(p: Margins, q: Margins, x: Margins, y: Margins)
    ensures Add(Add(p, q), Add(x, y)) == Add(Add(p, x), Add(q, y))
  {
  }

  lemma {:induction false} SumsAdd(actions: seq<Action>, a: real, b: real, c: real)
    requires a <= b <= c
    ensures Sums(actions, a, c) == Add(Sums(actions, a, b), Sums(actions, b, c))
  {
    if actions != [] {
      var last, before := actions[|actions| - 1], actions[..|actions| - 1];
      SumsAdd(before, a, b, c);
      if last.Known() {
        SharesOfOne(last, a, b, c);
        AddInterchanges(Sums(before, a, b), Sums(before, b, c),
          Scaled(Rate(last), Shown(last, a, b) / MS_PER_HOUR), Scaled(Rate(last), Shown(last, b, c) / MS_PER_HOUR));
      }
    }
  }

  /** What forecastMargins gives, as a function. */
  ghost function MarginsOf(actions: seq<Action>, from: real, until: real): Option<Margins> {
    if ShowsAny(actions, from, until) && !ShowsUnknown(actions, from, until)
    then Some(Sums(actions, from, until)) else None
  }

  function OrZero(m: Option<Margins>): Margins { if m.Some? then m.value else ZERO }

  lemma {:induction false} UnseenSoFar(actions: seq<Action>, n: nat, from: real, until: real)
    requires n <= |actions| && !ShowsAny(actions, from, until)
    ensures Sums(actions[..n], from, until) == ZERO
  {
    if n > 0 {
      UnseenSoFar(actions, n - 1, from, until);
      SumsStep(actions, n - 1, from, until);
    }
  }

  lemma {:induction false} UnseenIsZero(actions: seq<Action>, from: real, until: real)
    requires !ShowsAny(actions, from, until)
    ensures Sums(actions, from, until) == ZERO
  {
    UnseenSoFar(actions, |actions|, from, until);
    assert actions[..|actions|] == actions;
  }

  /** Margins over a window are those of its two parts, a null part beside a non-null whole counting zero. */
  lemma {:induction false} MarginsAdd(actions: seq<Action>, a: real, b: real, c: real)
    requires a <= b <= c && MarginsOf(actions, a, c).Some?
    ensures MarginsOf(actions, a, c).value ==
            Add(OrZero(MarginsOf(actions, a, b)), OrZero(MarginsOf(actions, b, c)))
  {
    hide Sums, ShowsAny, ShowsUnknown, Shown, Scaled, Rate;
    SumsAdd(actions, a, b, c);
    PartOfWhole(actions, a, b, a, c);
    PartOfWhole(actions, b, c, a, c);
  }

  lemma {:induction false} PartOfWhole(actions: seq<Action>, from: real, until: real, a: real, c: real)
    requires a <= from && until <= c && !ShowsUnknown(actions, a, c)
    ensures OrZero(MarginsOf(actions, from, until)) == Sums(actions, from, until)
  {
    hide Sums, Rate, Scaled;
    forall i | 0 <= i < |actions| && Shown(actions[i], from, until) > 0.0 ensures actions[i].Known() {
      assert Shown(actions[i], a, c) > 0.0;
    }
    if !ShowsAny(actions, from, until) {
      UnseenIsZero(actions, from, until);
    }
  }

  lemma {:induction false} SpareSunOfOne(a: Action, h: real)
    requires a.Known() && h >= 0.0
    ensures var m := Scaled(Rate(a), h); m.sunBeyond - m.plannedSunBeyond <= m.sunHeld + m.useAdded
  {
    var r := Rate(a);
    assert r.sunBeyond - r.plannedSunBeyond <= r.sunHeld + r.useAdded;
    TimesNonNegative(r.sunHeld + r.useAdded - r.sunBeyond + r.plannedSunBeyond, h);
    assert (r.sunHeld + r.useAdded - r.sunBeyond + r.plannedSunBeyond) * h ==
           r.sunHeld * h + r.useAdded * h - r.sunBeyond * h + r.plannedSunBeyond * h;
  }

  lemma {:induction false} TimesNonNegative(x: real, h: real)
    requires x >= 0.0 && h >= 0.0
    ensures x * h >= 0.0
  {
  }

  /** The spare sun a plan gives up is never more than the sun it holds back plus the use it adds. */
  lemma {:induction false} SpareSunIsExplained(actions: seq<Action>, from: real, until: real)
    ensures var m := Sums(actions, from, until); m.sunBeyond - m.plannedSunBeyond <= m.sunHeld + m.useAdded
  {
    if actions != [] {
      var last := actions[|actions| - 1];
      SpareSunIsExplained(actions[..|actions| - 1], from, until);
      if last.Known() {
        SpareSunOfOne(last, Shown(last, from, until) / MS_PER_HOUR);
      }
    }
  }

  /** What the four sums of one action tell. */
  predicate SunBeyond(a: Action)
    requires a.Known()
  {
    Max(0.0, -a.forecastPv.value) > Max(0.0, a.forecastLoad.value)
  }

  predicate PlannedSunBeyond(a: Action)
    requires a.Known()
  {
    Max(0.0, -a.pv.value) > Max(0.0, a.load.value)
  }

  predicate HoldsSun(a: Action)
    requires a.Known()
  {
    Max(0.0, -a.pv.value) < Max(0.0, -a.forecastPv.value)
  }

  predicate AddsUse(a: Action)
    requires a.Known()
  {
    Max(0.0, a.load.value) > Max(0.0, a.forecastLoad.value)
  }

  /** The sums are never negative, and each is positive exactly when a shown action gives it reason to be. */
  ghost predicate Telling(m: Margins, actions: seq<Action>, from: real, until: real) {
    && m.sunBeyond >= 0.0 && m.plannedSunBeyond >= 0.0 && m.sunHeld >= 0.0 && m.useAdded >= 0.0
    && (m.sunBeyond > 0.0 <==> exists a :: a in actions && Counted(a, from, until) && SunBeyond(a))
    && (m.plannedSunBeyond > 0.0 <==> exists a :: a in actions && Counted(a, from, until) && PlannedSunBeyond(a))
    && (m.sunHeld > 0.0 <==> exists a :: a in actions && Counted(a, from, until) && HoldsSun(a))
    && (m.useAdded > 0.0 <==> exists a :: a in actions && Counted(a, from, until) && AddsUse(a))
  }

  predicate Counted(a: Action, from: real, until: real) { a.Known() && Shown(a, from, until) > 0.0 }

  lemma {:induction false} PartTells(x: real, h: real)
    requires x >= 0.0 && h >= 0.0
    ensures x / 1000.0 * (h / MS_PER_HOUR) >= 0.0
    ensures x / 1000.0 * (h / MS_PER_HOUR) > 0.0 <==> x > 0.0 && h > 0.0
  {
    var p, q := x / 1000.0, h / MS_PER_HOUR;
    assert p >= 0.0 && q >= 0.0 && (p > 0.0 <==> x > 0.0) && (q > 0.0 <==> h > 0.0);
    ProductTells(p, q);
  }

  lemma {:induction false} ProductTells(p: real, q: real)
    requires p >= 0.0 && q >= 0.0
    ensures p * q >= 0.0 && (p * q > 0.0 <==> p > 0.0 && q > 0.0)
  {
  }

  lemma {:induction false} OneTells(a: Action, from: real, until: real)
    requires a.Known()
    ensures var m := Scaled(Rate(a), Shown(a, from, until) / MS_PER_HOUR);
            && m.sunBeyond >= 0.0 && m.plannedSunBeyond >= 0.0 && m.sunHeld >= 0.0 && m.useAdded >= 0.0
            && (m.sunBeyond > 0.0 <==> Counted(a, from, until) && SunBeyond(a))
            && (m.plannedSunBeyond > 0.0 <==> Counted(a, from, until) && PlannedSunBeyond(a))
            && (m.sunHeld > 0.0 <==> Counted(a, from, until) && HoldsSun(a))
            && (m.useAdded > 0.0 <==> Counted(a, from, until) && AddsUse(a))
  {
    hide Shown;
    var h := Shown(a, from, until);
    var sun, planned := Max(0.0, -a.forecastPv.value), Max(0.0, -a.pv.value);
    var use, plannedUse := Max(0.0, a.forecastLoad.value), Max(0.0, a.load.value);
    ShownIsLength(a, from, until);
    ExcessTells(sun, use, h);
    ExcessTells(planned, plannedUse, h);
    ExcessTells(sun, planned, h);
    ExcessTells(plannedUse, use, h);
  }

  lemma {:induction false} ShownIsLength(a: Action, from: real, until: real)
    ensures Shown(a, from, until) >= 0.0
  {
  }

  /** What x has over y, shown for h. */
  lemma {:induction false} ExcessTells(x: real, y: real, h: real)
    requires h >= 0.0
    ensures var e := Max(0.0, x - y) / 1000.0 * (h / MS_PER_HOUR);
            e >= 0.0 && (e > 0.0 <==> h > 0.0 && x > y)
  {
    PartTells(Max(0.0, x - y), h);
  }

  lemma {:induction false} SumsTell(actions: seq<Action>, from: real, until: real)
    ensures Telling(Sums(actions, from, until), actions, from, until)
  {
    if actions != [] {
      var before, last := actions[..|actions| - 1], actions[|actions| - 1];
      SumsTell(before, from, until);
      assert actions == before + [last];
      assert forall a :: a in actions <==> a in before || a == last;
      if last.Known() {
        OneTells(last, from, until);
      }
    }
  }

  /** What x is above y, and above nothing. */
  function Above(x: real, y: real): real { if x > y then x - y else 0.0 }

  /** How long the view shows an action that runs from its start, or later from its execution. */
  function ShownMs(a: Action, from: real, until: real): real {
    var left := if a.executionStart > a.start then a.executionStart else a.start;
    var right := a.start + a.lengthMs;
    Above(if right < until then right else until, if left > from then left else from)
  }

  lemma {:induction false} Energy(w: real, ms: real)
    ensures w / 1000.0 * (ms / MS_PER_HOUR) * 3600000000.0 == w * ms
  {
    assert w / 1000.0 * (ms / MS_PER_HOUR) == w * ms / 3600000000.0;
  }

  lemma {:induction false} ExcessEnergy(x: real, y: real, ms: real)
    ensures Max(0.0, x - y) / 1000.0 * (ms / MS_PER_HOUR) * 3600000000.0 == Above(x, y) * ms
  {
    Energy(Max(0.0, x - y), ms);
  }

  lemma {:induction false} ShownIsMs(a: Action, from: real, until: real)
    ensures Shown(a, from, until) == ShownMs(a, from, until)
  {
  }

  lemma {:induction false} OnlyPart(a: Action, from: real, until: real)
    ensures Sums([a], from, until) ==
            if a.Known() then Scaled(Rate(a), Shown(a, from, until) / MS_PER_HOUR) else ZERO
  {
    assert [a][..0] == [];
  }

  lemma {:induction false} AboveNothing(x: real)
    ensures Max(0.0, x) == Above(x, 0.0)
  {
  }

  lemma {:induction false} RateEnergy(a: Action, ms: real)
    requires a.Known()
    ensures var m := Scaled(Rate(a), ms / MS_PER_HOUR);
            var sun, planned := Above(-a.forecastPv.value, 0.0), Above(-a.pv.value, 0.0);
            var use, plannedUse := Above(a.forecastLoad.value, 0.0), Above(a.load.value, 0.0);
            && m.sunBeyond * 3600000000.0 == Above(sun, use) * ms
            && m.plannedSunBeyond * 3600000000.0 == Above(planned, plannedUse) * ms
            && m.sunHeld * 3600000000.0 == Above(sun, planned) * ms
            && m.useAdded * 3600000000.0 == Above(plannedUse, use) * ms
  {
    hide Max, Above;
    AboveNothing(-a.forecastPv.value);
    AboveNothing(-a.pv.value);
    AboveNothing(a.forecastLoad.value);
    AboveNothing(a.load.value);
    var sun, planned := Above(-a.forecastPv.value, 0.0), Above(-a.pv.value, 0.0);
    var use, plannedUse := Above(a.forecastLoad.value, 0.0), Above(a.load.value, 0.0);
    ExcessEnergy(sun, use, ms);
    ExcessEnergy(planned, plannedUse, ms);
    ExcessEnergy(sun, planned, ms);
    ExcessEnergy(plannedUse, use, ms);
  }

  /** One action's part in the sums, as watts times milliseconds, of which a kWh has 3.6 thousand million: the
      sun there is above the use there is, forecast and planned, and what the plan takes from the sun and adds
      to the use. */
  lemma {:induction false} OneAction(a: Action, from: real, until: real)
    ensures !a.Known() ==> Sums([a], from, until) == ZERO
    ensures a.Known() ==>
              var m, ms := Sums([a], from, until), ShownMs(a, from, until);
              var sun, planned := Above(-a.forecastPv.value, 0.0), Above(-a.pv.value, 0.0);
              var use, plannedUse := Above(a.forecastLoad.value, 0.0), Above(a.load.value, 0.0);
              && m.sunBeyond * 3600000000.0 == Above(sun, use) * ms
              && m.plannedSunBeyond * 3600000000.0 == Above(planned, plannedUse) * ms
              && m.sunHeld * 3600000000.0 == Above(sun, planned) * ms
              && m.useAdded * 3600000000.0 == Above(plannedUse, use) * ms
  {
    hide Sums, Shown, ShownMs, Above, Rate, Scaled;
    OnlyPart(a, from, until);
    ShownIsMs(a, from, until);
    if a.Known() {
      RateEnergy(a, ShownMs(a, from, until));
    }
  }

  /** And every action has its part. */
  lemma {:induction false} PartsAdd(p: seq<Action>, q: seq<Action>, from: real, until: real)
    ensures Sums(p + q, from, until) == Add(Sums(p, from, until), Sums(q, from, until))
  {
    if q == [] {
      assert p + q == p;
    } else {
      PartsAdd(p, q[..|q| - 1], from, until);
      assert (p + q)[..|p + q| - 1] == p + q[..|q| - 1];
    }
  }

  // ---- chargingPlan ----

  datatype Window = Window(start: Option<real>, end: Option<real>, wh: Option<real>)

  datatype Planned = Planned(start: real, end: real, wh: real, partial: bool)

  predicate InView(w: Window, from: real, until: real) {
    && w.start.Some? && w.end.Some? && w.wh.Some?
    && w.end.value > w.start.value && w.wh.value > 0.0
    && w.end.value > from && w.start.value < until
  }

  /** The part of the energy that this part of the length has. */
  function Part(wh: real, shown: real, length: real): real
    requires length > 0.0
  {
    wh * shown / length
  }

  function Clip(w: Window, from: real, until: real): Planned
    requires InView(w, from, until)
  {
    var left, right := Max(from, w.start.value), Min(until, w.end.value);
    Planned(left, right, Part(w.wh.value, right - left, w.end.value - w.start.value),
            left != w.start.value || right != w.end.value)
  }

  function ClipAll(ws: seq<Window>, from: real, until: real): seq<Planned> {
    if ws == [] then []
    else (if InView(ws[0], from, until) then [Clip(ws[0], from, until)] else []) + ClipAll(ws[1..], from, until)
  }

  function Insert(p: Planned, ps: seq<Planned>): seq<Planned> {
    if ps == [] || p.start <= ps[0].start then [p] + ps else [ps[0]] + Insert(p, ps[1..])
  }

  function SortByStart(ps: seq<Planned>): seq<Planned> {
    if ps == [] then [] else Insert(ps[0], SortByStart(ps[1..]))
  }

  function TotalWh(ps: seq<Planned>): real {
    if ps == [] then 0.0 else ps[0].wh + TotalWh(ps[1..])
  }

  /** The windows chargingPlan shows when it has no message, and their energy. */
  function ChargingPlan(ws: seq<Window>, from: real, until: real): (seq<Planned>, real) {
    var windows := SortByStart(ClipAll(ws, from, until));
    (windows, TotalWh(windows))
  }

  lemma {:induction false} InsertTotal(p: Planned, ps: seq<Planned>)
    ensures TotalWh(Insert(p, ps)) == p.wh + TotalWh(ps)
  {
    if ps == [] || p.start <= ps[0].start {
      assert ([p] + ps)[1..] == ps;
    } else {
      InsertTotal(p, ps[1..]);
      assert ([ps[0]] + Insert(p, ps[1..]))[1..] == Insert(p, ps[1..]);
    }
  }

  lemma {:induction false} SortTotal(ps: seq<Planned>)
    ensures TotalWh(SortByStart(ps)) == TotalWh(ps)
  {
    if ps != [] {
      SortTotal(ps[1..]);
      InsertTotal(ps[0], SortByStart(ps[1..]));
    }
  }

  /** The energy one window puts into a view. */
  function Share(w: Window, from: real, until: real): real {
    if InView(w, from, until) then Clip(w, from, until).wh else 0.0
  }

  lemma {:induction false} ShareIsProrated(w: Window, from: real, until: real)
    requires from <= until && w.start.Some? && w.end.Some? && w.wh.Some?
    requires w.end.value > w.start.value && w.wh.value > 0.0
    ensures Share(w, from, until) ==
            w.wh.value / (w.end.value - w.start.value) * Overlap(w.start.value, w.end.value, from, until)
  {
    var length := w.end.value - w.start.value;
    var d := Overlap(w.start.value, w.end.value, from, until);
    if InView(w, from, until) {
      assert d == Min(until, w.end.value) - Max(from, w.start.value);
      Prorate(w.wh.value, d, length);
    }
  }

  /** A window is marked partial exactly when less than its energy is shown. */
  lemma {:induction false} PartialShowsLess(w: Window, from: real, until: real)
    requires from <= until && InView(w, from, until)
    ensures Clip(w, from, until).partial <==> Clip(w, from, until).wh < w.wh.value
  {
    var length := w.end.value - w.start.value;
    var d := Overlap(w.start.value, w.end.value, from, until);
    ShareIsProrated(w, from, until);
    RateTimes(w.wh.value, d, length);
    assert Clip(w, from, until).partial <==> d < length;
  }

  lemma {:induction false} RateTimes(wh: real, d: real, length: real)
    requires wh > 0.0 && length > 0.0 && d <= length
    ensures wh / length * d < wh <==> d < length
  {
    var q := wh / length;
    assert q * length == wh;
    assert q > 0.0;
    if d < length {
      assert q * (length - d) > 0.0;
      assert q * (length - d) == wh - q * d;
    }
  }

  lemma {:induction false} Prorate(wh: real, d: real, length: real)
    requires length > 0.0
    ensures wh * d / length == wh / length * d
  {
    var q := wh / length;
    assert q * length == wh;
    assert (q * d) * length == wh * d;
  }

  /** A window's energy in a view, spread evenly over its length. */
  function Spread(w: Window, from: real, until: real): real {
    if w.start.Some? && w.end.Some? && w.wh.Some? && w.end.value > w.start.value && w.wh.value > 0.0
    then w.wh.value / (w.end.value - w.start.value) * Overlap(w.start.value, w.end.value, from, until) else 0.0
  }

  function SpreadTotal(ws: seq<Window>, from: real, until: real): real {
    if ws == [] then 0.0 else Spread(ws[0], from, until) + SpreadTotal(ws[1..], from, until)
  }

  lemma {:induction false} ShareIsSpread(w: Window, from: real, until: real)
    requires from <= until
    ensures Share(w, from, until) == Spread(w, from, until)
  {
    if w.start.Some? && w.end.Some? && w.wh.Some? && w.end.value > w.start.value && w.wh.value > 0.0 {
      ShareIsProrated(w, from, until);
    }
  }

  /** The energy shown is each window's rate times what the view shows of it. */
  lemma {:induction false} ClipTotalIsSpread(ws: seq<Window>, from: real, until: real)
    requires from <= until
    ensures TotalWh(ClipAll(ws, from, until)) == SpreadTotal(ws, from, until)
  {
    if ws != [] {
      ClipTotalIsSpread(ws[1..], from, until);
      FirstShare(ws, from, until);
      ShareIsSpread(ws[0], from, until);
    }
  }

  lemma {:induction false} SpreadAdds(w: Window, a: real, b: real, c: real)
    requires a <= b <= c
    ensures Spread(w, a, c) == Spread(w, a, b) + Spread(w, b, c)
  {
    if w.start.Some? && w.end.Some? && w.wh.Some? && w.end.value > w.start.value && w.wh.value > 0.0 {
      OverlapAdds(w.start.value, w.end.value, a, b, c);
      Distribute(w.wh.value / (w.end.value - w.start.value),
        Overlap(w.start.value, w.end.value, a, b), Overlap(w.start.value, w.end.value, b, c));
    }
  }

  lemma {:induction false} SpreadTotalAdds(ws: seq<Window>, a: real, b: real, c: real)
    requires a <= b <= c
    ensures SpreadTotal(ws, a, c) == SpreadTotal(ws, a, b) + SpreadTotal(ws, b, c)
  {
    if ws != [] {
      SpreadTotalAdds(ws[1..], a, b, c);
      SpreadAdds(ws[0], a, b, c);
    }
  }

  lemma {:induction false} FirstShare(ws: seq<Window>, from: real, until: real)
    requires ws != []
    ensures TotalWh(ClipAll(ws, from, until)) == Share(ws[0], from, until) + TotalWh(ClipAll(ws[1..], from, until))
  {
    var rest := ClipAll(ws[1..], from, until);
    if InView(ws[0], from, until) {
      assert ([Clip(ws[0], from, until)] + rest)[1..] == rest;
    } else {
      assert [] + rest == rest;
    }
  }

  /** The energy of a plan is that of its windows, however sorted. */
  lemma {:induction false} PlannedEnergyIsSpread(ws: seq<Window>, from: real, until: real)
    requires from <= until
    ensures ChargingPlan(ws, from, until).1 == SpreadTotal(ws, from, until)
  {
    SortTotal(ClipAll(ws, from, until));
    ClipTotalIsSpread(ws, from, until);
  }

  /** Planned car energy over a window is that of its two parts. */
  lemma {:induction false} PlannedEnergyAdds(ws: seq<Window>, a: real, b: real, c: real)
    requires a <= b <= c
    ensures ChargingPlan(ws, a, c).1 == ChargingPlan(ws, a, b).1 + ChargingPlan(ws, b, c).1
  {
    PlannedEnergyIsSpread(ws, a, c);
    PlannedEnergyIsSpread(ws, a, b);
    PlannedEnergyIsSpread(ws, b, c);
    SpreadTotalAdds(ws, a, b, c);
  }

  /** The windows shown are those with energy, all their numbers known, that the view meets: each is cut to the
      view, with the energy its length in the view has at the window's own rate. */
  lemma {:induction false} ShownWindows(ws: seq<Window>, from: real, until: real, p: Planned)
    requires from < until
    ensures p in ChargingPlan(ws, from, until).0 <==>
            exists w :: w in ws && w.start.Some? && w.end.Some? && w.wh.Some? && IsCut(p, w.start.value, w.end.value, w.wh.value, from, until)
  {
    var clipped := ClipAll(ws, from, until);
    SortIsInOrder(clipped);
    assert p in multiset(clipped) <==> p in multiset(SortByStart(clipped));
    InClipAll(ws, from, until, p);
    forall w: Window | w.start.Some? && w.end.Some? && w.wh.Some?
      ensures InView(w, from, until) && p == Clip(w, from, until) <==>
              IsCut(p, w.start.value, w.end.value, w.wh.value, from, until)
    {
      CutIsClip(w, from, until, p);
    }
  }

  ghost predicate IsCut(p: Planned, start: real, end: real, wh: real, from: real, until: real) {
    && wh > 0.0 && start < end && from <= p.start < p.end <= until
    && (p.start == start || (p.start == from && start < from)) && (p.end == end || (p.end == until && until < end))
    && p.wh * (end - start) == wh * (p.end - p.start)
    && (p.partial <==> p.end - p.start < end - start)
  }

  lemma {:induction false} InClipAll(ws: seq<Window>, from: real, until: real, p: Planned)
    ensures p in ClipAll(ws, from, until) <==> exists w :: w in ws && InView(w, from, until) && p == Clip(w, from, until)
  {
    if ws != [] {
      InClipAll(ws[1..], from, until, p);
      assert ws == [ws[0]] + ws[1..];
    }
  }

  lemma {:induction false} CutIsClip(w: Window, from: real, until: real, p: Planned)
    requires from < until && w.start.Some? && w.end.Some? && w.wh.Some?
    ensures InView(w, from, until) && p == Clip(w, from, until) <==>
            IsCut(p, w.start.value, w.end.value, w.wh.value, from, until)
  {
    hide Clip, Part;
    var start, end, wh := w.start.value, w.end.value, w.wh.value;
    if InView(w, from, until) {
      var c := Clip(w, from, until);
      ClipWh(w, from, until);
      CutWh(p.wh, c.wh, wh, end - start, c.end - c.start);
      if IsCut(p, start, end, wh, from, until) {
        assert p.start == c.start && p.end == c.end;
      }
    }
  }

  lemma {:induction false} ClipWh(w: Window, from: real, until: real)
    requires InView(w, from, until)
    ensures var c, length := Clip(w, from, until), w.end.value - w.start.value;
            c.wh == Part(w.wh.value, c.end - c.start, length)
    ensures var c := Clip(w, from, until);
            && c.start == Max(from, w.start.value) && c.end == Min(until, w.end.value)
            && (c.partial <==> c.start != w.start.value || c.end != w.end.value)
  {
    hide Part;
  }

  lemma {:induction false} CutWh(p: real, c: real, wh: real, length: real, shown: real)
    requires length > 0.0 && c == Part(wh, shown, length)
    ensures p * length == wh * shown <==> p == c
  {
    assert c * length == wh * shown;
    if p * length == wh * shown {
      SameQuotient(p, c, length);
    }
  }

  lemma {:induction false} SameQuotient(x: real, y: real, d: real)
    requires d > 0.0 && x * d == y * d
    ensures x == y
  {
    assert (x - y) * d == x * d - y * d;
    assert (y - x) * d == y * d - x * d;
    if x > y { TimesPositive(x - y, d); }
    if x < y { TimesPositive(y - x, d); }
  }

  lemma {:induction false} TimesPositive(x: real, d: real)
    requires x > 0.0 && d > 0.0
    ensures x * d > 0.0
  {
  }

  lemma {:induction false} InsertKeepsOrder(p: Planned, ps: seq<Planned>)
    requires InOrder(ps)
    ensures InOrder(Insert(p, ps)) && Insert(p, ps) != []
    ensures ps != [] ==> Insert(p, ps)[0].start == Min(p.start, ps[0].start)
    ensures ps == [] ==> Insert(p, ps)[0].start == p.start
  {
    if ps != [] && p.start > ps[0].start {
      InsertKeepsOrder(p, ps[1..]);
      assert Insert(p, ps)[1..] == Insert(p, ps[1..]);
    } else {
      assert ([p] + ps)[1..] == ps;
    }
  }

  predicate InOrder(ps: seq<Planned>) {
    |ps| <= 1 || (ps[0].start <= ps[1].start && InOrder(ps[1..]))
  }

  lemma {:induction false} InsertKeepsAll(p: Planned, ps: seq<Planned>)
    ensures multiset(Insert(p, ps)) == multiset{p} + multiset(ps)
  {
    if ps != [] && p.start > ps[0].start {
      InsertKeepsAll(p, ps[1..]);
      assert ps == [ps[0]] + ps[1..];
    }
  }

  /** The windows shown are the clipped ones, in order of their start. */
  lemma {:induction false} SortIsInOrder(ps: seq<Planned>)
    ensures InOrder(SortByStart(ps))
    ensures multiset(SortByStart(ps)) == multiset(ps)
  {
    if ps != [] {
      SortIsInOrder(ps[1..]);
      InsertKeepsAll(ps[0], SortByStart(ps[1..]));
      assert ps == [ps[0]] + ps[1..];
      InsertKeepsOrder(ps[0], SortByStart(ps[1..]));
    }
  }
}
