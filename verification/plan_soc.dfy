/** web/plan-soc.js: the battery level of each slot of a plan, over the reals. A field that is absent or
    not a finite number is None. */
module PlanSoc {
  import opened Wrappers

  datatype Action = Action(
    soc: Option<real>,
    socPct: Option<real>,
    stored: seq<Option<real>>,     // the values of storage_energy_wh, empty when it is no object
    batteryW: Option<real>,
    slotLenMin: Option<real>)

  datatype Options = Options(chargeEff: Option<real>, dischargeEff: Option<real>)

  function Positive(x: Option<real>): (b: bool)
    ensures b <==> x.Some? && x.value > 0.0
  {
    x.Some? && x.value > 0.0
  }

  /** The sum of the finite values among the first ones, and whether there was any. */
  function SumFinite(stored: seq<Option<real>>): Option<real> {
    if stored == [] then None else
    var rest := SumFinite(stored[..|stored| - 1]);
    var last := stored[|stored| - 1];
    if last.None? then rest else Some((if rest.Some? then rest.value else 0.0) + last.value)
  }

  method StorageEnergyWh(stored: seq<Option<real>>) returns (r: Option<real>)
    ensures r == SumFinite(stored)
  {
    var sum, any := 0.0, false;
    for i := 0 to |stored|
      invariant (if any then Some(sum) else None) == SumFinite(stored[..i])
      invariant !any ==> sum == 0.0
    {
      assert stored[..i + 1][..i] == stored[..i];
      if stored[i].None? {
        continue;
      }
      sum := sum + stored[i].value;
      any := true;
    }
    assert stored[..|stored|] == stored;
    r := if any then Some(sum) else None;
  }

  function ClampFrac(soc: real): real {
    var low := if soc > 0.0 then soc else 0.0;
    if low < 1.0 then low else 1.0
  }

  function LegacyPercentToFrac(pct: Option<real>): Option<real> {
    if pct.None? then None else Some(pct.value / 100.0)
  }

  function Efficiency(e: Option<real>): (r: real)
    ensures r > 0.0
  {
    if Positive(e) then e.value else 0.95
  }

  function IntegrateBatteryWh(batteryW: Option<real>, slotLenMin: Option<real>, opts: Options): real {
    if batteryW.None? || !Positive(slotLenMin) then 0.0 else
    var hours := slotLenMin.value / 60.0;
    if batteryW.value >= 0.0 then batteryW.value * hours * Efficiency(opts.chargeEff)
    else batteryW.value * hours / Efficiency(opts.dischargeEff)
  }

  function ActionSoC(a: Action, capacityWh: Option<real>, prevSoC: Option<real>, opts: Options): Option<real> {
    if a.soc.Some? then a.soc
    else if a.socPct.Some? then LegacyPercentToFrac(a.socPct)
    else
      var stored := SumFinite(a.stored);
      if stored.Some? && Positive(capacityWh) then Some(ClampFrac(stored.value / capacityWh.value))
      else if prevSoC.None? || !Positive(capacityWh) then None
      else Some(ClampFrac(prevSoC.value + IntegrateBatteryWh(a.batteryW, a.slotLenMin, opts) / capacityWh.value))
  }

  function Fill(a: Action, soc: Option<real>): Action { if soc.Some? then a.(soc := soc) else a }

  function Later(prev: Option<real>, soc: Option<real>): Option<real> { if soc.Some? then soc else prev }

  /** The level known after the given slots. */
  function LevelAfter(actions: seq<Action>, capacityWh: Option<real>, start: Option<real>, opts: Options): Option<real> {
    if actions == [] then start else
    var prev := LevelAfter(actions[..|actions| - 1], capacityWh, start, opts);
    Later(prev, ActionSoC(actions[|actions| - 1], capacityWh, prev, opts))
  }

  /** What slot i holds once the plan is filled. */
  function FilledAt(actions: seq<Action>, i: nat, capacityWh: Option<real>, start: Option<real>, opts: Options): Action
    requires i < |actions|
  {
    Fill(actions[i], ActionSoC(actions[i], capacityWh, LevelAfter(actions[..i], capacityWh, start, opts), opts))
  }

  /** ActionSoC with its own loop over the stored energy. */
  method ComputeActionSoC(a: Action, capacityWh: Option<real>, prevSoC: Option<real>, opts: Options)
    returns (r: Option<real>)
    ensures r == ActionSoC(a, capacityWh, prevSoC, opts)
  {
    if a.soc.Some? {
      return a.soc;
    }
    var legacy := LegacyPercentToFrac(a.socPct);
    if legacy.Some? {
      return legacy;
    }
    var stored := StorageEnergyWh(a.stored);
    if stored.Some? && Positive(capacityWh) {
      return Some(ClampFrac(stored.value / capacityWh.value));
    }
    if prevSoC.None? || !Positive(capacityWh) {
      return None;
    }
    var deltaWh := IntegrateBatteryWh(a.batteryW, a.slotLenMin, opts);
    r := Some(ClampFrac(prevSoC.value + deltaWh / capacityWh.value));
  }

  /** The whole plan once filled. */
  function Filled(actions: seq<Action>, capacityWh: Option<real>, start: Option<real>, opts: Options): (r: seq<Action>)
    ensures |r| == |actions|
    ensures forall i :: 0 <= i < |r| ==> r[i] == FilledAt(actions, i, capacityWh, start, opts)
  {
    seq(|actions|, i requires 0 <= i < |actions| => FilledAt(actions, i, capacityWh, start, opts))
  }

  method FillPlanSoC(actions: array<Action>, capacityWh: Option<real>, initialSoc: Option<real>,
                     initialSocPct: Option<real>, opts: Options)
    modifies actions
    ensures var start := if initialSoc.Some? then initialSoc
                         else if initialSocPct.Some? then Some(initialSocPct.value / 100.0) else None;
            actions[..] == Filled(old(actions[..]), capacityWh, start, opts)
  {
    ghost var was := actions[..];
    var prevSoC := if initialSoc.Some? then initialSoc else LegacyPercentToFrac(initialSocPct);
    ghost var start := prevSoC;
    for i := 0 to actions.Length
      invariant prevSoC == LevelAfter(was[..i], capacityWh, start, opts)
      invariant forall j :: 0 <= j < i ==> actions[j] == FilledAt(was, j, capacityWh, start, opts)
      invariant forall j :: i <= j < actions.Length ==> actions[j] == was[j]
    {
      assert was[..i + 1][..i] == was[..i];
      var soc := ComputeActionSoC(actions[i], capacityWh, prevSoC, opts);
      if soc.None? {
        continue;
      }
      actions[i] := actions[i].(soc := soc);
      prevSoC := soc;
    }
  }

  // ---- what filling keeps ----

  /** A slot's value, once filled in, is what the slot gives again whatever came before it. */
  lemma {:induction false} SameLevelAgain(actions: seq<Action>, i: nat, capacityWh: Option<real>, start: Option<real>,
                                          opts: Options)
    requires i <= |actions|
    ensures LevelAfter(Filled(actions, capacityWh, start, opts)[..i], capacityWh, start, opts) ==
            LevelAfter(actions[..i], capacityWh, start, opts)
  {
    if i > 0 {
      SameLevelAgain(actions, i - 1, capacityWh, start, opts);
      assert Filled(actions, capacityWh, start, opts)[..i][..i - 1] == Filled(actions, capacityWh, start, opts)[..i - 1];
      assert actions[..i][..i - 1] == actions[..i - 1];
    }
  }

  /** Filling a filled plan changes nothing. */
  lemma {:induction false} FillTwice(actions: seq<Action>, capacityWh: Option<real>, start: Option<real>, opts: Options)
    ensures var once := Filled(actions, capacityWh, start, opts); Filled(once, capacityWh, start, opts) == once
  {
    var once := Filled(actions, capacityWh, start, opts);
    forall i | 0 <= i < |actions| ensures FilledAt(once, i, capacityWh, start, opts) == once[i] {
      SameLevelAgain(actions, i, capacityWh, start, opts);
    }
  }

  /** A slot with a level keeps it, and only the level of a slot is ever written. */
  lemma {:induction false} FiniteSlotsStay(actions: seq<Action>, i: nat, capacityWh: Option<real>, start: Option<real>, opts: Options)
    requires i < |actions|
    ensures var r := Filled(actions, capacityWh, start, opts)[i];
            && (actions[i].soc.Some? ==> r == actions[i])
            && r.(soc := actions[i].soc) == actions[i]
  {
  }

  /** The slots from which on every level is known: a finite start and capacity leave no gap at all, and
      else the first slot with a level of its own starts the run. */
  lemma {:induction false} NoGap(actions: seq<Action>, i: nat, k: nat, capacityWh: Option<real>, start: Option<real>,
                                 opts: Options)
    requires i <= k < |actions| && Positive(capacityWh)
    requires LevelAfter(actions[..i], capacityWh, start, opts).Some?
    ensures LevelAfter(actions[..k], capacityWh, start, opts).Some?
    ensures Filled(actions, capacityWh, start, opts)[k].soc.Some?
  {
    if i < k {
      NoGap(actions, i, k - 1, capacityWh, start, opts);
      assert actions[..k][..k - 1] == actions[..k - 1];
    }
  }

  /** A slot says its own level. */
  predicate Own(a: Action, capacityWh: Option<real>) {
    a.soc.Some? || a.socPct.Some? || (SumFinite(a.stored).Some? && Positive(capacityWh))
  }

  /** Exactly which slots end with a level. */
  lemma {:induction false} KnownWhen(actions: seq<Action>, k: nat, capacityWh: Option<real>, start: Option<real>,
                                     opts: Options)
    requires k < |actions|
    ensures Filled(actions, capacityWh, start, opts)[k].soc.Some? <==>
            || Own(actions[k], capacityWh)
            || (Positive(capacityWh) &&
                (start.Some? || exists j :: 0 <= j < k && Own(actions[j], capacityWh)))
  {
    LevelKnownWhen(actions, k, capacityWh, start, opts);
  }

  lemma {:induction false} LevelKnownWhen(actions: seq<Action>, k: nat, capacityWh: Option<real>,
                                          start: Option<real>, opts: Options)
    requires k <= |actions|
    ensures LevelAfter(actions[..k], capacityWh, start, opts).Some? <==>
            start.Some? || exists j :: 0 <= j < k && Own(actions[j], capacityWh)
  {
    if k > 0 {
      LevelKnownWhen(actions, k - 1, capacityWh, start, opts);
      assert actions[..k][..k - 1] == actions[..k - 1];
      var prev := LevelAfter(actions[..k - 1], capacityWh, start, opts);
      assert ActionSoC(actions[k - 1], capacityWh, prev, opts).Some? <==>
             Own(actions[k - 1], capacityWh) || (prev.Some? && Positive(capacityWh));
    }
  }

  /** A level worked out from energy is a fraction; one the slot states itself is passed on as it is. */
  lemma {:induction false} LevelsFromEnergy(actions: seq<Action>, i: nat, capacityWh: Option<real>, start: Option<real>, opts: Options)
    requires i < |actions|
    ensures var soc := Filled(actions, capacityWh, start, opts)[i].soc;
            if actions[i].soc.Some? then soc == actions[i].soc
            else if actions[i].socPct.Some? then soc == Some(actions[i].socPct.value / 100.0)
            else soc.Some? ==> 0.0 <= soc.value <= 1.0
  {
  }

  /** The level that counts before slot i: that of the slot before it once filled, or the start. */
  function Before(filled: seq<Action>, i: nat, start: Option<real>): Option<real>
    requires i <= |filled|
  {
    if i == 0 then start else filled[i - 1].soc
  }

  /** With a capacity, the filled slots themselves carry the level along. */
  lemma {:induction false} LevelIsBefore(actions: seq<Action>, i: nat, capacityWh: Option<real>, start: Option<real>,
                                         opts: Options)
    requires i <= |actions| && Positive(capacityWh)
    ensures LevelAfter(actions[..i], capacityWh, start, opts) == Before(Filled(actions, capacityWh, start, opts), i, start)
  {
    hide ActionSoC;
    if i > 0 {
      assert actions[..i][..i - 1] == actions[..i - 1];
      var prev := LevelAfter(actions[..i - 1], capacityWh, start, opts);
      NoneOnlyFromNone(actions[i - 1], capacityWh, prev, opts);
    }
  }

  lemma {:induction false} NoneOnlyFromNone(a: Action, capacityWh: Option<real>, prev: Option<real>, opts: Options)
    requires Positive(capacityWh)
    ensures ActionSoC(a, capacityWh, prev, opts).None? ==> prev.None? && a.soc.None?
  {
  }

  /** No stored energy is stated as a finite number. */
  predicate NothingStored(a: Action) { forall k :: 0 <= k < |a.stored| ==> a.stored[k].None? }

  lemma {:induction false} NothingToSum(stored: seq<Option<real>>)
    ensures SumFinite(stored).None? <==> forall k :: 0 <= k < |stored| ==> stored[k].None?
  {
    if stored != [] {
      NothingToSum(stored[..|stored| - 1]);
    }
  }

  /** Held between empty and full. */
  predicate Clamped(level: real, raw: real) {
    level == if raw <= 0.0 then 0.0 else if raw >= 1.0 then 1.0 else raw
  }

  /** A slot that states nothing moves the level before it by its battery power. Per unit of capacity the
      change is the energy times the charging efficiency, or for a discharge the energy divided by the
      discharging efficiency; each is 0.95 unless a positive one is given. Then it is held in range. */
  lemma {:induction false} LevelFromPower(actions: seq<Action>, i: nat, capacity: real, start: Option<real>, opts: Options)
    returns (raw: real)
    requires i < |actions| && capacity > 0.0
    requires actions[i].soc.None? && actions[i].socPct.None? && NothingStored(actions[i])
    requires Before(Filled(actions, Some(capacity), start, opts), i, start).Some?
    ensures var a, filled := actions[i], Filled(actions, Some(capacity), start, opts);
            var w := if a.batteryW.Some? then a.batteryW.value else 0.0;
            var minutes := if a.slotLenMin.Some? && a.slotLenMin.value > 0.0 then a.slotLenMin.value else 0.0;
            var charge := if opts.chargeEff.Some? && opts.chargeEff.value > 0.0 then opts.chargeEff.value else 0.95;
            var discharge := if opts.dischargeEff.Some? && opts.dischargeEff.value > 0.0 then opts.dischargeEff.value else 0.95;
            var stored := (raw - Before(filled, i, start).value) * capacity;
            && (w >= 0.0 ==> stored == w * minutes / 60.0 * charge)
            && (w < 0.0 ==> stored * discharge == w * minutes / 60.0)
            && filled[i].soc.Some? && Clamped(filled[i].soc.value, raw)
  {
    hide LevelAfter, IntegrateBatteryWh, Efficiency;
    LevelIsBefore(actions, i, Some(capacity), start, opts);
    var a, prev := actions[i], Before(Filled(actions, Some(capacity), start, opts), i, start).value;
    NothingToSum(a.stored);
    var delta := IntegrateBatteryWh(a.batteryW, a.slotLenMin, opts);
    raw := prev + delta / capacity;
    Moved(prev, delta, capacity);
    PowerStored(a, opts);
  }

  lemma {:induction false} Moved(prev: real, delta: real, capacity: real)
    requires capacity > 0.0
    ensures (prev + delta / capacity - prev) * capacity == delta
  {
    DividesBack(delta, capacity);
  }

  lemma {:induction false} Regroup(w: real, minutes: real)
    ensures w * (minutes / 60.0) == w * minutes / 60.0
  {
  }

  lemma {:induction false} PowerStored(a: Action, opts: Options)
    ensures var w := if a.batteryW.Some? then a.batteryW.value else 0.0;
            var minutes := if a.slotLenMin.Some? && a.slotLenMin.value > 0.0 then a.slotLenMin.value else 0.0;
            var charge := if opts.chargeEff.Some? && opts.chargeEff.value > 0.0 then opts.chargeEff.value else 0.95;
            var discharge := if opts.dischargeEff.Some? && opts.dischargeEff.value > 0.0 then opts.dischargeEff.value else 0.95;
            var stored := IntegrateBatteryWh(a.batteryW, a.slotLenMin, opts);
            && (w >= 0.0 ==> stored == w * minutes / 60.0 * charge)
            && (w < 0.0 ==> stored * discharge == w * minutes / 60.0)
  {
    if a.batteryW.Some? && a.slotLenMin.Some? && a.slotLenMin.value > 0.0 {
      Regroup(a.batteryW.value, a.slotLenMin.value);
      EnergyBalance(a.batteryW.value, a.slotLenMin.value, opts);
    }
  }

  /** A slot whose stored energy is stated shows it: its level times the capacity is the energy, or it is
      empty below nothing and full above the capacity. */
  lemma {:induction false} StoredLevel(actions: seq<Action>, i: nat, capacity: real, start: Option<real>, opts: Options)
    requires i < |actions| && capacity > 0.0
    requires actions[i].soc.None? && actions[i].socPct.None? && SumFinite(actions[i].stored).Some?
    ensures var soc, energy := Filled(actions, Some(capacity), start, opts)[i].soc, SumFinite(actions[i].stored).value;
            && soc.Some? && (0.0 <= energy <= capacity ==> soc.value * capacity == energy)
            && (energy < 0.0 ==> soc.value == 0.0) && (energy > capacity ==> soc.value == 1.0)
  {
    var energy := SumFinite(actions[i].stored).value;
    if 0.0 <= energy <= capacity {
      Share(energy, capacity);
    } else {
      OutOfRange(energy, capacity);
    }
  }

  lemma {:induction false} OutOfRange(x: real, c: real)
    requires c > 0.0
    ensures x < 0.0 ==> x / c < 0.0
    ensures x > c ==> x / c > 1.0
  {
    var q := x / c;
    assert q * c == x;
    if q > 0.0 { Times(q, 0.0, c); }
    if q < 1.0 { Times(1.0, q, c); }
  }

  /** The stored energy is the sum of the finite values: nothing for none, one for one, and over two lists
      the sum of their sums. */
  lemma {:induction false} SumsAdd(a: seq<Option<real>>, b: seq<Option<real>>, x: real)
    ensures SumFinite([]) == None && SumFinite([None]) == None && SumFinite([Some(x)]) == Some(x)
    ensures var p, q := SumFinite(a), SumFinite(b);
            SumFinite(a + b) == if p.None? then q else if q.None? then p else Some(p.value + q.value)
  {
    if b == [] {
      assert a + b == a;
    } else {
      SumsAdd(a, b[..|b| - 1], x);
      assert (a + b)[..|a + b| - 1] == a + b[..|b| - 1];
    }
    assert [Some(x)][..0] == [];
  }

  lemma {:induction false} Share(x: real, c: real)
    requires 0.0 <= x <= c && c > 0.0
    ensures 0.0 <= x / c <= 1.0 && x / c * c == x
  {
    var q := x / c;
    assert q * c == x;
    if q < 0.0 { Times(0.0, q, c); }
    if q > 1.0 { Times(q, 1.0, c); }
  }

  /** A charge stores its energy times the charge efficiency; what a discharge takes from the store, times
      the discharge efficiency, is the energy delivered. */
  lemma {:induction false} EnergyBalance(w: real, minutes: real, opts: Options)
    requires minutes > 0.0
    ensures var stored, energy := IntegrateBatteryWh(Some(w), Some(minutes), opts), w * (minutes / 60.0);
            if w >= 0.0 then stored == energy * Efficiency(opts.chargeEff)
            else stored * Efficiency(opts.dischargeEff) == energy
  {
    DividesBack(w * (minutes / 60.0), Efficiency(opts.dischargeEff));
  }

  lemma {:induction false} DividesBack(x: real, c: real)
    requires c > 0.0
    ensures x / c * c == x
  {
  }

  // ---- a charge and the discharge that mirrors it ----

  function PowerSlot(w: real, minutes: real): Action {
    Action(None, None, [], Some(w), Some(minutes))
  }

  lemma {:induction false} Divides(x: real, y: real, c: real)
    requires c > 0.0 && x <= y
    ensures x / c <= y / c
  {
  }

  lemma {:induction false} Times(p: real, q: real, c: real)
    requires c > 0.0 && p > q
    ensures p * c > q * c
  {
  }

  lemma {:induction false} GainWithin(energy: real, charge: real)
    requires energy >= 0.0 && 0.0 < charge <= 1.0
    ensures 0.0 <= energy * charge <= energy
  {
  }

  lemma {:induction false} NegativeQuotient(x: real, c: real, q: real)
    requires c > 0.0 && q * c == x
    ensures -x / c == -q
  {
    var p := -x / c;
    DividesBack(-x, c);
    assert (p + q) * c == p * c + q * c;
    if p + q > 0.0 { Times(p + q, 0.0, c); }
    if p + q < 0.0 { Times(0.0, p + q, c); }
  }

  lemma {:induction false} LossAtLeast(energy: real, discharge: real)
    requires energy >= 0.0 && 0.0 < discharge <= 1.0
    ensures -energy / discharge <= -energy
  {
    var q := energy / discharge;
    assert q * discharge == energy;
    assert q >= 0.0 by {
      if q < 0.0 { Times(0.0, q, discharge); }
    }
    GainWithin(q, discharge);
    NegativeQuotient(energy, discharge, q);
  }

  /** With efficiencies of at most one, charging and then discharging as much never ends above a
      non-negative start, clamping included. */
  lemma {:induction false} ThereAndBack(soc: real, capacity: real, w: real, minutes: real, opts: Options)
    requires soc >= 0.0 && capacity > 0.0 && w >= 0.0 && minutes > 0.0
    requires Efficiency(opts.chargeEff) <= 1.0 && Efficiency(opts.dischargeEff) <= 1.0
    ensures var up := ActionSoC(PowerSlot(w, minutes), Some(capacity), Some(soc), opts);
            var down := ActionSoC(PowerSlot(-w, minutes), Some(capacity), up, opts);
            down.Some? && down.value <= soc
  {
    hide IntegrateBatteryWh, ClampFrac, Efficiency;
    var energy := w * (minutes / 60.0);
    var inn := IntegrateBatteryWh(Some(w), Some(minutes), opts);
    var out := IntegrateBatteryWh(Some(-w), Some(minutes), opts);
    InAtMost(w, minutes, opts);
    OutAtMost(w, minutes, opts);
    NetLoss(inn, out, energy, capacity);
    ClampedReturn(soc, inn / capacity, out / capacity);
  }

  lemma {:induction false} NetLoss(inn: real, out: real, energy: real, capacity: real)
    requires capacity > 0.0 && inn <= energy && out <= -energy && energy >= 0.0
    ensures inn / capacity + out / capacity <= 0.0 && out / capacity <= 0.0
  {
    Divides(inn, energy, capacity);
    Divides(out, -energy, capacity);
    Divides(-energy, 0.0, capacity);
    NegativeQuotient(energy, capacity, energy / capacity);
  }

  lemma {:induction false} InAtMost(w: real, minutes: real, opts: Options)
    requires w >= 0.0 && minutes > 0.0 && Efficiency(opts.chargeEff) <= 1.0
    ensures w * (minutes / 60.0) >= 0.0
    ensures IntegrateBatteryWh(Some(w), Some(minutes), opts) <= w * (minutes / 60.0)
  {
    hide Efficiency;
    var hours := minutes / 60.0;
    EnergyNonNegative(w, hours);
    Charged(w, hours, Efficiency(opts.chargeEff));
  }

  lemma {:induction false} Charged(w: real, hours: real, charge: real)
    requires w * hours >= 0.0 && 0.0 < charge <= 1.0
    ensures w * hours * charge <= w * hours
  {
    GainWithin(w * hours, charge);
  }

  lemma {:induction false} EnergyNonNegative(w: real, hours: real)
    requires w >= 0.0 && hours >= 0.0
    ensures w * hours >= 0.0
  {
  }

  lemma {:induction false} Opposite(w: real, h: real)
    ensures -w * h == -(w * h)
  {
  }

  lemma {:induction false} OutAtMost(w: real, minutes: real, opts: Options)
    requires w >= 0.0 && minutes > 0.0 && Efficiency(opts.dischargeEff) <= 1.0
    ensures IntegrateBatteryWh(Some(-w), Some(minutes), opts) <= -(w * (minutes / 60.0))
  {
    var hours := minutes / 60.0;
    EnergyNonNegative(w, hours);
    if w > 0.0 {
      Opposite(w, hours);
      LossAtLeast(w * hours, Efficiency(opts.dischargeEff));
    }
  }

  lemma {:induction false} ClampedReturn(soc: real, up: real, down: real)
    requires soc >= 0.0 && up + down <= 0.0 && down <= 0.0
    ensures ClampFrac(ClampFrac(soc + up) + down) <= soc
  {
  }
}
