/** web/app.js, the live chart's columns: samples pushed from the status poll and reloaded from history. */
module ChartStore {
  import opened Wrappers

  const CHART_POINTS: nat := 360
  const PUSH_GAP_MS: int := 800

  /** A value in a column; Unknown leaves a gap. */
  datatype Cell = Unknown | Watts(w: real) | Time(ms: int) | Quality(q: string)

  datatype Column =
    | Grid | Pv | Load | Timestamps | HistoryQuality
    | EImport | EExport | EPv | ECharged | EDischarged | ELoad

  const COLUMNS: set<Column> :=
    {Grid, Pv, Load, Timestamps, HistoryQuality, EImport, EExport, EPv, ECharged, EDischarged, ELoad}

  type Series = seq<Cell>

  datatype BatterySlot = BatterySlot(bat: Series, target: Series)

  // ---- What arrives ----

  /** A driver's entry: an absent reading is None, a null one Unknown. */
  datatype Device = Device(offline: bool, bat: Option<Cell>, ev: Option<Cell>)

  datatype Reading = Reading(base: map<Column, Cell>, drivers: map<string, Device>, targets: map<string, Cell>)

  // ---- One sample, all series ----

  datatype Battery = Battery(power: Cell, target: Cell)

  datatype Sample = Sample(base: map<Column, Cell>, batteries: map<string, Battery>, evs: map<string, Cell>)

  function Power(d: Device): Cell
    requires d.bat.Some?
  {
    if d.offline then Unknown else d.bat.value
  }

  /** A status poll: the browser's clock, a target of 0 where the plan names none, no EV value offline. */
  function LiveSample(now: int, r: Reading): Sample {
    Sample(
      r.base[Timestamps := Time(now)],
      map n | n in r.drivers && r.drivers[n].bat.Some? ::
        Battery(Power(r.drivers[n]), if n in r.targets && r.targets[n] != Unknown then r.targets[n] else Watts(0.0)),
      map n | n in r.drivers && r.drivers[n].ev.Some? ::
        if r.drivers[n].offline then Unknown else r.drivers[n].ev.value)
  }

  /** A stored item: its own clock, an unknown target where it names none. */
  function HistorySample(r: Reading): Sample {
    Sample(
      r.base,
      map n | n in r.drivers && r.drivers[n].bat.Some? ::
        Battery(Power(r.drivers[n]), if n in r.targets then r.targets[n] else Unknown),
      map n | n in r.drivers && r.drivers[n].ev.Some? :: r.drivers[n].ev.value)
  }

  function HistorySamples(items: seq<Reading>): seq<Sample> {
    if items == [] then [] else HistorySamples(items[..|items| - 1]) + [HistorySample(items[|items| - 1])]
  }

  // ---- Projections of a list of samples ----

  function BaseAt(s: Sample, c: Column): Cell {
    if c in s.base then s.base[c] else Unknown
  }

  function BaseSeries(samples: seq<Sample>, c: Column): (s: Series)
    ensures |s| == |samples|
  {
    if samples == [] then [] else BaseSeries(samples[..|samples| - 1], c) + [BaseAt(samples[|samples| - 1], c)]
  }

  function BatteryAt(s: Sample, n: string): Battery {
    if n in s.batteries then s.batteries[n] else Battery(Unknown, Unknown)
  }

  function Longer(slot: BatterySlot, b: Battery): BatterySlot {
    BatterySlot(slot.bat + [b.power], slot.target + [b.target])
  }

  function BatterySeries(samples: seq<Sample>, n: string): (s: BatterySlot)
    ensures |s.bat| == |s.target| == |samples|
  {
    if samples == [] then BatterySlot([], [])
    else Longer(BatterySeries(samples[..|samples| - 1], n), BatteryAt(samples[|samples| - 1], n))
  }

  function EvAt(s: Sample, n: string): Cell {
    if n in s.evs then s.evs[n] else Unknown
  }

  function EvSeries(samples: seq<Sample>, n: string): (s: Series)
    ensures |s| == |samples|
  {
    if samples == [] then [] else EvSeries(samples[..|samples| - 1], n) + [EvAt(samples[|samples| - 1], n)]
  }

  /** Cell for cell: row i of every column is sample i's value. */
  lemma {:induction false} ColumnsHoldSamples(samples: seq<Sample>, i: nat, c: Column, n: string)
    requires i < |samples|
    ensures BaseSeries(samples, c)[i] == BaseAt(samples[i], c)
    ensures BatterySeries(samples, n).bat[i] == BatteryAt(samples[i], n).power
    ensures BatterySeries(samples, n).target[i] == BatteryAt(samples[i], n).target
    ensures EvSeries(samples, n)[i] == EvAt(samples[i], n)
  {
    if i < |samples| - 1 {
      ColumnsHoldSamples(samples[..|samples| - 1], i, c, n);
    }
  }

  lemma {:induction false} BatteryGrows(samples: seq<Sample>, s: Sample, n: string)
    ensures BatterySeries(samples + [s], n) == Longer(BatterySeries(samples, n), BatteryAt(s, n))
  {
    assert (samples + [s])[..|samples|] == samples;
  }

  lemma {:induction false} EvGrows(samples: seq<Sample>, s: Sample, n: string)
    ensures EvSeries(samples + [s], n) == EvSeries(samples, n) + [EvAt(s, n)]
  {
    assert (samples + [s])[..|samples|] == samples;
  }

  lemma {:induction false} BaseGrows(samples: seq<Sample>, s: Sample, c: Column)
    ensures BaseSeries(samples + [s], c) == BaseSeries(samples, c) + [BaseAt(s, c)]
  {
    assert (samples + [s])[..|samples|] == samples;
  }

  /** Dropping the oldest sample drops the oldest value of every column. */
  lemma {:induction false} BaseShift(samples: seq<Sample>, c: Column)
    requires samples != []
    ensures BaseSeries(samples[1..], c) == BaseSeries(samples, c)[1..]
  {
    if |samples| > 1 {
      BaseShift(samples[..|samples| - 1], c);
      assert samples[1..][..|samples| - 2] == samples[..|samples| - 1][1..];
    }
  }

  lemma {:induction false} BatteryShift(samples: seq<Sample>, n: string)
    requires samples != []
    ensures BatterySeries(samples[1..], n) ==
            BatterySlot(BatterySeries(samples, n).bat[1..], BatterySeries(samples, n).target[1..])
  {
    if |samples| > 1 {
      BatteryShift(samples[..|samples| - 1], n);
      assert samples[1..][..|samples| - 2] == samples[..|samples| - 1][1..];
    }
  }

  lemma {:induction false} EvShift(samples: seq<Sample>, n: string)
    requires samples != []
    ensures EvSeries(samples[1..], n) == EvSeries(samples, n)[1..]
  {
    if |samples| > 1 {
      EvShift(samples[..|samples| - 1], n);
      assert samples[1..][..|samples| - 2] == samples[..|samples| - 1][1..];
    }
  }

  function Blank(n: nat): (s: Series)
    ensures |s| == n
  {
    if n == 0 then [] else Blank(n - 1) + [Unknown]
  }

  function BatteryNames(samples: seq<Sample>): set<string> {
    if samples == [] then {} else BatteryNames(samples[..|samples| - 1]) + samples[|samples| - 1].batteries.Keys
  }

  function EvNames(samples: seq<Sample>): set<string> {
    if samples == [] then {} else EvNames(samples[..|samples| - 1]) + samples[|samples| - 1].evs.Keys
  }

  lemma {:induction false} NamesGrow(samples: seq<Sample>, s: Sample)
    ensures BatteryNames(samples + [s]) == BatteryNames(samples) + s.batteries.Keys
    ensures EvNames(samples + [s]) == EvNames(samples) + s.evs.Keys
  {
    assert (samples + [s])[..|samples|] == samples;
  }

  lemma {:induction false} NamesShift(samples: seq<Sample>)
    requires samples != []
    ensures BatteryNames(samples[1..]) <= BatteryNames(samples) && EvNames(samples[1..]) <= EvNames(samples)
  {
    if |samples| > 1 {
      NamesShift(samples[..|samples| - 1]);
      assert samples[1..][..|samples| - 2] == samples[..|samples| - 1][1..];
    }
  }

  /** A driver no sample names has only gaps. */
  lemma {:induction false} UnnamedIsBlank(samples: seq<Sample>, n: string)
    ensures n !in BatteryNames(samples) ==>
              BatterySeries(samples, n) == BatterySlot(Blank(|samples|), Blank(|samples|))
    ensures n !in EvNames(samples) ==> EvSeries(samples, n) == Blank(|samples|)
  {
    if samples != [] {
      UnnamedIsBlank(samples[..|samples| - 1], n);
    }
  }

  /** Every column is the projection of the samples, and every driver a sample names has one. */
  ghost predicate Projects(
    samples: seq<Sample>, history: map<Column, Series>, batteries: map<string, BatterySlot>, evs: map<string, Series>)
  {
    && BaseProjects(samples, history) && BatteriesProject(samples, batteries) && EvsProject(samples, evs)
  }

  ghost predicate BaseProjects(samples: seq<Sample>, history: map<Column, Series>) {
    history.Keys == COLUMNS && forall c :: c in history ==> history[c] == BaseSeries(samples, c)
  }

  /** Every driver a sample names has its column. */
  ghost predicate BatteriesNamed(samples: seq<Sample>, batteries: map<string, BatterySlot>) {
    BatteryNames(samples) <= batteries.Keys
  }

  ghost predicate EvsNamed(samples: seq<Sample>, evs: map<string, Series>) {
    EvNames(samples) <= evs.Keys
  }

  ghost predicate BatteriesProject(samples: seq<Sample>, batteries: map<string, BatterySlot>) {
    && (forall n :: n in batteries ==> batteries[n] == BatterySeries(samples, n))
    && BatteriesNamed(samples, batteries)
  }

  ghost predicate EvsProject(samples: seq<Sample>, evs: map<string, Series>) {
    && (forall n :: n in evs ==> evs[n] == EvSeries(samples, n))
    && EvsNamed(samples, evs)
  }

  /** Each push comes 800 ms after the last, whose clock was set. */
  ghost predicate Spaced(pushes: seq<int>) {
    forall i :: 0 < i < |pushes| && pushes[i - 1] > 0 ==> pushes[i] - pushes[i - 1] >= PUSH_GAP_MS
  }

  lemma {:induction false} SpacedOneMore(pushes: seq<int>, last: int, now: int)
    requires Spaced(pushes) && last == (if pushes == [] then 0 else pushes[|pushes| - 1])
    requires !(last > 0 && now - last < PUSH_GAP_MS)
    ensures Spaced(pushes + [now])
  {
  }

  /** So pushed times only go up, by 800 ms a push, however the clock moved between polls. */
  lemma {:induction false} PushesSpread(pushes: seq<int>, i: nat, j: nat)
    requires Spaced(pushes) && i <= j < |pushes| && pushes[i] > 0
    ensures pushes[j] >= pushes[i] + 800 * (j - i)
    decreases j
  {
    if i < j {
      PushesSpread(pushes, i, j - 1);
    }
  }

  class Store {
    var history: map<Column, Series>
    var batteries: map<string, BatterySlot>
    var evs: map<string, Series>
    var lastPushAt: int
    ghost var samples: seq<Sample>
    ghost var pushes: seq<int>

    ghost predicate Valid()
      reads this
    {
      && Projects(samples, history, batteries, evs)
      && lastPushAt == (if pushes == [] then 0 else pushes[|pushes| - 1])
      && Spaced(pushes)
    }

    constructor ()
      ensures Valid() && samples == [] && pushes == []
    {
      history := map c | c in COLUMNS :: [];
      batteries, evs, lastPushAt, samples, pushes := map[], map[], 0, [], [];
    }

    /** A slot for the battery, padded to just before the row being written. */
    method EnsureBatteryDriver(name: string)
      requires Timestamps in history
      modifies `batteries
      ensures batteries == if name in old(batteries) then old(batteries) else
        var pad := if |history[Timestamps]| > 0 then |history[Timestamps]| - 1 else 0;
        old(batteries)[name := BatterySlot(Blank(pad), Blank(pad))]
    {
      if name in batteries {
        return;
      }
      var pad := if |history[Timestamps]| > 0 then |history[Timestamps]| - 1 else 0;
      batteries := batteries[name := BatterySlot(Blank(pad), Blank(pad))];
    }

    method EnsureEvDriver(name: string)
      requires Timestamps in history
      modifies `evs
      ensures evs == if name in old(evs) then old(evs) else
        old(evs)[name := Blank(if |history[Timestamps]| > 0 then |history[Timestamps]| - 1 else 0)]
    {
      if name in evs {
        return;
      }
      evs := evs[name := Blank(if |history[Timestamps]| > 0 then |history[Timestamps]| - 1 else 0)];
    }

    /** One sample into every column: the base ones, each named driver's, and a gap in all others. */
    method WriteRow(s: Sample)
      requires Projects(samples, history, batteries, evs)
      modifies `history, `batteries, `evs, `samples
      ensures Projects(samples, history, batteries, evs)
      ensures samples == old(samples) + [s]
      ensures batteries.Keys == old(batteries).Keys + s.batteries.Keys && evs.Keys == old(evs).Keys + s.evs.Keys
    {
      hide BatteriesProject, EvsProject, BatteriesNamed, EvsNamed, BatteriesPushed, EvsPushed, WithBatteryGaps, WithEvGaps;
      RowProjects(samples, history, s);
      history := WithRow(history, s);
      PushNamed(s);
      GapsProject(samples, s, batteries, evs);
      GapKeys(s, batteries, evs);
      batteries := WithBatteryGaps(batteries, s);
      evs := WithEvGaps(evs, s);
      samples := samples + [s];
    }

    /** The loop over the sample's drivers. The base columns already hold the new row. */
    method PushNamed(s: Sample)
      requires history.Keys == COLUMNS && |history[Timestamps]| == |samples| + 1
      requires BatteriesProject(samples, batteries) && EvsProject(samples, evs)
      modifies `batteries, `evs
      ensures BatteriesPushed(samples, s, s.batteries.Keys, batteries) && EvsPushed(samples, s, s.evs.Keys, evs)
      ensures BatteriesNamed(samples, batteries) && EvsNamed(samples, evs)
      ensures batteries.Keys == old(batteries).Keys + s.batteries.Keys && evs.Keys == old(evs).Keys + s.evs.Keys
    {
      NothingPushed(samples, s, batteries, evs);
      NoneGrew(batteries.Keys, s.batteries.Keys);
      NoneGrew(evs.Keys, s.evs.Keys);
      hide BatteriesPushed, EvsPushed, BatteriesNamed, EvsNamed;
      PushEach(s);
      assert s.evs.Keys + s.batteries.Keys == s.batteries.Keys + s.evs.Keys;
      AllGrew(old(batteries).Keys, s.batteries.Keys, s.evs.Keys, batteries.Keys);
      AllGrew(old(evs).Keys, s.evs.Keys, s.batteries.Keys, evs.Keys);
    }

    method PushEach(s: Sample)
      requires history.Keys == COLUMNS && |history[Timestamps]| == |samples| + 1
      requires PushedFor(s, {})
      requires Grew(batteries.Keys, s.batteries.Keys, {}, batteries.Keys) && Grew(evs.Keys, s.evs.Keys, {}, evs.Keys)
      modifies `batteries, `evs
      ensures PushedFor(s, s.batteries.Keys + s.evs.Keys)
      ensures Grew(old(batteries).Keys, s.batteries.Keys, s.batteries.Keys + s.evs.Keys, batteries.Keys)
      ensures Grew(old(evs).Keys, s.evs.Keys, s.batteries.Keys + s.evs.Keys, evs.Keys)
    {
      hide Grew, PushedFor, Blank;
      var drivers := s.batteries.Keys + s.evs.Keys;
      var left := drivers;
      ghost var done: set<string> := {};
      while left != {}
        invariant done + left == drivers && done * left == {}
        invariant PushedFor(s, done)
        invariant Grew(old(batteries).Keys, s.batteries.Keys, done, batteries.Keys)
        invariant Grew(old(evs).Keys, s.evs.Keys, done, evs.Keys)
      {
        var n :| n in left;
        GrowsOneMore(old(batteries).Keys, s.batteries.Keys, done, batteries.Keys, n);
        GrowsOneMore(old(evs).Keys, s.evs.Keys, done, evs.Keys, n);
        PushDriver(n, s, done);
        done, left := done + {n}, left - {n};
      }
      assert done == drivers;
    }

    /** The drivers among `done` that the sample names have the new row. */
    ghost predicate PushedFor(s: Sample, done: set<string>)
      reads this
    {
      && BatteriesPushed(samples, s, s.batteries.Keys * done, batteries) && BatteriesNamed(samples, batteries)
      && EvsPushed(samples, s, s.evs.Keys * done, evs) && EvsNamed(samples, evs)
    }

    method PushDriver(n: string, s: Sample, ghost done: set<string>)
      requires history.Keys == COLUMNS && |history[Timestamps]| == |samples| + 1
      requires PushedFor(s, done) && n !in done
      modifies `batteries, `evs
      ensures PushedFor(s, done + {n})
      ensures batteries.Keys == old(batteries).Keys + if n in s.batteries then {n} else {}
      ensures evs.Keys == old(evs).Keys + if n in s.evs then {n} else {}
    {
      if n in s.batteries {
        PushBattery(n, s, s.batteries.Keys * done);
      }
      if n in s.evs {
        PushEv(n, s, s.evs.Keys * done);
      }
      OneMore(s.batteries.Keys, done, n);
      OneMore(s.evs.Keys, done, n);
    }

    method PushBattery(n: string, s: Sample, ghost done: set<string>)
      requires history.Keys == COLUMNS && |history[Timestamps]| == |samples| + 1 && n in s.batteries && n !in done
      requires BatteriesPushed(samples, s, done, batteries) && BatteriesNamed(samples, batteries)
      modifies `batteries
      ensures BatteriesPushed(samples, s, done + {n}, batteries) && BatteriesNamed(samples, batteries)
      ensures batteries.Keys == old(batteries).Keys + {n}
    {
      UnnamedIsBlank(samples, n);
      EnsureBatteryDriver(n);
      batteries := batteries[n := Longer(batteries[n], s.batteries[n])];
    }

    method PushEv(n: string, s: Sample, ghost done: set<string>)
      requires history.Keys == COLUMNS && |history[Timestamps]| == |samples| + 1 && n in s.evs && n !in done
      requires EvsPushed(samples, s, done, evs) && EvsNamed(samples, evs)
      modifies `evs
      ensures EvsPushed(samples, s, done + {n}, evs) && EvsNamed(samples, evs)
      ensures evs.Keys == old(evs).Keys + {n}
    {
      UnnamedIsBlank(samples, n);
      EnsureEvDriver(n);
      evs := evs[n := evs[n] + [s.evs[n]]];
    }

    /** pushChartData. A poll less than 800 ms after the last push, or before it, is dropped. */
    method PushChartData(now: int, r: Reading) returns (pushed: bool)
      requires Valid()
      modifies this
      ensures Valid()
      ensures pushed <==> !(old(lastPushAt) > 0 && now - old(lastPushAt) < 800)
      ensures !pushed ==> samples == old(samples) && pushes == old(pushes)
      ensures pushed ==> pushes == old(pushes) + [now] && samples == Capped(old(samples) + [LiveSample(now, r)])
      ensures forall c :: c in history ==> |history[c]| == |samples|
      ensures |samples| <= |old(samples)| || |samples| <= CHART_POINTS
      ensures !pushed ==> history == old(history) && batteries == old(batteries) && evs == old(evs)
      ensures pushed ==>
        && BasePushed(now, r, old(history), history)
        && BatteriesLive(r, |old(samples)|, old(batteries), batteries) && EvsLive(r, |old(samples)|, old(evs), evs)
    {
      hide BasePushed, BatteriesLive, EvsLive, LiveSample, BatteriesProject, EvsProject, Spaced;
      if lastPushAt > 0 && now - lastPushAt < PUSH_GAP_MS {
        return false;
      }
      SpacedOneMore(pushes, lastPushAt, now);
      CappedLength(samples, LiveSample(now, r));
      lastPushAt := now;
      pushes := pushes + [now];
      PushSample(now, r);
      return true;
    }

    /** The push itself. */
    method PushSample(now: int, r: Reading)
      requires Projects(samples, history, batteries, evs)
      modifies `history, `batteries, `evs, `samples
      ensures Projects(samples, history, batteries, evs) && samples == Capped(old(samples) + [LiveSample(now, r)])
      ensures BasePushed(now, r, old(history), history)
      ensures BatteriesLive(r, |old(samples)|, old(batteries), batteries) && EvsLive(r, |old(samples)|, old(evs), evs)
    {
      hide BaseProjects, BatteriesProject, EvsProject, BasePushed, BatteriesLive, EvsLive, LiveSample, Capped;
      ghost var was := samples;
      PushRow(LiveSample(now, r));
      PushLeaves(now, r, was, old(history), history);
      BatteriesLeave(now, r, was, old(batteries), batteries);
      EvsLeave(now, r, was, old(evs), evs);
    }

    /** A row at the end, and past 360 the oldest one gone. */
    method PushRow(s: Sample)
      requires Projects(samples, history, batteries, evs)
      modifies `history, `batteries, `evs, `samples
      ensures Projects(samples, history, batteries, evs)
      ensures samples == Capped(old(samples) + [s])
      ensures batteries.Keys == old(batteries).Keys + s.batteries.Keys && evs.Keys == old(evs).Keys + s.evs.Keys
    {
      WriteRow(s);
      assert history[Grid] == BaseSeries(samples, Grid);
      if |history[Grid]| > CHART_POINTS {
        Shift();
      }
    }

    /** Every column drops its oldest value. */
    method Shift()
      requires Projects(samples, history, batteries, evs) && samples != []
      modifies `history, `batteries, `evs, `samples
      ensures Projects(samples, history, batteries, evs) && samples == old(samples)[1..]
      ensures batteries.Keys == old(batteries).Keys && evs.Keys == old(evs).Keys
    {
      ShiftProjects(samples, history, batteries, evs);
      history, batteries, evs := DropBase(history), DropBatteries(batteries), DropEvs(evs);
      samples := samples[1..];
    }

    /** loadHistory with an answer: the columns and drivers are those of the stored items alone. */
    method LoadHistory(items: seq<Reading>)
      requires Valid()
      modifies this
      ensures Valid() && pushes == old(pushes)
      ensures samples == HistorySamples(items)
      ensures BaseLoaded(items, history) && BatteriesLoaded(items, batteries) && EvsLoaded(items, evs)
    {
      hide BatteriesProject, EvsProject, BaseLoaded, BaseSeries, BatteriesLoaded, EvsLoaded, HistorySamples;
      Reset();
      AppendAll(items);
      LoadLeaves(items, history);
      BatteryLoadLeaves(items, batteries);
      EvLoadLeaves(items, evs);
    }

    method AppendAll(items: seq<Reading>)
      requires Projects(samples, history, batteries, evs) && samples == [] && batteries == map[] && evs == map[]
      modifies `history, `batteries, `evs, `samples
      ensures Projects(samples, history, batteries, evs) && samples == HistorySamples(items)
      ensures batteries.Keys == BatteryNames(samples) && evs.Keys == EvNames(samples)
    {
      hide BaseProjects, BatteriesProject, EvsProject, HistorySample, BaseSeries;
      for k := 0 to |items|
        invariant Projects(samples, history, batteries, evs)
        invariant samples == HistorySamples(items[..k])
        invariant batteries.Keys == BatteryNames(samples) && evs.Keys == EvNames(samples)
      {
        NamesGrow(samples, HistorySample(items[k]));
        WriteRow(HistorySample(items[k]));
        assert items[..k + 1][..k] == items[..k];
      }
      assert items[..|items|] == items;
    }

    method Reset()
      requires history.Keys == COLUMNS
      modifies `history, `batteries, `evs, `samples
      ensures Projects(samples, history, batteries, evs) && samples == [] && batteries == map[] && evs == map[]
    {
      history := map c | c in history :: [];
      batteries, evs, samples := map[], map[], [];
    }
  }

  lemma {:induction false} OneMore(names: set<string>, done: set<string>, n: string)
    ensures names * (done + {n}) == names * done + if n in names then {n} else {}
  {
  }

  /** The keys are those before and the names done. */
  ghost predicate Grew(was: set<string>, names: set<string>, done: set<string>, keys: set<string>) {
    keys == was + names * done
  }

  lemma {:induction false} GrowsOneMore(was: set<string>, names: set<string>, done: set<string>, keys: set<string>, n: string)
    requires Grew(was, names, done, keys)
    ensures Grew(was, names, done + {n}, keys + if n in names then {n} else {})
  {
    OneMore(names, done, n);
  }

  lemma {:induction false} NoneGrew(was: set<string>, names: set<string>)
    ensures Grew(was, names, {}, was) && names * {} == {}
  {
  }

  lemma {:induction false} AllGrew(was: set<string>, names: set<string>, others: set<string>, keys: set<string>)
    requires Grew(was, names, names + others, keys)
    ensures keys == was + names && names * (names + others) == names
  {
    assert names * (names + others) == names;
  }

  function Capped(samples: seq<Sample>): seq<Sample> {
    if |samples| > CHART_POINTS then samples[1..] else samples
  }

  // ---- What a push and a reload leave, cell by cell ----

  /** A column before a push, its oldest cell gone if it is full. */
  function Kept(s: Series): Series { if |s| >= 360 then s[1..] else s }

  /** The driver states a battery power, or a charger's; an absent driver states neither. */
  predicate SaysBattery(r: Reading, n: string) { n in r.drivers && r.drivers[n].bat.Some? }

  predicate SaysEv(r: Reading, n: string) { n in r.drivers && r.drivers[n].ev.Some? }

  /** One cell at the end of every base column: the browser's clock, and what the poll says. */
  ghost predicate BasePushed(now: int, r: Reading, was: map<Column, Series>, history: map<Column, Series>) {
    && history.Keys == COLUMNS && was.Keys == COLUMNS
    && forall c :: c in history ==>
         history[c] == Kept(was[c]) + [if c == Timestamps then Time(now) else if c in r.base then r.base[c] else Unknown]
  }

  /** One cell at the end of every battery's columns, those of a new one filled with gaps before: its power,
      unless it is offline, and its target, or 0; gaps for a driver that states no power. */
  ghost predicate BatteryLive(r: Reading, rows: nat, was: map<string, BatterySlot>, slot: BatterySlot, n: string) {
    && slot.bat == Kept(if n in was then was[n].bat else Blank(rows))
         + [if !SaysBattery(r, n) || r.drivers[n].offline then Unknown else r.drivers[n].bat.value]
    && slot.target == Kept(if n in was then was[n].target else Blank(rows))
         + [if !SaysBattery(r, n) then Unknown
            else if n in r.targets && r.targets[n] != Unknown then r.targets[n] else Watts(0.0)]
  }

  ghost predicate BatteriesLive(r: Reading, rows: nat, was: map<string, BatterySlot>, batteries: map<string, BatterySlot>) {
    && (forall n :: n in batteries <==> n in was || SaysBattery(r, n))
    && forall n :: n in batteries ==> BatteryLive(r, rows, was, batteries[n], n)
  }

  /** The same for chargers: the power, and a gap for one that is offline or states none. */
  ghost predicate EvLive(r: Reading, rows: nat, was: map<string, Series>, ev: Series, n: string) {
    ev == Kept(if n in was then was[n] else Blank(rows))
      + [if !SaysEv(r, n) || r.drivers[n].offline then Unknown else r.drivers[n].ev.value]
  }

  ghost predicate EvsLive(r: Reading, rows: nat, was: map<string, Series>, evs: map<string, Series>) {
    && (forall n :: n in evs <==> n in was || SaysEv(r, n))
    && forall n :: n in evs ==> EvLive(r, rows, was, evs[n], n)
  }

  lemma {:induction false} LiveBase(now: int, r: Reading, c: Column)
    ensures BaseAt(LiveSample(now, r), c) == if c == Timestamps then Time(now) else if c in r.base then r.base[c] else Unknown
  {
  }

  lemma {:induction false} LiveBattery(now: int, r: Reading, n: string)
    ensures n in LiveSample(now, r).batteries.Keys <==> SaysBattery(r, n)
    ensures BatteryAt(LiveSample(now, r), n).power ==
            if !SaysBattery(r, n) || r.drivers[n].offline then Unknown else r.drivers[n].bat.value
    ensures BatteryAt(LiveSample(now, r), n).target ==
            if !SaysBattery(r, n) then Unknown
            else if n in r.targets && r.targets[n] != Unknown then r.targets[n] else Watts(0.0)
  {
  }

  lemma {:induction false} LiveEv(now: int, r: Reading, n: string)
    ensures n in LiveSample(now, r).evs.Keys <==> SaysEv(r, n)
    ensures EvAt(LiveSample(now, r), n) ==
            if !SaysEv(r, n) || r.drivers[n].offline then Unknown else r.drivers[n].ev.value
  {
  }

  lemma {:induction false} ColumnLeaves(samples: seq<Sample>, s: Sample, c: Column)
    ensures BaseSeries(Capped(samples + [s]), c) == Kept(BaseSeries(samples, c)) + [BaseAt(s, c)]
  {
    BaseGrows(samples, s, c);
    BaseShift(samples + [s], c);
  }

  lemma {:induction false} BatteryLeaves(samples: seq<Sample>, s: Sample, n: string)
    ensures var b, t := BatterySeries(samples, n), BatterySeries(Capped(samples + [s]), n);
            && t.bat == Kept(b.bat) + [BatteryAt(s, n).power]
            && t.target == Kept(b.target) + [BatteryAt(s, n).target]
  {
    BatteryGrows(samples, s, n);
    BatteryShift(samples + [s], n);
  }

  lemma {:induction false} EvLeaves(samples: seq<Sample>, s: Sample, n: string)
    ensures EvSeries(Capped(samples + [s]), n) == Kept(EvSeries(samples, n)) + [EvAt(s, n)]
  {
    EvGrows(samples, s, n);
    EvShift(samples + [s], n);
  }

  lemma {:induction false} PushLeaves(
    now: int, r: Reading, samples: seq<Sample>, was: map<Column, Series>, history: map<Column, Series>)
    requires BaseProjects(samples, was) && BaseProjects(Capped(samples + [LiveSample(now, r)]), history)
    ensures BasePushed(now, r, was, history)
  {
    hide LiveSample, BaseAt, BaseSeries, Capped;
    forall c | c in history
      ensures history[c] == Kept(was[c]) + [if c == Timestamps then Time(now) else if c in r.base then r.base[c] else Unknown]
    {
      ColumnLeaves(samples, LiveSample(now, r), c);
      LiveBase(now, r, c);
    }
  }

  lemma {:induction false} BatteriesLeave(
    now: int, r: Reading, samples: seq<Sample>, was: map<string, BatterySlot>, batteries: map<string, BatterySlot>)
    requires BatteriesProject(samples, was) && BatteriesProject(Capped(samples + [LiveSample(now, r)]), batteries)
    requires batteries.Keys == was.Keys + LiveSample(now, r).batteries.Keys
    ensures BatteriesLive(r, |samples|, was, batteries)
  {
    hide LiveSample, BatteryAt, BatterySeries, Capped, Kept, Blank, SaysBattery, BatteryNames;
    forall n: string ensures n in LiveSample(now, r).batteries.Keys <==> SaysBattery(r, n) {
      LiveBattery(now, r, n);
    }
    forall n | n in batteries ensures BatteryLive(r, |samples|, was, batteries[n], n) {
      BatteryLeaves(samples, LiveSample(now, r), n);
      UnnamedIsBlank(samples, n);
      LiveBattery(now, r, n);
    }
  }

  lemma {:induction false} EvsLeave(
    now: int, r: Reading, samples: seq<Sample>, was: map<string, Series>, evs: map<string, Series>)
    requires EvsProject(samples, was) && EvsProject(Capped(samples + [LiveSample(now, r)]), evs)
    requires evs.Keys == was.Keys + LiveSample(now, r).evs.Keys
    ensures EvsLive(r, |samples|, was, evs)
  {
    hide LiveSample, EvAt, EvSeries, Capped, Kept, Blank, SaysEv, EvNames;
    forall n: string ensures n in LiveSample(now, r).evs.Keys <==> SaysEv(r, n) {
      LiveEv(now, r, n);
    }
    forall n | n in evs ensures EvLive(r, |samples|, was, evs[n], n) {
      EvLeaves(samples, LiveSample(now, r), n);
      UnnamedIsBlank(samples, n);
      LiveEv(now, r, n);
    }
  }

  /** Row i of every base column is what stored item i says. */
  ghost predicate BaseLoaded(items: seq<Reading>, history: map<Column, Series>) {
    && history.Keys == COLUMNS
    && forall c :: c in COLUMNS ==>
         && |history[c]| == |items|
         && forall i :: 0 <= i < |items| ==>
              history[c][i] == if c in items[i].base then items[i].base[c] else Unknown
  }

  /** What stored item r says of a battery: no power of an offline one, no target where none is named. */
  ghost predicate BatteryCell(r: Reading, n: string, power: Cell, target: Cell) {
    && power == (if !SaysBattery(r, n) || r.drivers[n].offline then Unknown else r.drivers[n].bat.value)
    && target == (if SaysBattery(r, n) && n in r.targets then r.targets[n] else Unknown)
  }

  /** There are columns for the batteries the items state, and row i is what item i says of them. */
  ghost predicate BatteriesLoaded(items: seq<Reading>, batteries: map<string, BatterySlot>) {
    && (forall n :: n in batteries <==> exists i :: 0 <= i < |items| && SaysBattery(items[i], n))
    && forall n :: n in batteries ==> BatteryLoaded(items, n, batteries[n])
  }

  ghost predicate BatteryLoaded(items: seq<Reading>, n: string, slot: BatterySlot) {
    && |slot.bat| == |slot.target| == |items|
    && forall i :: 0 <= i < |items| ==> BatteryCell(items[i], n, slot.bat[i], slot.target[i])
  }

  /** The same for chargers, an offline one included. */
  ghost predicate EvsLoaded(items: seq<Reading>, evs: map<string, Series>) {
    && (forall n :: n in evs <==> exists i :: 0 <= i < |items| && SaysEv(items[i], n))
    && forall n :: n in evs ==> EvLoaded(items, n, evs[n])
  }

  ghost predicate EvLoaded(items: seq<Reading>, n: string, ev: Series) {
    && |ev| == |items|
    && forall i :: 0 <= i < |items| ==> EvCell(items[i], n, ev[i])
  }

  ghost predicate EvCell(r: Reading, n: string, ev: Cell) {
    ev == if SaysEv(r, n) then r.drivers[n].ev.value else Unknown
  }

  lemma {:induction false} StoredCells(r: Reading, n: string)
    ensures BatteryCell(r, n, BatteryAt(HistorySample(r), n).power, BatteryAt(HistorySample(r), n).target)
    ensures EvCell(r, n, EvAt(HistorySample(r), n))
    ensures n in HistorySample(r).batteries <==> SaysBattery(r, n)
    ensures n in HistorySample(r).evs <==> SaysEv(r, n)
  {
  }

  lemma {:induction false} SampleOfItem(items: seq<Reading>, i: nat)
    requires i < |items|
    ensures |HistorySamples(items)| == |items| && HistorySamples(items)[i] == HistorySample(items[i])
  {
    var front := items[..|items| - 1];
    if i < |front| {
      SampleOfItem(front, i);
    } else if front != [] {
      SampleOfItem(front, 0);
    }
  }

  lemma {:induction false} NoSamples(items: seq<Reading>)
    ensures |HistorySamples(items)| == |items|
  {
    if items != [] {
      SampleOfItem(items, 0);
    }
  }

  lemma {:induction false} LoadLeaves(items: seq<Reading>, history: map<Column, Series>)
    requires BaseProjects(HistorySamples(items), history)
    ensures BaseLoaded(items, history)
  {
    NoSamples(items);
    forall c, i | c in COLUMNS && 0 <= i < |items|
      ensures history[c][i] == if c in items[i].base then items[i].base[c] else Unknown
    {
      SampleOfItem(items, i);
      ColumnsHoldSamples(HistorySamples(items), i, c, "");
    }
  }

  lemma {:induction false} WhoIsNamed(items: seq<Reading>, n: string)
    ensures n in BatteryNames(HistorySamples(items)) <==> exists i :: 0 <= i < |items| && SaysBattery(items[i], n)
    ensures n in EvNames(HistorySamples(items)) <==> exists i :: 0 <= i < |items| && SaysEv(items[i], n)
  {
    hide HistorySample, SaysBattery, SaysEv;
    if items != [] {
      var front, last := items[..|items| - 1], items[|items| - 1];
      WhoIsNamed(front, n);
      NamesGrow(HistorySamples(front), HistorySample(last));
      StoredCells(last, n);
      assert forall i :: 0 <= i < |front| ==> front[i] == items[i];
    }
  }

  lemma {:induction false} BatteryLoadLeaves(items: seq<Reading>, batteries: map<string, BatterySlot>)
    requires BatteriesProject(HistorySamples(items), batteries) && batteries.Keys == BatteryNames(HistorySamples(items))
    ensures BatteriesLoaded(items, batteries)
  {
    hide HistorySamples, HistorySample, BatterySeries, BatteryAt, SaysBattery, BatteryNames, BatteryCell;
    forall n: string ensures n in batteries <==> exists i :: 0 <= i < |items| && SaysBattery(items[i], n) {
      WhoIsNamed(items, n);
    }
    forall n | n in batteries ensures BatteryLoaded(items, n, batteries[n]) {
      SeriesLoaded(items, n);
    }
  }

  lemma {:induction false} SeriesLoaded(items: seq<Reading>, n: string)
    ensures BatteryLoaded(items, n, BatterySeries(HistorySamples(items), n))
    ensures EvLoaded(items, n, EvSeries(HistorySamples(items), n))
  {
    hide HistorySamples, HistorySample, BatterySeries, EvSeries, BatteryAt, EvAt, BatteryCell, EvCell;
    NoSamples(items);
    forall i | 0 <= i < |items|
      ensures var samples := HistorySamples(items);
              && BatteryCell(items[i], n, BatterySeries(samples, n).bat[i], BatterySeries(samples, n).target[i])
              && EvCell(items[i], n, EvSeries(samples, n)[i])
    {
      SampleOfItem(items, i);
      ColumnsHoldSamples(HistorySamples(items), i, Grid, n);
      StoredCells(items[i], n);
    }
  }

  lemma {:induction false} EvLoadLeaves(items: seq<Reading>, evs: map<string, Series>)
    requires EvsProject(HistorySamples(items), evs) && evs.Keys == EvNames(HistorySamples(items))
    ensures EvsLoaded(items, evs)
  {
    hide HistorySamples, HistorySample, EvSeries, EvAt, SaysEv, EvNames;
    forall n: string ensures n in evs <==> exists i :: 0 <= i < |items| && SaysEv(items[i], n) {
      WhoIsNamed(items, n);
    }
    forall n | n in evs ensures EvLoaded(items, n, evs[n]) {
      SeriesLoaded(items, n);
    }
  }

  // ---- One row, as functions of the columns ----

  function WithRow(history: map<Column, Series>, s: Sample): map<Column, Series> {
    map c | c in history :: history[c] + [BaseAt(s, c)]
  }

  lemma {:induction false} RowProjects(samples: seq<Sample>, history: map<Column, Series>, s: Sample)
    requires BaseProjects(samples, history)
    ensures BaseProjects(samples + [s], WithRow(history, s))
  {
    forall c | c in history ensures WithRow(history, s)[c] == BaseSeries(samples + [s], c) {
      BaseGrows(samples, s, c);
    }
  }

  /** The drivers in `done` have the new row, the others not yet. */
  ghost predicate BatteriesPushed(
    samples: seq<Sample>, s: Sample, done: set<string>, batteries: map<string, BatterySlot>)
  {
    forall n :: n in batteries ==>
      batteries[n] == if n in done then Longer(BatterySeries(samples, n), BatteryAt(s, n)) else BatterySeries(samples, n)
  }

  ghost predicate EvsPushed(samples: seq<Sample>, s: Sample, done: set<string>, evs: map<string, Series>) {
    forall n :: n in evs ==>
      evs[n] == if n in done then EvSeries(samples, n) + [EvAt(s, n)] else EvSeries(samples, n)
  }

  lemma {:induction false} GapKeys(s: Sample, batteries: map<string, BatterySlot>, evs: map<string, Series>)
    ensures WithBatteryGaps(batteries, s).Keys == batteries.Keys && WithEvGaps(evs, s).Keys == evs.Keys
  {
  }

  lemma {:induction false} NothingPushed(
    samples: seq<Sample>, s: Sample, batteries: map<string, BatterySlot>, evs: map<string, Series>)
    requires BatteriesProject(samples, batteries) && EvsProject(samples, evs)
    ensures BatteriesPushed(samples, s, {}, batteries) && EvsPushed(samples, s, {}, evs)
    ensures BatteriesNamed(samples, batteries) && EvsNamed(samples, evs)
  {
  }

  function WithBatteryGaps(batteries: map<string, BatterySlot>, s: Sample): map<string, BatterySlot> {
    map n | n in batteries :: if n in s.batteries then batteries[n] else Longer(batteries[n], Battery(Unknown, Unknown))
  }

  function WithEvGaps(evs: map<string, Series>, s: Sample): map<string, Series> {
    map n | n in evs :: if n in s.evs then evs[n] else evs[n] + [Unknown]
  }

  lemma {:induction false} GapsProject(
    samples: seq<Sample>, s: Sample, batteries: map<string, BatterySlot>, evs: map<string, Series>)
    requires BatteriesPushed(samples, s, s.batteries.Keys, batteries) && EvsPushed(samples, s, s.evs.Keys, evs)
    requires s.batteries.Keys <= batteries.Keys && s.evs.Keys <= evs.Keys
    requires BatteriesNamed(samples, batteries) && EvsNamed(samples, evs)
    ensures BatteriesProject(samples + [s], WithBatteryGaps(batteries, s))
    ensures EvsProject(samples + [s], WithEvGaps(evs, s))
  {
    NamesGrow(samples, s);
    forall n | n in batteries ensures WithBatteryGaps(batteries, s)[n] == BatterySeries(samples + [s], n) {
      BatteryGrows(samples, s, n);
    }
    forall n | n in evs ensures WithEvGaps(evs, s)[n] == EvSeries(samples + [s], n) {
      EvGrows(samples, s, n);
    }
  }

  /** Array.shift on every column; on an empty one it does nothing. */
  function DropFirst(s: Series): Series { if s == [] then s else s[1..] }

  function DropBase(history: map<Column, Series>): map<Column, Series> {
    map c | c in history :: DropFirst(history[c])
  }

  function DropBatteries(batteries: map<string, BatterySlot>): map<string, BatterySlot> {
    map n | n in batteries :: BatterySlot(DropFirst(batteries[n].bat), DropFirst(batteries[n].target))
  }

  function DropEvs(evs: map<string, Series>): map<string, Series> {
    map n | n in evs :: DropFirst(evs[n])
  }

  lemma {:induction false} ShiftProjects(
    samples: seq<Sample>, history: map<Column, Series>, batteries: map<string, BatterySlot>, evs: map<string, Series>)
    requires Projects(samples, history, batteries, evs) && samples != []
    ensures Projects(samples[1..], DropBase(history), DropBatteries(batteries), DropEvs(evs))
  {
    NamesShift(samples);
    forall c | c in history ensures BaseSeries(samples[1..], c) == history[c][1..] {
      BaseShift(samples, c);
    }
    forall n | n in batteries
      ensures BatterySeries(samples[1..], n) == BatterySlot(batteries[n].bat[1..], batteries[n].target[1..])
    {
      BatteryShift(samples, n);
    }
    forall n | n in evs ensures EvSeries(samples[1..], n) == evs[n][1..] {
      EvShift(samples, n);
    }
  }

  /** A push never grows the store beyond the larger of 360 and its length before. */
  lemma {:induction false} CappedLength(samples: seq<Sample>, s: Sample)
    ensures |Capped(samples + [s])| <= if |samples| > CHART_POINTS then |samples| else CHART_POINTS
    ensures Capped(samples + [s])[|Capped(samples + [s])| - 1] == s
  {
  }
}
