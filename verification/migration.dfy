/** scripts/ftwctl.py, migrate_native: moving an older site to a native release over SSH.

    The box is a value that remote commands change. Every command ends done, failed before its effect or
    failed after it, and every answer may be anything: the world of a run chooses both. Here a run is a
    function of the box, the world and the arguments; module MigrationSite holds the tool that does it. */
module Migration {
  import opened Wrappers

  // ---- The box and its commands ----

  datatype Override = Absent | Native | Foreign

  datatype Unit = OldCore | NativeCore | OtherUnit

  /** Whose the data is: the old Core's, as a started native Core left it, or unpacked from the archive. */
  datatype Data = OldData | NativeData | RestoredData

  /** `base` is the unit file on disk without the drop-in, `loaded` what the service manager read last.
      `onBox` is the archive at the path the tool names, `moved` the same archive in a restore's safety
      directory, `offBox` the copy on the operator's computer. */
  datatype Box<Bytes> = Box(
    active: bool, drop: Override, base: Unit, loaded: Unit, data: Data,
    onBox: Option<Bytes>, moved: Option<Bytes>, offBox: Bytes)

  datatype Command =
    | Look            // hostname, curl, sha256sum, stat, test, uname, launcher status: reads only
    | IsActive
    | ShowUnit
    | TestNoOverride
    | Stage           // mktemp, chgrp, chmod, copies, install: the staging directory and the new root
    | Stop
    | MakeDropInDir
    | WriteOverride
    | RemoveOverride
    | Reload
    | Start
    | Restore
    | Cleanup         // rm -rf of the staging directory

  datatype Outcome = Done | FailedBefore | FailedAfter

  function UnitOf(drop: Override, base: Unit): Unit {
    match drop
    case Absent => base
    case Native => NativeCore
    case Foreign => OtherUnit
  }

  /** What a command does when it takes effect. Restore moves everything in the data directory, the
      archive with it, into a safety directory before it unpacks (go/internal/backup/archive.go). */
  function Effect<B>(b: Box<B>, c: Command): Box<B> {
    match c
    case Stop => b.(active := false)
    case WriteOverride => b.(drop := Native)
    case RemoveOverride => b.(drop := Absent)
    case Reload => b.(loaded := UnitOf(b.drop, b.base))
    case Start => b.(active := true, data := if b.loaded == NativeCore then NativeData else b.data)
    case Restore =>
      b.(data := RestoredData, moved := if b.onBox.Some? then b.onBox else b.moved, onBox := None)
    case _ => b
  }

  function Step<B>(b: Box<B>, c: Command, o: Outcome): Box<B> {
    if o == FailedBefore then b else Effect(b, c)
  }

  // ---- Answers ----

  datatype Answer =
    | Unreachable
    | Crash
    | Poll(current: string, healthy: bool, drivers: nat, historyComplete: bool)
    | Drivers(names: set<string>)
    | Identity(sha: string)

  predicate NativeTag(version: string) { |version| >= 3 && version[..3] == "v0." }

  /** wait_for_version's test. Only a 0.x version waits for its history. */
  predicate Ready(a: Answer, wanted: string, minDrivers: nat) {
    && a.Poll? && a.current == wanted && a.healthy && a.drivers >= minDrivers
    && (NativeTag(wanted) ==> a.historyComplete)
  }

  datatype Event<Bytes> =
    | Ran(cmd: Command, outcome: Outcome, before: Box<Bytes>)
    | Asked(answer: Answer, before: Box<Bytes>)

  type Log<Bytes> = seq<Event<Bytes>>

  /** What the world does at each point of a run, and how often each wait polls again after its first time. */
  datatype World = World(outcome: nat -> Outcome, answer: nat -> Answer, passes: nat -> bool, polls: nat -> nat)

  datatype Args = Args(tag: string, checkOnly: bool, argumentsOk: bool)

  datatype End = Complete | PreflightOnly | Refused | RolledBack | RecoveryFailed | Interrupted

  // ---- Properties of logs ----

  /** What an event leaves. */
  function Result<B>(e: Event<B>): Box<B> { if e.Ran? then Step(e.before, e.cmd, e.outcome) else e.before }

  /** The box after a log that started at b. */
  function After<B>(b: Box<B>, log: Log<B>): Box<B> { if log == [] then b else Result(log[|log| - 1]) }

  /** Event i + 1 saw what event i left. */
  ghost predicate Link<B>(log: Log<B>, i: nat) { i + 1 < |log| ==> log[i + 1].before == Result(log[i]) }

  /** Each event saw the box its predecessors left. */
  ghost predicate Faithful<B>(b: Box<B>, log: Log<B>) {
    && (log != [] ==> log[0].before == b)
    && forall i: nat {:trigger Link(log, i)} :: Link(log, i)
  }

  ghost predicate RanAt<B>(log: Log<B>, i: nat, c: Command) {
    i < |log| && log[i].Ran? && log[i].cmd == c
  }

  ghost predicate Never<B>(log: Log<B>, c: Command) {
    forall i :: 0 <= i < |log| ==> !(log[i].Ran? && log[i].cmd == c)
  }

  /** What a part of a run may put in the log. */
  datatype Kind =
    | Reading                                 // reads and staging
    | Asking                                  // answers only
    | Forwarding                              // no restore, starts only under the override, once loaded
    | PuttingBack(unit: Unit, stopped: bool)  // no restore, starts of the unit without override
    | Recovering(unit: Unit)                  // such starts, restores only right after a stop that succeeded

  predicate OldStart<B>(b: Box<B>, unit: Unit) { b.drop == Absent && b.loaded == unit }

  ghost predicate Allowed<B>(k: Kind, log: Log<B>, i: nat)
    requires i < |log|
  {
    log[i].Ran? ==>
      var c, b := log[i].cmd, log[i].before;
      match k
      case Reading => c == Look || c == IsActive || c == ShowUnit || c == TestNoOverride || c == Stage
      case Asking => false
      case Forwarding => c != Restore && (c == Start ==> b.drop == Native && b.loaded == NativeCore)
      case PuttingBack(unit, stopped) => c != Restore && (c == Start ==> OldStart(b, unit) && (stopped ==> !b.active))
      case Recovering(unit) => (c == Start ==> OldStart(b, unit)) && (c == Restore ==> RestoredStopped(log, i))
  }

  /** From `from` on, only what the kind allows. */
  ghost predicate Only<B>(k: Kind, from: nat, log: Log<B>) {
    forall i {:trigger Allowed(k, log, i)} :: from <= i < |log| ==> Allowed(k, log, i)
  }

  lemma {:induction false} OnlyThen<B>(k: Kind, from: nat, log: Log<B>, longer: Log<B>)
    requires log <= longer && Only(k, from, log) && Only(k, |log|, longer)
    ensures Only(k, from, longer)
  {
    forall i | from <= i < |longer| ensures Allowed(k, longer, i) {
      if i < |log| {
        assert Allowed(k, log, i);
        assert longer[i] == log[i] && (i > 0 ==> longer[i - 1] == log[i - 1]);
      }
    }
  }

  lemma {:induction false} OnlyOne<B>(k: Kind, log: Log<B>, longer: Log<B>)
    requires log <= longer && |longer| == |log| + 1 && Allowed(k, longer, |log|)
    ensures Only(k, |log|, longer)
  {
  }

  lemma {:induction false} OnlyNone<B>(k: Kind, log: Log<B>)
    ensures Only(k, |log|, log)
  {
  }

  /** What one kind allows another does. */
  lemma {:induction false} OnlyAlso<B>(k: Kind, j: Kind, from: nat, log: Log<B>)
    requires Only(k, from, log)
    requires forall i {:trigger Allowed(k, log, i)} :: from <= i < |log| && Allowed(k, log, i) ==> Allowed(j, log, i)
    ensures Only(j, from, log)
  {
    forall i | from <= i < |log| ensures Allowed(j, log, i) {
      assert Allowed(k, log, i);
    }
  }

  /** The old versions the tool moves: 1.x, 2.x and 3.x. */
  predicate OldVersion(v: string) {
    && |v| > 3 && v[0] == 'v' && '1' <= v[1] <= '3' && v[2] == '.'
    && var patch := AfterNumber(v[3..]);
    && patch.Some? && patch.value != "" && patch.value[0] == '.'
    && var end := AfterNumber(patch.value[1..]);
    end.Some? && (end.value == "" || ("-beta." <= end.value && AfterNumber(end.value[6..]) == Some("")))
  }

  predicate Digit(c: char) { '0' <= c <= '9' }

  function AfterDigits(s: string): string {
    if s == "" || !Digit(s[0]) then s else AfterDigits(s[1..])
  }

  /** What follows a number of one digit at least. */
  function AfterNumber(s: string): Option<string> {
    if s == "" || !Digit(s[0]) then None else Some(AfterDigits(s))
  }

  predicate Digits(s: string) { s != "" && forall i :: 0 <= i < |s| ==> Digit(s[i]) }

  /** A version's parts: a digit from 1 to 3 and two numbers, then maybe the number of a beta. */
  datatype Parts = Parts(major: char, minor: string, patch: string, beta: Option<string>)

  ghost predicate Reads(v: string, p: Parts) {
    && '1' <= p.major <= '3' && Digits(p.minor) && Digits(p.patch) && (p.beta.Some? ==> Digits(p.beta.value))
    && v == "v" + [p.major] + "." + p.minor + "." + p.patch + (if p.beta.Some? then "-beta." + p.beta.value else "")
  }

  lemma {:induction false} TakesDigits(s: string) returns (d: string)
    requires AfterNumber(s).Some?
    ensures Digits(d) && s == d + AfterNumber(s).value
  {
    if s[1..] == "" || !Digit(s[1]) {
      d := [s[0]];
      assert AfterDigits(s) == AfterDigits(s[1..]) == s[1..];
    } else {
      d := TakesDigits(s[1..]);
      d := [s[0]] + d;
    }
  }

  lemma {:induction false} PassesDigits(d: string, rest: string)
    requires Digits(d) && (rest != "" ==> !Digit(rest[0]))
    ensures AfterNumber(d + rest) == Some(rest)
  {
    var s := d + rest;
    assert s[0] == d[0] && s[1..] == d[1..] + rest;
    assert AfterDigits(s) == AfterDigits(s[1..]);
    if |d| > 1 {
      PassesDigits(d[1..], rest);
    } else {
      assert s[1..] == rest && AfterDigits(rest) == rest;
    }
  }

  lemma {:induction false} VersionReads(v: string) returns (p: Parts)
    requires OldVersion(v)
    ensures Reads(v, p)
  {
    hide AfterNumber;
    var patch := AfterNumber(v[3..]).value;
    var end := AfterNumber(patch[1..]).value;
    var minor := TakesDigits(v[3..]);
    var number := TakesDigits(patch[1..]);
    p := Parts(v[1], minor, number, None);
    if end != "" {
      var beta := TakesDigits(end[6..]);
      assert beta + "" == beta && end == "-beta." + beta;
      p := Parts(v[1], minor, number, Some(beta));
    }
    assert v == "v" + [v[1]] + "." + v[3..];
    assert patch == "." + patch[1..];
    WholeVersion(v, v[1], minor, patch, number, end);
  }

  lemma {:induction false} WholeVersion(v: string, major: char, minor: string, patch: string, number: string, end: string)
    requires v == "v" + [major] + "." + (minor + patch) && patch == "." + (number + end)
    ensures v == "v" + [major] + "." + minor + "." + number + end
  {
  }

  lemma {:induction false} ReadsVersion(v: string, p: Parts)
    requires Reads(v, p)
    ensures OldVersion(v)
  {
    var end := if p.beta.Some? then "-beta." + p.beta.value else "";
    var patch := "." + (p.patch + end);
    hide AfterNumber, AfterDigits;
    assert v[3..] == p.minor + patch;
    PassesDigits(p.minor, patch);
    assert patch[1..] == p.patch + end;
    PassesDigits(p.patch, end);
    if p.beta.Some? {
      assert end[6..] == p.beta.value && p.beta.value + "" == p.beta.value;
      PassesDigits(p.beta.value, "");
    }
  }

  /** The pattern by its parts. */
  lemma {:induction false} OldVersionReads(v: string)
    ensures OldVersion(v) <==> exists p :: Reads(v, p)
  {
    hide OldVersion, Reads;
    if OldVersion(v) {
      var p := VersionReads(v);
    }
    forall p | Reads(v, p) ensures OldVersion(v) {
      ReadsVersion(v, p);
    }
  }

  /** A SHA-256 digest as text. */
  predicate HexDigest(s: string) {
    |s| == 64 && forall i :: 0 <= i < |s| ==> Digit(s[i]) || 'a' <= s[i] <= 'f'
  }

  ghost predicate Known<B>(log: Log<B>) {
    && |log| > 2
    && log[1].Asked? && log[1].answer.Poll? && OldVersion(log[1].answer.current)
    && log[2].Asked? && log[2].answer.Poll? && log[2].answer.healthy
  }

  /** What a run knows before it stops the service: the old version, its healthy driver count, the site's
      identity and its drivers stand at these places of the log. */
  ghost predicate Gathered<B>(log: Log<B>) {
    && |log| > 17 && Known(log)
    && log[8].Asked? && log[8].answer.Identity? && HexDigest(log[8].answer.sha)
    && log[17].Asked? && log[17].answer.Drivers?
  }

  /** The trial's last three answers: native Core up with the tag and at least the old healthy drivers,
      none of the old drivers missing, and the same identity. */
  ghost predicate Confirmed<B>(log: Log<B>, tag: string)
    requires Gathered(log)
  {
    var n := |log|;
    && n >= 20
    && log[n - 3].Asked? && Ready(log[n - 3].answer, tag, log[2].answer.drivers)
    && log[n - 3].before.active && log[n - 3].before.loaded == NativeCore
    && log[n - 2].Asked? && log[n - 2].answer.Drivers? && log[17].answer.names <= log[n - 2].answer.names
    && log[n - 1].Asked? && log[n - 1].answer == log[8].answer
  }

  /** The run's last answer is the old version, healthy with the old driver count, the override gone. */
  ghost predicate SeenOld<B>(log: Log<B>, box: Box<B>)
    requires Gathered(log)
  {
    var last := log[|log| - 1];
    && last.Asked? && Ready(last.answer, log[1].answer.current, log[2].answer.drivers)
    && last.before == box && box.active && box.drop == Absent
  }

  ghost predicate RestoredStopped<B>(log: Log<B>, i: nat)
    requires i < |log|
  {
    i > 0 && RanAt(log, i - 1, Stop) && log[i - 1].outcome == Done && !log[i].before.active
  }

  lemma {:induction false} Extend<B>(b: Box<B>, log: Log<B>, e: Event<B>)
    requires Faithful(b, log) && e.before == After(b, log)
    ensures Faithful(b, log + [e]) && After(b, log + [e]) == Result(e)
  {
    forall i: nat ensures Link(log + [e], i) {
      assert Link(log, i);
    }
  }

  lemma {:induction false} Front<B>(b: Box<B>, log: Log<B>)
    requires Faithful(b, log) && log != []
    ensures Faithful(b, log[..|log| - 1]) && log[|log| - 1].before == After(b, log[..|log| - 1])
  {
    var front := log[..|log| - 1];
    forall i: nat ensures Link(front, i) {
      assert Link(log, i);
    }
    assert |log| > 1 ==> Link(log, |log| - 2);
  }

  // ---- Runs ----

  /** A run so far: the box it began with, the box now, the log. */
  datatype Run<Bytes> = Run(start: Box<Bytes>, box: Box<Bytes>, log: Log<Bytes>)

  ghost predicate Sound<B>(r: Run<B>) { Faithful(r.start, r.log) && r.box == After(r.start, r.log) }

  /** t goes on from r, by what the kind allows. */
  ghost predicate Goes<B>(r: Run<B>, t: Run<B>, k: Kind) {
    && Sound(t) && t.start == r.start && r.log <= t.log && t.box.base == r.box.base
    && Only(k, |r.log|, t.log)
  }

  lemma {:induction false} GoesThen<B>(r: Run<B>, t: Run<B>, u: Run<B>, k: Kind)
    requires Goes(r, t, k) && Goes(t, u, k)
    ensures Goes(r, u, k)
  {
    OnlyThen(k, |r.log|, t.log, u.log);
  }

  predicate Fine<B>(r: Run<B>, w: World) { w.outcome(|r.log|) == Done }

  /** remote: one command over SSH. */
  function Did<B>(r: Run<B>, w: World, c: Command): (t: Run<B>)
    requires Sound(r)
    ensures Sound(t) && t.start == r.start
    ensures t.log == r.log + [Ran(c, w.outcome(|r.log|), r.box)] && t.box == Step(r.box, c, w.outcome(|r.log|))
  {
    var e := Ran(c, w.outcome(|r.log|), r.box);
    Extend(r.start, r.log, e);
    Run(r.start, Step(r.box, c, w.outcome(|r.log|)), r.log + [e])
  }

  /** A command of the kind goes on from r. */
  lemma {:induction false} DidGoes<B>(r: Run<B>, w: World, c: Command, k: Kind)
    requires Sound(r) && Allowed(k, Did(r, w, c).log, |r.log|)
    ensures Goes(r, Did(r, w, c), k)
  {
    OnlyOne(k, r.log, Did(r, w, c).log);
  }

  /** Neither a start nor a restore: it suits every kind that allows commands of the switch. */
  lemma {:induction false} CalmGoes<B>(r: Run<B>, w: World, c: Command, k: Kind)
    requires Sound(r) && c != Start && c != Restore && !k.Reading? && !k.Asking?
    ensures Goes(r, Did(r, w, c), k)
  {
    assert Allowed(k, Did(r, w, c).log, |r.log|);
    DidGoes(r, w, c, k);
  }

  lemma {:induction false} NativeStartGoes<B>(r: Run<B>, w: World)
    requires Sound(r) && r.box.drop == Native && r.box.loaded == NativeCore
    ensures Goes(r, Did(r, w, Start), Forwarding)
  {
    assert Allowed(Forwarding, Did(r, w, Start).log, |r.log|);
    DidGoes(r, w, Start, Forwarding);
  }

  /** One API read, or a remote hash. */
  function Heard<B>(r: Run<B>, w: World): (t: Run<B>)
    requires Sound(r)
    ensures Sound(t) && t.start == r.start && t.box == r.box
    ensures t.log == r.log + [Asked(w.answer(|r.log|), r.box)]
  {
    var e := Asked(w.answer(|r.log|), r.box);
    Extend(r.start, r.log, e);
    Run(r.start, r.box, r.log + [e])
  }

  /** Answers suit every kind. */
  lemma {:induction false} HeardGoes<B>(r: Run<B>, w: World, k: Kind)
    requires Sound(r)
    ensures Goes(r, Heard(r, w), k)
  {
    assert Allowed(k, Heard(r, w).log, |r.log|);
    OnlyOne(k, r.log, Heard(r, w).log);
  }

  /** A run after one of the tool's parts, and whether the part got through. */
  datatype Part<Bytes> = Part(run: Run<Bytes>, ok: bool)

  datatype Wait = ReadyNow | TimedOut | Crashed

  datatype Waited<Bytes> = Waited(run: Run<Bytes>, wait: Wait)

  /** n commands that leave the modelled box alone; each may raise, and its output may be refused. */
  function Quiet<B>(r: Run<B>, w: World, c: Command, n: nat): (t: Part<B>)
    requires Sound(r) && (c == Look || c == Stage)
    ensures Goes(r, t.run, Reading) && t.run.box == r.box
    ensures t.ok ==> |t.run.log| == |r.log| + n
    ensures Smooth(w, |r.log|, |r.log| + n) ==> t.ok
    decreases n
  {
    if n == 0 then
      OnlyNone(Reading, r.log);
      Part(r, true)
    else
      var d := Did(r, w, c);
      DidGoes(r, w, c, Reading);
      assert Smooth(w, |r.log|, |r.log| + n) ==> SmoothAt(w, |r.log|);
      if !Fine(r, w) || !w.passes(|d.log|) then Part(d, false) else
      var t := Quiet(d, w, c, n - 1);
      SmoothRest(w, |r.log|, |r.log| + n);
      GoesThen(r, d, t.run, Reading);
      t
  }

  /** Nothing fails and nothing is refused at these places of the log. */
  ghost predicate Smooth(w: World, from: nat, until: nat) {
    forall i {:trigger SmoothAt(w, i)} :: from <= i < until ==> SmoothAt(w, i)
  }

  predicate SmoothAt(w: World, i: nat) { w.outcome(i) == Done && w.passes(i) && w.passes(i + 1) }

  lemma {:induction false} SmoothRest(w: World, from: nat, until: nat)
    ensures Smooth(w, from, until) ==>
            forall a: nat, b: nat :: from <= a && b <= until ==> Smooth(w, a, b)
  {
  }

  function Polled<B>(r: Run<B>, w: World, wanted: string, minDrivers: nat, left: nat): (t: Waited<B>)
    requires Sound(r)
    ensures Goes(r, t.run, Asking) && t.run.box == r.box
    ensures t.wait == ReadyNow ==> SawReady(t.run, wanted, minDrivers)
    ensures left > 0 ==> |t.run.log| > |r.log|
    decreases left
  {
    if left == 0 then
      OnlyNone(Asking, r.log);
      Waited(r, TimedOut)
    else
      var h := Heard(r, w);
      HeardGoes(r, w, Asking);
      if Ready(w.answer(|r.log|), wanted, minDrivers) then Waited(h, ReadyNow)
      else if w.answer(|r.log|) == Crash then Waited(h, Crashed) else
      var t := Polled(h, w, wanted, minDrivers, left - 1);
      GoesThen(r, h, t.run, Asking);
      t
  }

  /** The last answer is the wanted version, ready, from the box as it is. */
  ghost predicate SawReady<B>(r: Run<B>, wanted: string, minDrivers: nat) {
    && r.log != []
    && var last := r.log[|r.log| - 1]; last.Asked? && Ready(last.answer, wanted, minDrivers) && last.before == r.box
  }

  /** The API is not reached at these places of the log. */
  ghost predicate OutOfReach(w: World, from: nat, until: nat) {
    forall i :: from <= i < until ==> w.answer(i) == Unreachable
  }

  /** Nor in a wait that begins here. */
  ghost predicate InVain(w: World, at: nat) { OutOfReach(w, at, at + 1 + w.polls(at)) }

  lemma {:induction false} PolledInVain<B>(r: Run<B>, w: World, wanted: string, minDrivers: nat, left: nat)
    requires Sound(r)
    ensures var t := Polled(r, w, wanted, minDrivers, left);
            OutOfReach(w, |r.log|, |r.log| + left) ==> t.wait == TimedOut && |t.run.log| == |r.log| + left
    decreases left
  {
    if left > 0 {
      PolledInVain(Heard(r, w), w, wanted, minDrivers, left - 1);
    }
  }

  /** wait_for_version: its limit is positive, so it polls once at least. */
  function WaitedFor<B>(r: Run<B>, w: World, wanted: string, minDrivers: nat): (t: Waited<B>)
    requires Sound(r)
    ensures Goes(r, t.run, Asking) && t.run.box == r.box
    ensures t.wait == ReadyNow ==> SawReady(t.run, wanted, minDrivers)
    ensures |t.run.log| > |r.log|
    ensures InVain(w, |r.log|) ==> t.wait == TimedOut && |t.run.log| == |r.log| + 1 + w.polls(|r.log|)
    ensures Ready(w.answer(|r.log|), wanted, minDrivers) ==> t.wait == ReadyNow
  {
    PolledInVain(r, w, wanted, minDrivers, 1 + w.polls(|r.log|));
    Polled(r, w, wanted, minDrivers, 1 + w.polls(|r.log|))
  }

  /** The wanted version answers, healthy, with the drivers wanted, and if it is a 0.x version with its history
      complete. */
  predicate Good(w: World, i: nat, wanted: string, minDrivers: nat) {
    var a := w.answer(i);
    a.Poll? && a.current == wanted && a.healthy && a.drivers >= minDrivers && ("v0." <= wanted ==> a.historyComplete)
  }

  /** The wait goes on past these answers. */
  predicate GoesOn(w: World, from: nat, until: nat, wanted: string, minDrivers: nat) {
    forall i: nat :: from <= i < until ==> !Good(w, i, wanted, minDrivers) && w.answer(i) != Crash
  }

  /** How a wait ends, poll by poll. After its first poll it polls at most as often as the world lets it, and it
      ends at the first answer that is good or a crash. */
  lemma {:induction false} WaitEnds<B>(r: Run<B>, w: World, wanted: string, minDrivers: nat)
    requires Sound(r)
    ensures var t := WaitedFor(r, w, wanted, minDrivers);
            var n, last := |r.log|, |t.run.log| - 1;
            && n <= last <= n + w.polls(n) && GoesOn(w, n, last, wanted, minDrivers)
            && (t.wait == ReadyNow <==> Good(w, last, wanted, minDrivers))
            && (t.wait == Crashed <==> w.answer(last) == Crash)
            && (t.wait == TimedOut ==> last == n + w.polls(n))
  {
    PollEnds(r, w, wanted, minDrivers, 1 + w.polls(|r.log|));
    forall i: nat ensures Ready(w.answer(i), wanted, minDrivers) <==> Good(w, i, wanted, minDrivers) {
    }
  }

  /** The first good answer of a wait that begins at n comes at last. */
  predicate FirstGood(w: World, n: nat, last: nat, wanted: string, minDrivers: nat) {
    n <= last <= n + w.polls(n) && GoesOn(w, n, last, wanted, minDrivers) && Good(w, last, wanted, minDrivers)
  }

  lemma {:induction false} ReadyAtFirstGood<B>(r: Run<B>, w: World, wanted: string, minDrivers: nat)
    requires Sound(r)
    ensures var t := WaitedFor(r, w, wanted, minDrivers);
            && (t.wait == ReadyNow <==> FirstGood(w, |r.log|, |t.run.log| - 1, wanted, minDrivers))
            && forall last: nat :: FirstGood(w, |r.log|, last, wanted, minDrivers) ==> last == |t.run.log| - 1
  {
    hide Good, WaitedFor;
    WaitEnds(r, w, wanted, minDrivers);
    CrashIsNotGood(w, wanted, minDrivers);
  }

  lemma {:induction false} CrashIsNotGood(w: World, wanted: string, minDrivers: nat)
    ensures forall i: nat :: w.answer(i) == Crash ==> !Good(w, i, wanted, minDrivers)
  {
  }

  lemma {:induction false} PollEnds<B>(r: Run<B>, w: World, wanted: string, minDrivers: nat, left: nat)
    requires Sound(r) && left > 0
    ensures var t := Polled(r, w, wanted, minDrivers, left);
            var n, last := |r.log|, |t.run.log| - 1;
            && n <= last < n + left
            && (forall i :: n <= i < last ==> !Ready(w.answer(i), wanted, minDrivers) && w.answer(i) != Crash)
            && (t.wait == ReadyNow <==> Ready(w.answer(last), wanted, minDrivers))
            && (t.wait == Crashed <==> w.answer(last) == Crash)
            && (t.wait == TimedOut ==> last == n + left - 1)
    decreases left
  {
    hide Ready, Sound, Goes, SawReady;
    var n := |r.log|;
    var h := Heard(r, w);
    CrashIsNotReady(wanted, minDrivers);
    if Ready(w.answer(n), wanted, minDrivers) || w.answer(n) == Crash {
    } else if left > 1 {
      PollEnds(h, w, wanted, minDrivers, left - 1);
    }
  }

  lemma {:induction false} CrashIsNotReady(wanted: string, minDrivers: nat)
    ensures !Ready(Crash, wanted, minDrivers)
  {
  }

  /** Answers suit every kind. */
  lemma {:induction false} AskingIs<B>(r: Run<B>, t: Run<B>, k: Kind)
    requires Goes(r, t, Asking)
    ensures Goes(r, t, k)
  {
    OnlyAlso(Asking, k, |r.log|, t.log);
  }

  lemma {:induction false} GatheredOn<B>(log: Log<B>, longer: Log<B>)
    requires Gathered(log) && log <= longer
    ensures Gathered(longer)
  {
  }

  // ---- Before the stop ----

  /** Only reads and staging, on an unchanged box. */
  ghost predicate Untouched<B>(r: Run<B>, t: Run<B>) { Goes(r, t, Reading) && t.box == r.box }

  lemma {:induction false} UntouchedThen<B>(r: Run<B>, t: Run<B>, u: Run<B>)
    requires Untouched(r, t) && Untouched(t, u)
    ensures Untouched(r, u)
  {
    GoesThen(r, t, u, Reading);
  }

  /** A command that only reads. */
  function Looked<B>(r: Run<B>, w: World, c: Command): (t: Run<B>)
    requires Sound(r) && (c == IsActive || c == ShowUnit || c == TestNoOverride)
    ensures Untouched(r, t) && |t.log| == |r.log| + 1
  {
    DidGoes(r, w, c, Reading);
    Did(r, w, c)
  }

  /** The first answers: an old version, healthy. */
  function CheckVersion<B>(r: Run<B>, w: World): (t: Part<B>)
    requires Sound(r) && r.log == []
    ensures Untouched(r, t.run)
    ensures t.ok ==> Known(t.run.log) && |t.run.log| == 3
  {
    var a := Quiet(r, w, Look, 1);
    if !a.ok then a else
    var info := Heard(a.run, w);
    HeardGoes(a.run, w, Reading);
    UntouchedThen(r, a.run, info);
    if !w.answer(1).Poll? then Part(info, false) else
    var health := Heard(info, w);
    HeardGoes(info, w, Reading);
    UntouchedThen(r, info, health);
    Part(health, OldVersion(w.answer(1).current) && w.answer(2).Poll? && w.answer(2).healthy)
  }

  /** The service is active and runs the old unit. */
  function CheckService<B>(r: Run<B>, w: World): (t: Part<B>)
    requires Sound(r) && |r.log| == 3
    ensures Untouched(r, t.run)
    ensures t.ok ==> |t.run.log| == 8 && r.box.active && r.box.loaded == OldCore
  {
    hide Quiet, Looked, Sound;
    var a := Looked(r, w, IsActive);
    if !Fine(r, w) || !a.box.active then Part(a, false) else
    var b := Quiet(a, w, Look, 1);
    UntouchedThen(r, a, b.run);
    if !b.ok then b else
    var c := Looked(b.run, w, ShowUnit);
    UntouchedThen(r, b.run, c);
    if !Fine(b.run, w) || c.box.loaded != OldCore || !w.passes(|c.log|) then Part(c, false) else
    var d := Quiet(c, w, Look, 2);
    UntouchedThen(r, c, d.run);
    d
  }

  /** The site's identity matches the backup, the archive is there, and no override exists. */
  function CheckBackup<B>(r: Run<B>, w: World): (t: Part<B>)
    requires Sound(r) && |r.log| == 8
    ensures Untouched(r, t.run)
    ensures t.ok ==> |t.run.log| == 16 && t.run.log[8].Asked? && t.run.log[8].answer.Identity?
    ensures t.ok ==> HexDigest(t.run.log[8].answer.sha) && r.box.drop == Absent
  {
    hide Quiet, Heard, Looked, Sound;
    OnlyNone(Reading, r.log);
    if !w.passes(8) then Part(r, false) else
    var a := Heard(r, w);
    HeardGoes(r, w, Reading);
    if !w.answer(8).Identity? || !HexDigest(w.answer(8).sha) || !w.passes(9) then Part(a, false) else
    var b := Quiet(a, w, Look, 5);
    UntouchedThen(r, a, b.run);
    if !b.ok then b else
    var c := Looked(b.run, w, TestNoOverride);
    UntouchedThen(r, b.run, c);
    if !Fine(b.run, w) || c.box.drop != Absent then Part(c, false) else
    var d := Looked(c, w, TestNoOverride);
    UntouchedThen(r, c, d);
    Part(d, Fine(c, w) && d.box.drop == Absent)
  }

  /** The old drivers, then the package staged and installed in its own root. */
  function StagePackage<B>(r: Run<B>, w: World): (t: Part<B>)
    requires Sound(r) && |r.log| == 16
    ensures Untouched(r, t.run)
    ensures t.ok ==> |t.run.log| == 33 && t.run.log[17].Asked? && t.run.log[17].answer.Drivers?
  {
    hide Quiet, Heard, Sound;
    var a := Quiet(r, w, Look, 1);
    if !a.ok then a else
    var b := Heard(a.run, w);
    HeardGoes(a.run, w, Reading);
    UntouchedThen(r, a.run, b);
    if !w.answer(17).Drivers? || !w.passes(18) then Part(b, false) else
    var c := Quiet(b, w, Stage, 14);
    UntouchedThen(r, b, c.run);
    if !c.ok then c else
    var d := Quiet(c.run, w, Look, 1);
    UntouchedThen(r, c.run, d.run);
    d
  }

  /** The checks after the arguments. */
  function Identify<B>(r: Run<B>, w: World): (t: Part<B>)
    requires Sound(r) && r.log == []
    ensures Untouched(r, t.run)
    ensures t.ok ==> |t.run.log| == 8 && Known(t.run.log) && r.box.active && r.box.loaded == OldCore
  {
    hide CheckVersion, CheckService;
    var a := CheckVersion(r, w);
    if !a.ok then a else
    var b := CheckService(a.run, w);
    UntouchedThen(r, a.run, b.run);
    b
  }

  datatype Flight<Bytes> = Flight(run: Run<Bytes>, go: bool, end: End)

  /** Everything up to the stop. go means the switch may begin. */
  function Preflight<B>(r: Run<B>, w: World, args: Args): (t: Flight<B>)
    requires Sound(r) && r.log == []
    ensures Untouched(r, t.run)
    ensures !t.go ==> t.end == Refused || t.end == PreflightOnly
    ensures t.go ==> Gathered(t.run.log) && |t.run.log| == 33 && Admitted(r.box, args)
  {
    hide Identify, CheckBackup, StagePackage;
    OnlyNone(Reading, r.log);
    if !args.argumentsOk then Flight(r, false, Refused) else
    var a := Identify(r, w);
    if !a.ok then Flight(a.run, false, Refused)
    else if args.checkOnly then Flight(a.run, false, PreflightOnly) else
    var b := CheckBackup(a.run, w);
    UntouchedThen(r, a.run, b.run);
    if !b.ok then Flight(b.run, false, Refused) else
    var c := StagePackage(b.run, w);
    UntouchedThen(r, b.run, c.run);
    Flight(c.run, c.ok, Refused)
  }

  /** What the tool asks of arguments and box before it switches: old unit active, no override. */
  predicate Admitted<B>(b: Box<B>, args: Args) {
    args.argumentsOk && !args.checkOnly && b.active && b.loaded == OldCore && b.drop == Absent
  }

  // ---- Exactly when the switch begins ----

  predicate PassAt(w: World, i: nat) { w.outcome(i) == Done && w.passes(i + 1) }

  /** The commands at these places succeed and their outputs are accepted. */
  predicate Passing(w: World, from: nat, until: nat) {
    forall i: nat :: from <= i < until ==> PassAt(w, i)
  }

  lemma {:induction false} QuietPasses<B>(r: Run<B>, w: World, c: Command, n: nat)
    requires Sound(r) && (c == Look || c == Stage)
    ensures Quiet(r, w, c, n).ok <==> Passing(w, |r.log|, |r.log| + n)
    decreases n
  {
    hide Sound, Goes;
    if n > 0 {
      var d := Did(r, w, c);
      assert PassAt(w, |r.log|) <==> Fine(r, w) && w.passes(|d.log|);
      if Fine(r, w) && w.passes(|d.log|) {
        QuietPasses(d, w, c, n - 1);
      }
    }
  }

  /** The first answers are those of an old version, healthy. */
  predicate OldAnswers(w: World) {
    w.answer(1).Poll? && OldVersion(w.answer(1).current) && w.answer(2).Poll? && w.answer(2).healthy
  }

  lemma {:induction false} VersionPasses<B>(r: Run<B>, w: World)
    requires Sound(r) && r.log == []
    ensures CheckVersion(r, w).ok <==> Passing(w, 0, 1) && OldAnswers(w)
  {
    hide Quiet, OldVersion, Sound, Goes, Passing;
    QuietPasses(r, w, Look, 1);
  }

  lemma {:induction false} ServicePasses<B>(r: Run<B>, w: World)
    requires Sound(r) && |r.log| == 3
    ensures CheckService(r, w).ok <==>
            && r.box.active && r.box.loaded == OldCore
            && w.outcome(3) == Done && Passing(w, 4, 5) && PassAt(w, 5) && Passing(w, 6, 8)
  {
    hide Quiet, Sound, Only, Passing;
    var a := Looked(r, w, IsActive);
    QuietPasses(a, w, Look, 1);
    if Passing(w, 4, 5) {
      var c := Looked(Quiet(a, w, Look, 1).run, w, ShowUnit);
      QuietPasses(c, w, Look, 2);
    }
  }

  lemma {:induction false} BackupPasses<B>(r: Run<B>, w: World)
    requires Sound(r) && |r.log| == 8
    ensures CheckBackup(r, w).ok <==>
            && r.box.drop == Absent
            && w.passes(8) && w.answer(8).Identity? && HexDigest(w.answer(8).sha) && w.passes(9)
            && Passing(w, 9, 14) && w.outcome(14) == Done && w.outcome(15) == Done
  {
    hide Quiet, Sound, Only, Passing, HexDigest;
    QuietPasses(Heard(r, w), w, Look, 5);
  }

  lemma {:induction false} StagePasses<B>(r: Run<B>, w: World)
    requires Sound(r) && |r.log| == 16
    ensures StagePackage(r, w).ok <==>
            && Passing(w, 16, 17) && w.answer(17).Drivers? && w.passes(18) && Passing(w, 18, 32) && Passing(w, 32, 33)
  {
    hide Quiet, Sound, Only, Passing;
    QuietPasses(r, w, Look, 1);
    if Passing(w, 16, 17) {
      var b := Heard(Quiet(r, w, Look, 1).run, w);
      QuietPasses(b, w, Stage, 14);
      if Passing(w, 18, 32) {
        QuietPasses(Quiet(b, w, Stage, 14).run, w, Look, 1);
      }
    }
  }

  /** Nothing before the stop fails or is refused: the commands at places 0 to 32, with the answers between
      them an old healthy version, the site's digest, which the backup has too, and its drivers. */
  predicate AllInOrder(w: World) {
    && OldAnswers(w) && w.answer(8).Identity? && HexDigest(w.answer(8).sha) && w.passes(9)
    && w.answer(17).Drivers? && w.passes(18)
    && w.outcome(3) == Done && w.outcome(14) == Done && w.outcome(15) == Done
    && Passing(w, 0, 1) && Passing(w, 4, 8) && Passing(w, 9, 14) && Passing(w, 16, 17) && Passing(w, 18, 33)
  }

  lemma {:induction false} PassingJoins(w: World)
    ensures Passing(w, 4, 8) <==> Passing(w, 4, 5) && PassAt(w, 5) && Passing(w, 6, 8)
    ensures Passing(w, 18, 33) <==> Passing(w, 18, 32) && Passing(w, 32, 33)
    ensures Passing(w, 4, 8) ==> w.passes(8)
  {
    assert Passing(w, 4, 8) ==> PassAt(w, 7);
  }

  lemma {:induction false} SwitchesIf<B>(b: Box<B>, w: World, args: Args)
    ensures Preflight(Run(b, b, []), w, args).go <==> Admitted(b, args) && AllInOrder(w)
  {
    hide Identify, CheckBackup, StagePackage, Passing, HexDigest, OldVersion, Only;
    var r := Run(b, b, []);
    IdentifyPasses(r, w);
    PassingJoins(w);
    var a := Identify(r, w);
    if a.ok {
      BackupPasses(a.run, w);
      var c := CheckBackup(a.run, w);
      if c.ok {
        StagePasses(c.run, w);
      }
    }
  }

  lemma {:induction false} IdentifyPasses<B>(r: Run<B>, w: World)
    requires Sound(r) && r.log == []
    ensures Identify(r, w).ok <==>
            && Passing(w, 0, 1) && OldAnswers(w) && r.box.active && r.box.loaded == OldCore
            && w.outcome(3) == Done && Passing(w, 4, 5) && PassAt(w, 5) && Passing(w, 6, 8)
  {
    hide CheckVersion, CheckService, Passing, OldVersion, Sound, Only;
    VersionPasses(r, w);
    var a := CheckVersion(r, w);
    if a.ok {
      ServicePasses(a.run, w);
    }
  }

  // ---- The switch ----

  ghost predicate SameArchive<B>(a: Box<B>, b: Box<B>) { a.onBox == b.onBox && a.moved == b.moved }

  /** A part of the switch: how far it got, the tool's flag, and whether a native start took effect. */
  datatype Tried<Bytes> = Tried(run: Run<Bytes>, done: bool, switched: bool, native: bool)

  function DataAfter<B>(b: Box<B>, native: bool): Data { if native then NativeData else b.data }

  /** Write the override and load it. Called with the flag set. */
  function LoadNew<B>(r: Run<B>, w: World): (t: Part<B>)
    requires Sound(r)
    ensures Goes(r, t.run, Forwarding) && SameArchive(r.box, t.run.box) && t.run.box.data == r.box.data
    ensures t.ok ==> t.run.box.drop == Native && t.run.box.loaded == NativeCore && |t.run.log| == |r.log| + 2
    ensures t.ok == (w.outcome(|r.log|) == Done && w.outcome(|r.log| + 1) == Done)
  {
    hide Did, Sound, Goes, Allowed;
    var a := Did(r, w, WriteOverride);
    CalmGoes(r, w, WriteOverride, Forwarding);
    if !Fine(r, w) then Part(a, false) else
    var b := Did(a, w, Reload);
    CalmGoes(a, w, Reload, Forwarding);
    GoesThen(r, a, b, Forwarding);
    Part(b, Fine(a, w))
  }

  /** And start it. */
  function StartNew<B>(r: Run<B>, w: World): (t: Tried<B>)
    requires Sound(r)
    ensures Goes(r, t.run, Forwarding) && SameArchive(r.box, t.run.box)
    ensures t.done ==> t.run.box.active && t.run.box.drop == Native && t.run.box.loaded == NativeCore
    ensures t.switched && t.run.box.data == DataAfter(r.box, t.native)
    ensures t.native == NativeStart(w, |r.log|)
  {
    hide LoadNew, Did, Sound, Allowed;
    var a := LoadNew(r, w);
    if !a.ok then Tried(a.run, false, true, false) else
    var c := Did(a.run, w, Start);
    NativeStartGoes(a.run, w);
    GoesThen(r, a.run, c, Forwarding);
    Tried(c, Fine(a.run, w), true, w.outcome(|a.run.log|) != FailedBefore)
  }

  /** Override and reload went through, and the start took effect. */
  predicate NativeStart(w: World, at: nat) {
    w.outcome(at) == Done && w.outcome(at + 1) == Done && w.outcome(at + 2) != FailedBefore
  }

  /** Stop the old service and make room for the override. */
  function StopService<B>(r: Run<B>, w: World): (t: Part<B>)
    requires Sound(r)
    ensures Goes(r, t.run, Forwarding) && RanAt(t.run.log, |r.log|, Stop)
    ensures t.run.box == r.box.(active := t.run.box.active)
    ensures t.ok == (w.outcome(|r.log|) == Done && w.outcome(|r.log| + 1) == Done)
    ensures t.ok ==> |t.run.log| == |r.log| + 2
  {
    hide Did, Sound, Allowed;
    var a := Did(r, w, Stop);
    CalmGoes(r, w, Stop, Forwarding);
    if !Fine(r, w) then Part(a, false) else
    var b := Did(a, w, MakeDropInDir);
    CalmGoes(a, w, MakeDropInDir, Forwarding);
    GoesThen(r, a, b, Forwarding);
    Part(b, Fine(a, w))
  }

  /** Stop the old service and start the new command. */
  function Swap<B>(r: Run<B>, w: World): (t: Tried<B>)
    requires Sound(r) && r.box.drop == Absent
    ensures Goes(r, t.run, Forwarding) && SameArchive(r.box, t.run.box)
    ensures RanAt(t.run.log, |r.log|, Stop)
    ensures !t.switched ==> t.run.box.drop == Absent && t.run.box.loaded == r.box.loaded
    ensures t.done ==> t.switched && t.run.box.active && t.run.box.drop == Native && t.run.box.loaded == NativeCore
    ensures t.run.box.data == DataAfter(r.box, t.native)
    ensures t.native == (w.outcome(|r.log|) == Done && w.outcome(|r.log| + 1) == Done && NativeStart(w, |r.log| + 2))
  {
    hide StopService, StartNew, Sound, Only;
    var a := StopService(r, w);
    if !a.ok then Tried(a.run, false, false, false) else
    var c := StartNew(a.run, w);
    GoesThen(r, a.run, c.run, Forwarding);
    c
  }

  /** The new Core is ready, its drivers are all there, its identity is the site's. */
  function Confirm<B>(r: Run<B>, w: World, tag: string): (t: Part<B>)
    requires Sound(r) && Gathered(r.log) && r.box.active && r.box.loaded == NativeCore
    ensures Goes(r, t.run, Asking) && t.run.box == r.box
    ensures t.ok ==> Confirmed(t.run.log, tag)
    ensures InVain(w, |r.log|) ==> !t.ok && |t.run.log| == |r.log| + 1 + w.polls(|r.log|)
  {
    hide WaitedFor, Heard, Sound;
    var a := WaitedFor(r, w, tag, r.log[2].answer.drivers);
    if a.wait != ReadyNow then Part(a.run, false) else
    var b := Heard(a.run, w);
    HeardGoes(a.run, w, Asking);
    GoesThen(r, a.run, b, Asking);
    var drivers := w.answer(|a.run.log|);
    if !drivers.Drivers? || !(r.log[17].answer.names <= drivers.names) then Part(b, false) else
    var c := Heard(b, w);
    HeardGoes(b, w, Asking);
    GoesThen(r, b, c, Asking);
    Part(c, w.answer(|b.log|) == r.log[8].answer)
  }

  /** The body of the try. */
  function Trial<B>(r: Run<B>, w: World, tag: string): (t: Tried<B>)
    requires Sound(r) && Gathered(r.log) && r.box.drop == Absent
    ensures Goes(r, t.run, Forwarding) && SameArchive(r.box, t.run.box)
    ensures RanAt(t.run.log, |r.log|, Stop)
    ensures !t.switched ==> t.run.box.drop == Absent && t.run.box.loaded == r.box.loaded
    ensures t.done ==>
              && Confirmed(t.run.log, tag)
              && t.run.box.active && t.run.box.drop == Native && t.run.box.loaded == NativeCore
    ensures t.run.box.data == DataAfter(r.box, t.native)
    ensures t.native == (w.outcome(|r.log|) == Done && w.outcome(|r.log| + 1) == Done && NativeStart(w, |r.log| + 2))
  {
    hide Swap, Confirm, Sound;
    var a := Swap(r, w);
    if !a.done then a else
    var b := Confirm(a.run, w, tag);
    AskingIs(a.run, b.run, Forwarding);
    GoesThen(r, a.run, b.run, Forwarding);
    Tried(b.run, b.ok, true, a.native)
  }

  // ---- Exactly when the switch is completed ----

  /** Five commands from here on succeed. */
  predicate FiveDone(w: World, at: nat) {
    && w.outcome(at) == Done && w.outcome(at + 1) == Done && w.outcome(at + 2) == Done
    && w.outcome(at + 3) == Done && w.outcome(at + 4) == Done
  }

  lemma {:induction false} SwapDone<B>(r: Run<B>, w: World)
    requires Sound(r) && r.box.drop == Absent
    ensures Swap(r, w).done <==> FiveDone(w, |r.log|)
    ensures Swap(r, w).done ==> |Swap(r, w).run.log| == |r.log| + 5
  {
    hide Did, StopService, LoadNew, Sound, Only, SameArchive;
    var a := StopService(r, w);
    if a.ok {
      StartDone(a.run, w);
    }
  }

  lemma {:induction false} StartDone<B>(r: Run<B>, w: World)
    requires Sound(r)
    ensures StartNew(r, w).done <==> w.outcome(|r.log|) == Done && w.outcome(|r.log| + 1) == Done && w.outcome(|r.log| + 2) == Done
    ensures StartNew(r, w).done ==> |StartNew(r, w).run.log| == |r.log| + 3
  {
    hide LoadNew, Only, SameArchive;
  }

  /** The new command is confirmed by the three answers that end at last + 2. */
  predicate ConfirmedAt(w: World, n: nat, last: nat, tag: string, health: Answer, drivers: Answer, identity: Answer)
    requires health.Poll? && drivers.Drivers?
  {
    && FirstGood(w, n, last, tag, health.drivers)
    && w.answer(last + 1).Drivers? && drivers.names <= w.answer(last + 1).names && w.answer(last + 2) == identity
  }

  lemma {:induction false} ConfirmedIff<B>(r: Run<B>, w: World, tag: string)
    requires Sound(r) && Gathered(r.log) && r.box.active && r.box.loaded == NativeCore
    ensures var t := Confirm(r, w, tag);
            t.ok <==> exists last: nat ::
              ConfirmedAt(w, |r.log|, last, tag, r.log[2].answer, r.log[17].answer, r.log[8].answer)
    ensures var t := Confirm(r, w, tag);
            forall last: nat :: ConfirmedAt(w, |r.log|, last, tag, r.log[2].answer, r.log[17].answer, r.log[8].answer) ==>
              |t.run.log| == last + 3
  {
    hide WaitedFor, FirstGood, Only, Confirmed, OldVersion, HexDigest, Sound;
    ReadyAtFirstGood(r, w, tag, r.log[2].answer.drivers);
    var last := |WaitedFor(r, w, tag, r.log[2].answer.drivers).run.log| - 1;
    assert Confirm(r, w, tag).ok <==>
      ConfirmedAt(w, |r.log|, last, tag, r.log[2].answer, r.log[17].answer, r.log[8].answer);
  }

  lemma {:induction false} TrialDone<B>(r: Run<B>, w: World, tag: string, n: nat)
    requires Sound(r) && Gathered(r.log) && r.box.drop == Absent && n == |r.log| + 5
    ensures var t := Trial(r, w, tag);
            t.done <==> FiveDone(w, |r.log|) && exists last: nat ::
              ConfirmedAt(w, n, last, tag, r.log[2].answer, r.log[17].answer, r.log[8].answer)
    ensures var t := Trial(r, w, tag);
            t.done ==> forall last: nat ::
              ConfirmedAt(w, n, last, tag, r.log[2].answer, r.log[17].answer, r.log[8].answer) ==> |t.run.log| == last + 3
  {
    hide Swap, Confirm, FiveDone, ConfirmedAt, Only, OldVersion, HexDigest, SameArchive, Confirmed;
    SwapDone(r, w);
    var a := Swap(r, w);
    if a.done {
      ConfirmedIff(a.run, w, tag);
    }
  }

  // ---- Recovery ----

  /** Stop the new command, take the override away and load the unit on disk. */
  function Undo<B>(r: Run<B>, w: World, ghost unit: Unit): (t: Part<B>)
    requires Sound(r)
    ensures Goes(r, t.run, PuttingBack(unit, true)) && SameArchive(r.box, t.run.box) && t.run.box.data == r.box.data
    ensures t.ok ==> t.run.box.drop == Absent && t.run.box.loaded == r.box.base && !t.run.box.active
  {
    hide Did, Sound, Goes, Allowed;
    var k := PuttingBack(unit, true);
    var a := Did(r, w, Stop);
    CalmGoes(r, w, Stop, k);
    if !Fine(r, w) then Part(a, false) else
    var b := Did(a, w, RemoveOverride);
    CalmGoes(a, w, RemoveOverride, k);
    GoesThen(r, a, b, k);
    if !Fine(a, w) then Part(b, false) else
    var c := Did(b, w, Reload);
    CalmGoes(b, w, Reload, k);
    GoesThen(r, b, c, k);
    Part(c, Fine(b, w))
  }

  /** Start the old service and wait for its version. */
  function StartOld<B>(r: Run<B>, w: World, ghost stopped: bool): (t: Waited<B>)
    requires Sound(r) && Gathered(r.log) && r.box.drop == Absent && (stopped ==> !r.box.active)
    ensures Goes(r, t.run, PuttingBack(r.box.loaded, stopped)) && SameArchive(r.box, t.run.box)
    ensures t.run.box.drop == Absent && t.run.box.loaded == r.box.loaded
    ensures RanAt(t.run.log, |r.log|, Start) && t.run.log[|r.log|].before == r.box
    ensures t.wait != Crashed ==>
              t.run.box.active && t.run.box.data == DataAfter(r.box, r.box.loaded == NativeCore)
    ensures t.wait == ReadyNow ==> SeenOld(t.run.log, t.run.box)
  {
    hide Did, WaitedFor, Sound;
    var k := PuttingBack(r.box.loaded, stopped);
    var a := Did(r, w, Start);
    DidGoes(r, w, Start, k);
    if !Fine(r, w) then Waited(a, Crashed) else
    var t := WaitedFor(a, w, r.log[1].answer.current, r.log[2].answer.drivers);
    AskingIs(a, t.run, k);
    GoesThen(r, a, t.run, k);
    t
  }

  /** The unit that recovery starts: the one on disk once the flag was set, the one loaded before. */
  function RecoveryUnit<B>(b: Box<B>, switched: bool): Unit { if switched then b.base else OldCore }

  /** The except branch's first half: back to the old start command, then wait for the old version. */
  function PutBack<B>(r: Run<B>, w: World, switched: bool): (t: Waited<B>)
    requires Sound(r) && Gathered(r.log) && (!switched ==> r.box.drop == Absent && r.box.loaded == OldCore)
    ensures Goes(r, t.run, PuttingBack(RecoveryUnit(r.box, switched), switched)) && SameArchive(r.box, t.run.box)
    ensures t.wait != Crashed ==>
              && t.run.box.active && t.run.box.drop == Absent && t.run.box.loaded == RecoveryUnit(r.box, switched)
              && t.run.box.data == DataAfter(r.box, t.run.box.loaded == NativeCore)
    ensures t.wait == ReadyNow ==> SeenOld(t.run.log, t.run.box)
  {
    hide Undo, StartOld, Sound;
    if !switched then StartOld(r, w, false) else
    var a := Undo(r, w, r.box.base);
    if !a.ok then Waited(a.run, Crashed) else
    var t := StartOld(a.run, w, true);
    GoesThen(r, a.run, t.run, PuttingBack(r.box.base, true));
    t
  }

  lemma {:induction false} PuttingBackRecovers<B>(r: Run<B>, t: Run<B>, unit: Unit, stopped: bool)
    requires Goes(r, t, PuttingBack(unit, stopped))
    ensures Goes(r, t, Recovering(unit))
  {
    OnlyAlso(PuttingBack(unit, stopped), Recovering(unit), |r.log|, t.log);
  }

  /** The restore took effect: its stop went through and it did not fail before. */
  predicate RestoreTook(w: World, at: nat) { w.outcome(at) == Done && w.outcome(at + 1) != FailedBefore }

  /** The archive has left its path for the safety directory. */
  ghost predicate Moved<B>(before: Box<B>, after: Box<B>) {
    after.onBox == None && (before.onBox.Some? ==> after.moved == before.onBox)
  }

  lemma {:induction false} RestoreGoes<B>(r: Run<B>, w: World, k: Kind)
    requires Sound(r) && Fine(r, w) && k.Recovering?
    ensures var a := Did(r, w, Stop); Goes(a, Did(a, w, Restore), k)
  {
    var a := Did(r, w, Stop);
    var b := Did(a, w, Restore);
    assert b.log[|r.log|] == a.log[|r.log|];
    assert RestoredStopped(b.log, |a.log|);
    DidGoes(a, w, Restore, k);
  }

  /** Stop the service and unpack the verified archive. */
  function Unpack<B>(r: Run<B>, w: World, ghost unit: Unit): (t: Part<B>)
    requires Sound(r)
    ensures Goes(r, t.run, Recovering(unit))
    ensures if RestoreTook(w, |r.log|) then Moved(r.box, t.run.box) else SameArchive(r.box, t.run.box)
    ensures t.ok ==>
              && RestoreTook(w, |r.log|) && |t.run.log| == |r.log| + 2 && RanAt(t.run.log, |r.log| + 1, Restore)
              && t.run.box == r.box.(active := false, data := RestoredData, onBox := t.run.box.onBox, moved := t.run.box.moved)
  {
    hide Did, Sound;
    var k := Recovering(unit);
    var a := Did(r, w, Stop);
    DidGoes(r, w, Stop, k);
    if !Fine(r, w) then Part(a, false) else
    var b := Did(a, w, Restore);
    RestoreGoes(r, w, k);
    GoesThen(r, a, b, k);
    Part(b, Fine(a, w))
  }

  /** Its second half: restore the data while stopped, and start again. */
  function RestoreData<B>(r: Run<B>, w: World): (t: Waited<B>)
    requires Sound(r) && Gathered(r.log) && r.box.active && r.box.drop == Absent
    ensures Goes(r, t.run, Recovering(r.box.loaded))
    ensures if RestoreTook(w, |r.log|) then Moved(r.box, t.run.box) else SameArchive(r.box, t.run.box)
    ensures t.wait != Crashed ==>
              && RestoreTook(w, |r.log|) && RanAt(t.run.log, |r.log| + 1, Restore)
              && t.run.box.active && t.run.box.drop == Absent && t.run.box.loaded == r.box.loaded
              && t.run.box.data == if r.box.loaded == NativeCore then NativeData else RestoredData
    ensures t.wait == ReadyNow ==> SeenOld(t.run.log, t.run.box)
  {
    hide Unpack, StartOld, Sound;
    var a := Unpack(r, w, r.box.loaded);
    if !a.ok then Waited(a.run, Crashed) else
    GatheredOn(r.log, a.run.log);
    var t := StartOld(a.run, w, true);
    PuttingBackRecovers(a.run, t.run, r.box.loaded, true);
    GoesThen(r, a.run, t.run, Recovering(r.box.loaded));
    t
  }

  /** How recovery went: the first wait, where the log stood after it, and the end. */
  datatype Recovered<Bytes> = Recovered(run: Run<Bytes>, end: End, first: Wait, at: nat)

  /** What recovery leaves of the data it found, given the unit it started and how its first wait went. */
  function DataThen(found: Data, unit: Unit, first: Wait): Data {
    if unit == NativeCore then NativeData else if first == TimedOut then RestoredData else found
  }

  function Recover<B>(r: Run<B>, w: World, switched: bool): (t: Recovered<B>)
    requires Sound(r) && Gathered(r.log) && (!switched ==> r.box.drop == Absent && r.box.loaded == OldCore)
    ensures Goes(r, t.run, Recovering(RecoveryUnit(r.box, switched)))
    ensures t.end == RolledBack || t.end == RecoveryFailed || t.end == Interrupted
    ensures if t.first == TimedOut && RestoreTook(w, t.at) then Moved(r.box, t.run.box) else SameArchive(r.box, t.run.box)
    ensures t.end != Interrupted ==>
              && t.run.box.active && t.run.box.drop == Absent && t.run.box.loaded == RecoveryUnit(r.box, switched)
              && t.run.box.data == DataThen(r.box.data, t.run.box.loaded, t.first)
    ensures t.end == RecoveryFailed ==> t.first == TimedOut
    ensures t.end == RolledBack ==> t.first != Crashed && SeenOld(t.run.log, t.run.box)
  {
    hide PutBack, RestoreData, Sound;
    var unit := RecoveryUnit(r.box, switched);
    var a := PutBack(r, w, switched);
    PuttingBackRecovers(r, a.run, unit, switched);
    if a.wait == Crashed then Recovered(a.run, Interrupted, Crashed, |a.run.log|)
    else if a.wait == ReadyNow then Recovered(a.run, RolledBack, ReadyNow, |a.run.log|) else
    var b := RestoreData(a.run, w);
    GoesThen(r, a.run, b.run, Recovering(unit));
    var end := match b.wait case ReadyNow => RolledBack case TimedOut => RecoveryFailed case Crashed => Interrupted;
    Recovered(b.run, end, TimedOut, |a.run.log|)
  }

  // ---- Exactly how recovery ends ----

  /** A wait that begins at n meets a good answer. */
  ghost predicate Meets(w: World, n: nat, wanted: string, minDrivers: nat) {
    exists last: nat :: FirstGood(w, n, last, wanted, minDrivers)
  }

  /** A start here succeeds and the old version is seen. */
  ghost predicate OldBack(w: World, at: nat, wanted: string, minDrivers: nat) {
    w.outcome(at) == Done && Meets(w, at + 1, wanted, minDrivers)
  }

  /** A start here succeeds, and every poll that its wait may make goes on. */
  predicate OldSilent(w: World, at: nat, wanted: string, minDrivers: nat) {
    w.outcome(at) == Done && GoesOn(w, at + 1, Then(w, at), wanted, minDrivers)
  }

  /** Where the log stands after a start and a wait that timed out. */
  function Then(w: World, at: nat): nat { at + 2 + w.polls(at + 1) }

  lemma {:induction false} WaitTimesOut<B>(r: Run<B>, w: World, wanted: string, minDrivers: nat)
    requires Sound(r)
    ensures var t := WaitedFor(r, w, wanted, minDrivers);
            && (t.wait == TimedOut <==> GoesOn(w, |r.log|, |r.log| + 1 + w.polls(|r.log|), wanted, minDrivers))
            && (t.wait == TimedOut ==> |t.run.log| == |r.log| + 1 + w.polls(|r.log|))
  {
    hide Good, WaitedFor;
    WaitEnds(r, w, wanted, minDrivers);
  }

  lemma {:induction false} StartOldEnds<B>(r: Run<B>, w: World, stopped: bool, at: nat, wanted: string, minDrivers: nat)
    requires Sound(r) && Gathered(r.log) && r.box.drop == Absent && (stopped ==> !r.box.active)
    requires at == |r.log| && wanted == r.log[1].answer.current && minDrivers == r.log[2].answer.drivers
    ensures var t := StartOld(r, w, stopped);
            && (t.wait == ReadyNow <==> OldBack(w, at, wanted, minDrivers))
            && (t.wait == TimedOut <==> OldSilent(w, at, wanted, minDrivers))
            && (t.wait == TimedOut ==> |t.run.log| == Then(w, at))
  {
    hide WaitedFor, Good, GoesOn, FirstGood, Only, SameArchive, SeenOld, OldVersion, HexDigest;
    var a := Did(r, w, Start);
    if Fine(r, w) {
      ReadyAtFirstGood(a, w, wanted, minDrivers);
      WaitTimesOut(a, w, wanted, minDrivers);
    }
  }

  lemma {:induction false} UndoEnds<B>(r: Run<B>, w: World, unit: Unit)
    requires Sound(r)
    ensures Undo(r, w, unit).ok <==>
            w.outcome(|r.log|) == Done && w.outcome(|r.log| + 1) == Done && w.outcome(|r.log| + 2) == Done
    ensures Undo(r, w, unit).ok ==> |Undo(r, w, unit).run.log| == |r.log| + 3
  {
    hide Goes, SameArchive, Sound;
  }

  /** Where recovery starts the old command: after stop, removal and reload if the flag was set. */
  function RestartAt(at: nat, switched: bool): nat { if switched then at + 3 else at }

  predicate PutsBack(w: World, at: nat, switched: bool) {
    switched ==> w.outcome(at) == Done && w.outcome(at + 1) == Done && w.outcome(at + 2) == Done
  }

  lemma {:induction false} PutBackEnds<B>(r: Run<B>, w: World, switched: bool, at: nat, wanted: string, minDrivers: nat)
    requires Sound(r) && Gathered(r.log) && (!switched ==> r.box.drop == Absent && r.box.loaded == OldCore)
    requires at == RestartAt(|r.log|, switched)
    requires wanted == r.log[1].answer.current && minDrivers == r.log[2].answer.drivers
    ensures var t := PutBack(r, w, switched);
            && (t.wait == ReadyNow <==> PutsBack(w, |r.log|, switched) && OldBack(w, at, wanted, minDrivers))
            && (t.wait == TimedOut <==> PutsBack(w, |r.log|, switched) && OldSilent(w, at, wanted, minDrivers))
            && (t.wait == TimedOut ==> |t.run.log| == Then(w, at))
  {
    hide Undo, StartOld, OldBack, OldSilent, Only, SameArchive, SeenOld, OldVersion, HexDigest;
    if switched {
      UndoEnds(r, w, r.box.base);
      var a := Undo(r, w, r.box.base);
      if a.ok {
        StartOldEnds(a.run, w, true, at, wanted, minDrivers);
      }
    } else {
      StartOldEnds(r, w, false, at, wanted, minDrivers);
    }
  }

  lemma {:induction false} RestoreEnds<B>(r: Run<B>, w: World, at: nat, wanted: string, minDrivers: nat)
    requires Sound(r) && Gathered(r.log) && r.box.active && r.box.drop == Absent
    requires at == |r.log| + 2 && wanted == r.log[1].answer.current && minDrivers == r.log[2].answer.drivers
    ensures var t, unpacked := RestoreData(r, w), w.outcome(|r.log|) == Done && w.outcome(|r.log| + 1) == Done;
            && (t.wait == ReadyNow <==> unpacked && OldBack(w, at, wanted, minDrivers))
            && (t.wait == TimedOut <==> unpacked && OldSilent(w, at, wanted, minDrivers))
  {
    hide StartOld, OldBack, OldSilent, Only, SameArchive, SeenOld, OldVersion, HexDigest, Moved;
    var a := Unpack(r, w, r.box.loaded);
    UnpackEnds(r, w, r.box.loaded);
    if a.ok {
      GatheredOn(r.log, a.run.log);
      StartOldEnds(a.run, w, true, at, wanted, minDrivers);
    }
  }

  lemma {:induction false} UnpackEnds<B>(r: Run<B>, w: World, unit: Unit)
    requires Sound(r)
    ensures Unpack(r, w, unit).ok <==> w.outcome(|r.log|) == Done && w.outcome(|r.log| + 1) == Done
  {
    hide Goes, SameArchive, Moved, Sound;
  }

  /** The old version is seen at once, or after the data was restored; recovery has failed when it is seen
      neither time; and anything else interrupts it. */
  lemma {:induction false} RecoverEnds<B>(r: Run<B>, w: World, switched: bool)
    requires Sound(r) && Gathered(r.log) && (!switched ==> r.box.drop == Absent && r.box.loaded == OldCore)
    ensures var n, wanted, minDrivers := |r.log|, r.log[1].answer.current, r.log[2].answer.drivers;
            var at := RestartAt(n, switched);
            var next := Then(w, at);
            var again := PutsBack(w, n, switched) && OldSilent(w, at, wanted, minDrivers)
                           && w.outcome(next) == Done && w.outcome(next + 1) == Done;
            var end := Recover(r, w, switched).end;
            && (end == RolledBack <==>
                  || (PutsBack(w, n, switched) && OldBack(w, at, wanted, minDrivers))
                  || (again && OldBack(w, next + 2, wanted, minDrivers)))
            && (end == RecoveryFailed <==> again && OldSilent(w, next + 2, wanted, minDrivers))
  {
    hide PutBack, RestoreData, OldBack, OldSilent, Only, SameArchive, SeenOld, OldVersion, HexDigest, Moved;
    var wanted, minDrivers, at := r.log[1].answer.current, r.log[2].answer.drivers, RestartAt(|r.log|, switched);
    PutBackEnds(r, w, switched, at, wanted, minDrivers);
    BackOrSilent(w, at, wanted, minDrivers);
    var a := PutBack(r, w, switched);
    if a.wait == TimedOut {
      RestoreEnds(a.run, w, |a.run.log| + 2, wanted, minDrivers);
    }
  }

  lemma {:induction false} BackOrSilent(w: World, at: nat, wanted: string, minDrivers: nat)
    ensures !(OldBack(w, at, wanted, minDrivers) && OldSilent(w, at, wanted, minDrivers))
  {
    hide Good;
  }

  // ---- The whole run ----

  /** `recovery` is where the except branch begins, or the end of the log; switched is the flag there;
      native, that a start of the new command took effect; `first` and `at` tell of the first recovery
      wait, if there was one. */
  datatype Migrated<Bytes> = Migrated(
    run: Run<Bytes>, end: End, recovery: nat, switched: bool, native: bool, first: Option<Wait>, at: nat)

  /** The new command is up and confirmed, and the staging directory gone. */
  ghost predicate Completed<B>(log: Log<B>, tag: string, box: Box<B>) {
    && |log| > 18 && Gathered(log[..|log| - 1]) && RanAt(log, |log| - 1, Cleanup)
    && Confirmed(log[..|log| - 1], tag)
    && box.active && box.drop == Native && box.loaded == NativeCore
  }

  /** A run rolled back, or failed to: the recovery unit runs without override, on the data that a native
      start and a restore left. */
  ghost predicate Ended<B>(b: Box<B>, m: Migrated<B>) {
    var box := m.run.box;
    && box.active && box.drop == Absent && box.loaded == RecoveryUnit(b, m.switched)
    && m.first.Some? && m.first != Some(Crashed)
    && box.data == DataThen(DataAfter(b, m.native), box.loaded, m.first.value)
  }

  /** Where the archive is: moved when the first recovery wait timed out and the restore took effect. */
  ghost predicate Archived<B>(b: Box<B>, w: World, m: Migrated<B>) {
    if m.first == Some(TimedOut) && RestoreTook(w, m.at) then Moved(b, m.run.box) else SameArchive(b, m.run.box)
  }

  /** What the trial leaves to what follows it. */
  ghost predicate Attempted<B>(r: Run<B>, t: Tried<B>) {
    && Goes(r, t.run, Forwarding) && SameArchive(r.box, t.run.box) && RanAt(t.run.log, |r.log|, Stop)
    && Gathered(t.run.log) && t.run.box.data == DataAfter(r.box, t.native)
    && (!t.switched ==> t.run.box.drop == Absent && t.run.box.loaded == OldCore)
  }

  /** What is promised of a run that got past its checks at r. */
  ghost predicate Kept<B>(r: Run<B>, w: World, m: Migrated<B>, tag: string) {
    && Sound(m.run) && m.run.start == r.start && r.log <= m.run.log
    && |r.log| <= m.recovery <= |m.run.log| && RanAt(m.run.log, |r.log|, Stop)
    && Only(Forwarding, |r.log|, m.run.log[..m.recovery])
    && Only(Recovering(RecoveryUnit(r.box, m.switched)), m.recovery, m.run.log)
    && m.end != Refused && m.end != PreflightOnly && Archived(r.box, w, m)
    && (m.end == Complete ==> m.recovery == |m.run.log| && Completed(m.run.log, tag, m.run.box))
    && (m.end == RolledBack || m.end == RecoveryFailed ==> Ended(r.box, m))
    && (m.end == RecoveryFailed ==> m.first == Some(TimedOut))
    && (m.end == RolledBack ==> Gathered(m.run.log) && SeenOld(m.run.log, m.run.box))
  }

  /** Recovery after a trial that failed. */
  function Rescue<B>(r: Run<B>, w: World, t: Tried<B>, ghost tag: string): (m: Migrated<B>)
    requires Attempted(r, t)
    ensures Kept(r, w, m, tag)
  {
    hide Recover, Sound, SeenOld, Gathered;
    var v := Recover(t.run, w, t.switched);
    GatheredOn(t.run.log, v.run.log);
    assert v.run.log[..|t.run.log|] == t.run.log;
    Migrated(v.run, v.end, |t.run.log|, t.switched, t.native, Some(v.first), v.at)
  }

  /** Cleanup after one that went through. */
  function Conclude<B>(r: Run<B>, w: World, t: Tried<B>, ghost tag: string): (m: Migrated<B>)
    requires Attempted(r, t) && Confirmed(t.run.log, tag)
    requires t.run.box.active && t.run.box.drop == Native && t.run.box.loaded == NativeCore
    ensures Kept(r, w, m, tag)
  {
    hide Did, Sound, SeenOld, Gathered, Confirmed;
    var c := Did(t.run, w, Cleanup);
    var n := |t.run.log|;
    DidGoes(t.run, w, Cleanup, Forwarding);
    GoesThen(r, t.run, c, Forwarding);
    assert c.log[..n] == t.run.log && c.log[..n + 1] == c.log;
    Migrated(c, if Fine(t.run, w) then Complete else Interrupted, n + 1, true, t.native, None, n + 1)
  }

  /** The switch, its confirmation, and recovery or cleanup. */
  function Switch<B>(r: Run<B>, w: World, tag: string): (m: Migrated<B>)
    requires Sound(r) && Gathered(r.log) && r.box.drop == Absent && r.box.loaded == OldCore
    ensures Kept(r, w, m, tag)
  {
    hide Trial, Rescue, Conclude, Kept;
    var t := Trial(r, w, tag);
    if t.done then Conclude(r, w, t, tag) else Rescue(r, w, t, tag)
  }

  function Migrate<B>(b: Box<B>, w: World, args: Args): (m: Migrated<B>)
    ensures Sound(m.run) && m.run.start == b
  {
    hide Preflight, Switch;
    var p := Preflight(Run(b, b, []), w, args);
    if p.go then Switch(p.run, w, args.tag)
    else Migrated(p.run, p.end, |p.run.log|, false, false, None, 0)
  }

  // ---- What every run keeps ----

  ghost predicate Stopped<B>(m: Migrated<B>) { !Never(m.run.log, Stop) }

  /** A run that never stops the service ends at a check and changes nothing; one that does was admitted,
      and read and staged only until then. */
  lemma {:induction false} RunUntilTheStop<B>(b: Box<B>, w: World, args: Args)
    ensures var m := Migrate(b, w, args);
            && (m.end == Refused || m.end == PreflightOnly <==> !Stopped(m))
            && (!Stopped(m) ==> m.run.box == b && m.recovery == |m.run.log| && Only(Reading, 0, m.run.log))
            && (Stopped(m) ==> Admitted(b, args))
  {
    hide Preflight, Switch;
    var p := Preflight(Run(b, b, []), w, args);
    if p.go {
      assert RanAt(Migrate(b, w, args).run.log, |p.run.log|, Stop);
    } else {
      forall i | 0 <= i < |p.run.log| ensures !(p.run.log[i].Ran? && p.run.log[i].cmd == Stop) {
        assert Allowed(Reading, p.run.log, i);
      }
    }
  }

  /** The service is stopped exactly when the tool is asked to switch an admitted box and everything before is
      in order. */
  lemma {:induction false} StopsIff<B>(b: Box<B>, w: World, args: Args)
    ensures Stopped(Migrate(b, w, args)) <==> Admitted(b, args) && AllInOrder(w)
  {
    hide Preflight, Switch, AllInOrder;
    SwitchesIf(b, w, args);
    RunUntilTheStop(b, w, args);
    var p := Preflight(Run(b, b, []), w, args);
    if p.go {
      assert RanAt(Migrate(b, w, args).run.log, |p.run.log|, Stop);
    }
  }

  lemma {:induction false} PreflightAnswers<B>(b: Box<B>, w: World, args: Args)
    requires Preflight(Run(b, b, []), w, args).go
    ensures var log := Preflight(Run(b, b, []), w, args).run.log;
            && log[1].answer == w.answer(1) && log[2].answer == w.answer(2)
            && log[8].answer == w.answer(8) && log[17].answer == w.answer(17)
  {
    hide CheckBackup, StagePackage, Identify, OldVersion, HexDigest, Only;
    var r := Run(b, b, []);
    var a := Identify(r, w);
    FirstAnswers(r, w);
    var c := CheckBackup(a.run, w);
    BackupAnswer(a.run, w);
    StageAnswer(c.run, w);
  }

  lemma {:induction false} FirstAnswers<B>(r: Run<B>, w: World)
    requires Sound(r) && r.log == [] && Identify(r, w).ok
    ensures Identify(r, w).run.log[1].answer == w.answer(1) && Identify(r, w).run.log[2].answer == w.answer(2)
  {
    hide Quiet, OldVersion, Only, Sound, CheckService;
    var a := Quiet(r, w, Look, 1);
    var info := Heard(a.run, w);
    assert CheckVersion(r, w).run == Heard(info, w);
  }

  lemma {:induction false} BackupAnswer<B>(r: Run<B>, w: World)
    requires Sound(r) && |r.log| == 8 && CheckBackup(r, w).ok
    ensures CheckBackup(r, w).run.log[8].answer == w.answer(8)
  {
    hide Quiet, HexDigest, Only, Sound;
  }

  lemma {:induction false} StageAnswer<B>(r: Run<B>, w: World)
    requires Sound(r) && |r.log| == 16 && StagePackage(r, w).ok
    ensures StagePackage(r, w).run.log[17].answer == w.answer(17)
  {
    hide Quiet, Only, Sound;
  }

  /** The service is stopped, made to run the new command, and confirmed by the polls that begin at 38 and the
      two answers after their last; and the staging directory is removed. */
  predicate SwitchInOrder(w: World, tag: string, last: nat)
    requires w.answer(2).Poll? && w.answer(17).Drivers?
  {
    FiveDone(w, 33) && ConfirmedAt(w, 38, last, tag, w.answer(2), w.answer(17), w.answer(8)) && w.outcome(last + 3) == Done
  }

  /** A migration is complete exactly when an admitted box and everything up to the confirmation and the cleanup
      are in order. */
  lemma {:induction false} CompletesIff<B>(b: Box<B>, w: World, args: Args)
    ensures Migrate(b, w, args).end == Complete <==>
            Admitted(b, args) && AllInOrder(w) && exists last: nat :: SwitchInOrder(w, args.tag, last)
  {
    hide Preflight, Switch, AllInOrder, SwitchInOrder;
    SwitchesIf(b, w, args);
    var p := Preflight(Run(b, b, []), w, args);
    if p.go {
      PreflightAnswers(b, w, args);
      SwitchCompletes(p.run, w, args.tag);
    }
  }

  lemma {:induction false} SwitchCompletes<B>(r: Run<B>, w: World, tag: string)
    requires Sound(r) && Gathered(r.log) && |r.log| == 33 && r.box.drop == Absent && r.box.loaded == OldCore
    requires r.log[2].answer == w.answer(2) && r.log[8].answer == w.answer(8) && r.log[17].answer == w.answer(17)
    ensures Switch(r, w, tag).end == Complete <==> exists last: nat :: SwitchInOrder(w, tag, last)
  {
    hide Trial, Rescue, Conclude, ConfirmedAt, FiveDone, Kept, OldVersion, HexDigest, Only, Confirmed;
    TrialDone(r, w, tag, 38);
    var t := Trial(r, w, tag);
    if t.done {
      ConcludeEnds(r, w, t, tag);
      var last: nat :| ConfirmedAt(w, 38, last, tag, r.log[2].answer, r.log[17].answer, r.log[8].answer);
      assert SwitchInOrder(w, tag, last) <==> w.outcome(last + 3) == Done;
      forall other: nat | SwitchInOrder(w, tag, other) ensures |t.run.log| == other + 3 {
        assert ConfirmedAt(w, 38, other, tag, r.log[2].answer, r.log[17].answer, r.log[8].answer);
      }
    } else {
      RescueEnds(r, w, t, tag);
    }
  }

  lemma {:induction false} ConcludeEnds<B>(r: Run<B>, w: World, t: Tried<B>, tag: string)
    requires Attempted(r, t) && Confirmed(t.run.log, tag)
    requires t.run.box.active && t.run.box.drop == Native && t.run.box.loaded == NativeCore
    ensures Conclude(r, w, t, tag).end == Complete <==> w.outcome(|t.run.log|) == Done
  {
    hide Kept, Confirmed, Gathered, Only;
  }

  lemma {:induction false} RescueEnds<B>(r: Run<B>, w: World, t: Tried<B>, tag: string)
    requires Attempted(r, t)
    ensures Rescue(r, w, t, tag).end != Complete
  {
    hide Kept, Gathered, Only;
  }

  /** In every run: before recovery each start sees the override; in recovery each start sees none, and the
      unit on disk loaded if the flag was set, the old one if not; data is restored only right after a stop
      that succeeded. */
  lemma {:induction false} StartsAndRestores<B>(b: Box<B>, w: World, args: Args, i: nat)
    ensures var m := Migrate(b, w, args); m.recovery <= |m.run.log|
    ensures var m := Migrate(b, w, args);
            RanAt(m.run.log, i, Start) && i < m.recovery ==>
              m.run.log[i].before.drop == Native && m.run.log[i].before.loaded == NativeCore
    ensures var m := Migrate(b, w, args);
            RanAt(m.run.log, i, Start) && i >= m.recovery ==> OldStart(m.run.log[i].before, RecoveryUnit(b, m.switched))
    ensures var m := Migrate(b, w, args);
            RanAt(m.run.log, i, Restore) ==> i >= m.recovery && RestoredStopped(m.run.log, i)
  {
    hide Preflight, Switch;
    var m := Migrate(b, w, args);
    var p := Preflight(Run(b, b, []), w, args);
    if i < |m.run.log| {
      if i < |p.run.log| {
        assert Allowed(Reading, p.run.log, i) && m.run.log[i] == p.run.log[i];
      } else if i < m.recovery {
        assert Allowed(Forwarding, m.run.log[..m.recovery], i);
      } else {
        assert Allowed(Recovering(RecoveryUnit(b, m.switched)), m.run.log, i);
      }
    }
  }

  /** How runs end. Complete: native Core answered with the tag, the old driver count, all old drivers and
      the same identity. Rolled back: the old version was seen healthy with the override gone, and the data
      is what a native start, or a restore after a wait that timed out, made it. Failed: the old start
      command was put back on restored data. */
  lemma {:induction false} RunEnds<B>(b: Box<B>, w: World, args: Args)
    ensures var m := Migrate(b, w, args);
            && (m.end == Complete ==> m.recovery == |m.run.log| && Completed(m.run.log, args.tag, m.run.box))
            && (m.end == RolledBack || m.end == RecoveryFailed ==> Ended(b, m))
            && (m.end == RolledBack ==> Gathered(m.run.log) && SeenOld(m.run.log, m.run.box))
            && (m.end == RecoveryFailed ==> m.first == Some(TimedOut))
  {
    hide Preflight, Switch;
  }

  /** The same over the answers. The tag was polled, healthy, with the drivers healthy before, and with its
      history complete if it is a 0.x version; then the drivers named and the digest read. */
  lemma {:induction false} CompleteAnswers<B>(b: Box<B>, w: World, args: Args)
    requires Migrate(b, w, args).end == Complete
    ensures var log := Migrate(b, w, args).run.log;
            && |log| > 20 && log[2].Asked? && log[8].Asked? && log[17].Asked?
            && log[|log| - 4].Asked? && log[|log| - 3].Asked? && log[|log| - 2].Asked?
    ensures var log := Migrate(b, w, args).run.log;
            var before, last := log[2].answer, log[|log| - 4].answer;
            && before.Poll? && last.Poll? && last.current == args.tag && last.healthy && last.drivers >= before.drivers
            && ("v0." <= args.tag ==> last.historyComplete)
    ensures var log := Migrate(b, w, args).run.log;
            var before, after := log[17].answer, log[|log| - 3].answer;
            before.Drivers? && after.Drivers? && forall d :: d in before.names ==> d in after.names
    ensures var log := Migrate(b, w, args).run.log;
            var before, after := log[8].answer, log[|log| - 2].answer;
            before.Identity? && after.Identity? && before.sha == after.sha
  {
    hide Migrate, Gathered, Confirmed;
    RunEnds(b, w, args);
    var log := Migrate(b, w, args).run.log;
    ConfirmedAnswers(log[..|log| - 1], args.tag);
  }

  lemma {:induction false} ConfirmedAnswers<B>(log: Log<B>, tag: string)
    requires Gathered(log) && Confirmed(log, tag)
    ensures var n := |log|;
            && n >= 20 && log[2].Asked? && log[8].Asked? && log[17].Asked?
            && log[n - 3].Asked? && log[n - 2].Asked? && log[n - 1].Asked?
            && log[2].answer.Poll? && log[n - 3].answer.Poll?
            && log[n - 3].answer.current == tag && log[n - 3].answer.healthy
            && log[n - 3].answer.drivers >= log[2].answer.drivers && ("v0." <= tag ==> log[n - 3].answer.historyComplete)
            && log[17].answer.Drivers? && log[n - 2].answer.Drivers?
            && log[17].answer.names <= log[n - 2].answer.names
            && log[8].answer.Identity? && log[n - 1].answer == log[8].answer
  {
    hide HexDigest, OldVersion;
  }

  /** A run is rolled back only on an answer of the version polled at first, healthy, with the drivers healthy
      then. */
  lemma {:induction false} RolledBackAnswer<B>(b: Box<B>, w: World, args: Args)
    requires Migrate(b, w, args).end == RolledBack
    ensures var log := Migrate(b, w, args).run.log; |log| > 17 && log[1].Asked? && log[2].Asked? && log[|log| - 1].Asked?
    ensures var log := Migrate(b, w, args).run.log;
            var first, health, last := log[1].answer, log[2].answer, log[|log| - 1].answer;
            && first.Poll? && health.Poll? && last.Poll?
            && last.current == first.current && last.healthy && last.drivers >= health.drivers
  {
    hide Migrate, HexDigest, OldVersion;
    RunEnds(b, w, args);
  }

  /** The archive leaves its path exactly when the first recovery wait timed out, the stop after it went
      through and the restore did not fail before its effect. */
  lemma {:induction false} ArchiveMovesIff<B>(b: Box<B>, w: World, args: Args)
    requires b.onBox.Some?
    ensures var m := Migrate(b, w, args);
            && (if m.first == Some(TimedOut) && RestoreTook(w, m.at)
                then m.run.box.onBox == None && m.run.box.moved == b.onBox
                else m.run.box.onBox == b.onBox && m.run.box.moved == b.moved)
            && m.run.box.offBox == b.offBox
  {
    hide Preflight, Switch;
    var m := Migrate(b, w, args);
    ArchiveSurvives(b, m.run.log);
  }

  // ---- A slow world ----

  /** Every command goes through, the site is in order, each wait polls `more` times after its first, and the
      API, after its first answers, is reached only at the given places of the log. */
  function SlowWorld(more: nat, reached: set<nat>): World {
    World(
      n => Done,
      n => if n == 8 then Identity(seq(64, _ => '0'))
           else if n == 17 then Drivers({"meter"})
           else if n == 1 || n == 2 || n in reached then OldAnswer()
           else Unreachable,
      n => true,
      n => more)
  }

  function OldAnswer(): Answer { Poll("v1.0.0", true, 1, false) }

  /** The world is slow, wherever the API is reached. */
  ghost predicate Slow(w: World, more: nat) { exists reached :: w == SlowWorld(more, reached) }

  lemma {:induction false} OldAnswerIsOld()
    ensures OldVersion("v1.0.0") && !NativeTag("v1.0.0")
  {
    assert "v1.0.0"[3..] == "0.0" && "0.0"[1..] == ".0" && ".0"[1..] == "0" && "0"[1..] == "";
    assert AfterDigits("0.0") == AfterDigits(".0") == ".0";
    assert AfterDigits("0") == AfterDigits("") == "";
  }

  lemma {:induction false} SlowVersion<B>(r: Run<B>, w: World, more: nat)
    requires Sound(r) && r.log == [] && Slow(w, more)
    ensures var t := CheckVersion(r, w); t.ok && t.run.log[1].answer == OldAnswer() && t.run.log[2].answer == OldAnswer()
  {
    hide Heard, OldVersion;
    OldAnswerIsOld();
    var q := Quiet(r, w, Look, 1);
    assert w.answer(1) == OldAnswer() && w.answer(2) == OldAnswer();
  }

  lemma {:induction false} SlowService<B>(r: Run<B>, w: World, more: nat)
    requires Sound(r) && |r.log| == 3 && Slow(w, more) && r.box.active && r.box.loaded == OldCore
    ensures CheckService(r, w).ok
  {
    hide Quiet, Looked;
  }

  lemma {:induction false} SlowBackup<B>(r: Run<B>, w: World, more: nat)
    requires Sound(r) && |r.log| == 8 && Slow(w, more) && r.box.drop == Absent
    ensures CheckBackup(r, w).ok
  {
    hide Quiet, Looked, Heard;
  }

  lemma {:induction false} SlowStage<B>(r: Run<B>, w: World, more: nat)
    requires Sound(r) && |r.log| == 16 && Slow(w, more)
    ensures StagePackage(r, w).ok
  {
    hide Quiet, Heard;
  }

  lemma {:induction false} SlowIdentify<B>(r: Run<B>, w: World, more: nat)
    requires Sound(r) && r.log == [] && Slow(w, more) && r.box.active && r.box.loaded == OldCore
    ensures var t := Identify(r, w);
            t.ok && t.run.log[1].answer == OldAnswer() && t.run.log[2].answer == OldAnswer()
  {
    hide CheckVersion, CheckService;
    SlowVersion(r, w, more);
    SlowService(CheckVersion(r, w).run, w, more);
  }

  /** The switch begins, and the tool knows the old version and its driver. */
  lemma {:induction false} SlowPreflight<B>(b: Box<B>, w: World, args: Args, more: nat)
    requires Admitted(b, args) && Slow(w, more)
    ensures var t := Preflight(Run(b, b, []), w, args);
            t.go && t.run.log[1].answer == OldAnswer() && t.run.log[2].answer == OldAnswer()
  {
    hide Identify, CheckBackup, StagePackage;
    var r := Run(b, b, []);
    SlowIdentify(r, w, more);
    var a := Identify(r, w);
    SlowBackup(a.run, w, more);
    var c := CheckBackup(a.run, w);
    SlowStage(c.run, w, more);
  }

  /** The new command starts and is never reached. */
  lemma {:induction false} SlowTrial<B>(r: Run<B>, w: World, tag: string, more: nat)
    requires Sound(r) && Gathered(r.log) && |r.log| == 33 && r.box.drop == Absent
    requires Slow(w, more) && OutOfReach(w, 38, 39 + more)
    ensures var t := Trial(r, w, tag); !t.done && t.switched && t.native && |t.run.log| == 39 + more
  {
    hide Did, WaitedFor;
    var a := StopService(r, w);
    var b := LoadNew(a.run, w);
    assert |b.run.log| == 37 && |StartNew(a.run, w).run.log| == 38 && StartNew(a.run, w).done;
  }

  lemma {:induction false} IsSlow(more: nat, reached: set<nat>)
    ensures Slow(SlowWorld(more, reached), more)
  {
  }

  lemma {:induction false} Reaches(more: nat, reached: set<nat>, from: nat, until: nat)
    requires from > 17 && forall n :: n in reached ==> n < from || until <= n
    ensures OutOfReach(SlowWorld(more, reached), from, until)
  {
  }

  /** Switched and not seen ready, the tool knows what it heard before. */
  lemma {:induction false} SlowSwitch<B>(b: Box<B>, w: World, args: Args, more: nat)
    requires Admitted(b, args) && Slow(w, more) && OutOfReach(w, 38, 39 + more)
    ensures var p := Preflight(Run(b, b, []), w, args);
            && p.go
            && var t := Trial(p.run, w, args.tag);
            && !t.done && t.switched && t.native && |t.run.log| == 39 + more && Gathered(t.run.log)
            && t.run.log[1].answer == OldAnswer() && t.run.log[2].answer == OldAnswer()
  {
    hide Preflight, Trial, Slow, OutOfReach;
    SlowPreflight(b, w, args, more);
    SlowTrial(Preflight(Run(b, b, []), w, args).run, w, args.tag, more);
  }

  /** The old command is put back, and ready only if it answers. */
  lemma {:induction false} SlowPutBack<B>(r: Run<B>, w: World, more: nat)
    requires Sound(r) && Gathered(r.log)
    requires r.log[1].answer == OldAnswer() && r.log[2].answer == OldAnswer()
    requires Slow(w, more)
    ensures var t, n := PutBack(r, w, true), |r.log|;
            && RanAt(t.run.log, n + 3, Start)
            && (OutOfReach(w, n + 4, n + 5 + more) ==> t.wait == TimedOut && |t.run.log| == n + 5 + more)
            && (w.answer(n + 4) == OldAnswer() ==> t.wait == ReadyNow)
  {
    hide Did, WaitedFor, OutOfReach;
    OldAnswerIsOld();
    var u := Undo(r, w, r.box.base);
    assert u.ok && |u.run.log| == |r.log| + 3;
    var d := Did(u.run, w, Start);
    assert |d.log| == |r.log| + 4;
  }

  /** And restored, it is not reached either. */
  lemma {:induction false} SlowRestore<B>(r: Run<B>, w: World, more: nat)
    requires Sound(r) && Gathered(r.log) && r.box.active && r.box.drop == Absent
    requires Slow(w, more) && OutOfReach(w, |r.log| + 3, |r.log| + 4 + more)
    ensures RestoreData(r, w).wait == TimedOut
  {
    hide Did, WaitedFor, OutOfReach;
    var u := Unpack(r, w, r.box.loaded);
    assert u.ok && |u.run.log| == |r.log| + 2 && |Did(u.run, w, Start).log| == |r.log| + 3;
  }

  /** From any admitted box, in a world where the API is not reached again, however often the waits poll: the
      unit on disk is started, the archive is moved, and recovery fails. */
  lemma {:induction false} SlowRun<B>(b: Box<B>, args: Args, more: nat)
    requires Admitted(b, args)
    ensures var m := Migrate(b, SlowWorld(more, {}), args);
            && m.end == RecoveryFailed && m.switched && m.recovery == 39 + more
            && RanAt(m.run.log, 42 + more, Start) && OldStart(m.run.log[42 + more].before, b.base)
            && m.first == Some(TimedOut) && RestoreTook(SlowWorld(more, {}), m.at)
  {
    hide Preflight, Trial, Recover, Slow, OutOfReach, Conclude, Kept, Attempted, Gathered, SlowWorld, RestoreTook;
    var w, r := SlowWorld(more, {}), Run(b, b, []);
    assert Slow(w, more) by { IsSlow(more, {}); }
    assert OutOfReach(w, 38, 39 + more) by { Reaches(more, {}, 38, 39 + more); }
    SlowSwitch(b, w, args, more);
    var t := Trial(Preflight(r, w, args).run, w, args.tag);
    var n := 39 + more;
    assert OutOfReach(w, n + 4, n + 5 + more) by { Reaches(more, {}, n + 4, n + 5 + more); }
    assert OutOfReach(w, n + 8 + more, n + 9 + 2 * more) by { Reaches(more, {}, n + 8 + more, n + 9 + 2 * more); }
    SlowRecovery(t.run, w, more);
    StartsAndRestores(b, w, args, n + 3);
  }

  /** Neither put back nor restored is the old command reached. */
  lemma {:induction false} SlowRecovery<B>(r: Run<B>, w: World, more: nat)
    requires Sound(r) && Gathered(r.log) && r.log[1].answer == OldAnswer() && r.log[2].answer == OldAnswer()
    requires Slow(w, more) && OutOfReach(w, |r.log| + 4, |r.log| + 5 + more)
    requires OutOfReach(w, |r.log| + 8 + more, |r.log| + 9 + 2 * more)
    ensures var v := Recover(r, w, true);
            && v.end == RecoveryFailed && v.first == TimedOut && v.at == |r.log| + 5 + more
            && RanAt(v.run.log, |r.log| + 3, Start) && RestoreTook(w, v.at)
  {
    hide PutBack, RestoreData, OutOfReach;
    SlowPutBack(r, w, more);
    SlowRestore(PutBack(r, w, true).run, w, more);
  }

  // ---- The exact conditions ----

  /** Every recovery start of the run has the old unit loaded. */
  ghost predicate RecoversOld<B>(m: Migrated<B>) {
    forall i :: m.recovery <= i < |m.run.log| && RanAt(m.run.log, i, Start) ==> OldStart(m.run.log[i].before, OldCore)
  }

  /** In every world recovery starts the old unit, exactly when that is the unit on disk, or the tool does
      not switch at all. */
  lemma {:induction false} RecoversOldIffOnDisk<B>(b: Box<B>, args: Args)
    ensures (forall w: World :: RecoversOld(Migrate(b, w, args))) <==> b.base == OldCore || !Admitted(b, args)
  {
    hide Migrate;
    if b.base == OldCore || !Admitted(b, args) {
      forall w: World ensures RecoversOld(Migrate(b, w, args)) {
        RunUntilTheStop(b, w, args);
        var m := Migrate(b, w, args);
        forall i | m.recovery <= i < |m.run.log| && RanAt(m.run.log, i, Start)
          ensures OldStart(m.run.log[i].before, OldCore)
        {
          StartsAndRestores(b, w, args, i);
        }
      }
    } else {
      SlowRun(b, args, 20);
      assert !RecoversOld(Migrate(b, SlowWorld(20, {}), args));
    }
  }

  /** In every world the archive stays at its path, exactly when the tool does not switch at all. */
  lemma {:induction false} ArchiveStaysIffNotAdmitted<B>(b: Box<B>, args: Args)
    requires b.onBox.Some?
    ensures (forall w: World :: Migrate(b, w, args).run.box.onBox == b.onBox) <==> !Admitted(b, args)
  {
    hide Migrate;
    if Admitted(b, args) {
      SlowRun(b, args, 20);
      ArchiveMovesIff(b, SlowWorld(20, {}), args);
    } else {
      forall w: World ensures Migrate(b, w, args).run.box.onBox == b.onBox {
        RunUntilTheStop(b, w, args);
      }
    }
  }

  /** A run can report that the old data is running when the native Core's is: the new command started, was
      not reached, and the old one answered at once. */
  lemma {:induction false} RolledBackOnNativeData<B>(b: Box<B>, args: Args, more: nat)
    requires Admitted(b, args)
    ensures var m := Migrate(b, SlowWorld(more, {43 + more}), args);
            m.end == RolledBack && m.run.box.data == NativeData
  {
    hide Preflight, Trial, Recover, Slow, OutOfReach, Conclude, Kept, Attempted, Gathered;
    var w, r := SlowWorld(more, {43 + more}), Run(b, b, []);
    assert Slow(w, more) by { IsSlow(more, {43 + more}); }
    assert OutOfReach(w, 38, 39 + more) by { Reaches(more, {43 + more}, 38, 39 + more); }
    SlowSwitch(b, w, args, more);
    var t := Trial(Preflight(r, w, args).run, w, args.tag);
    SlowReady(t.run, w, more);
    RunEnds(b, w, args);
  }

  /** The old command answers at once. */
  lemma {:induction false} SlowReady<B>(r: Run<B>, w: World, more: nat)
    requires Sound(r) && Gathered(r.log) && r.log[1].answer == OldAnswer() && r.log[2].answer == OldAnswer()
    requires Slow(w, more) && w.answer(|r.log| + 4) == OldAnswer()
    ensures var v := Recover(r, w, true); v.end == RolledBack && v.first == ReadyNow
  {
    hide PutBack, RestoreData, Slow, OutOfReach;
    SlowPutBack(r, w, more);
  }

  /** In every world a run that rolled back left other data than the native Core's, exactly when the tool does
      not switch at all. */
  lemma {:induction false} RollsBackCleanIffNotAdmitted<B>(b: Box<B>, args: Args)
    requires b.data != NativeData
    ensures (forall w: World ::
               var m := Migrate(b, w, args); m.end == RolledBack ==> m.run.box.data != NativeData) <==>
            !Admitted(b, args)
  {
    hide Migrate;
    if Admitted(b, args) {
      RolledBackOnNativeData(b, args, 20);
    } else {
      forall w: World ensures Migrate(b, w, args).end != RolledBack {
        RunUntilTheStop(b, w, args);
      }
    }
  }

  /** Among the first n events a start took effect. */
  ghost predicate Started<B>(log: Log<B>, n: nat) {
    exists i :: 0 <= i < n && RanAt(log, i, Start) && log[i].outcome != FailedBefore
  }

  /** Among the first n events a restore took effect. */
  ghost predicate Restored<B>(log: Log<B>, n: nat) {
    exists i :: 0 <= i < n && RanAt(log, i, Restore) && log[i].outcome != FailedBefore
  }

  function DataOf(found: Data, started: bool, restored: bool): Data {
    if restored then RestoredData else if started then NativeData else found
  }

  /** What a log leaves of the data: its starts before position rec are of the native Core, those after are
      not, and its restores come after. */
  lemma {:induction false} DataByLog<B>(b: Box<B>, log: Log<B>, rec: nat, n: nat)
    requires Faithful(b, log) && n <= |log|
    requires forall i :: 0 <= i < |log| && RanAt(log, i, Start) ==> (log[i].before.loaded == NativeCore <==> i < rec)
    requires forall i :: 0 <= i < |log| && RanAt(log, i, Restore) ==> i >= rec
    ensures var k := if n < rec then n else rec;
            After(b, log[..n]).data == DataOf(b.data, Started(log, k), Restored(log, n))
  {
    if n > 0 {
      DataByLog(b, log, rec, n - 1);
      BoxAt(b, log, n - 1);
      var e := log[n - 1];
      assert After(b, log[..n]) == Result(e);
      assert Restored(log, n) <==> Restored(log, n - 1) || (RanAt(log, n - 1, Restore) && e.outcome != FailedBefore);
      if n <= rec {
        assert Started(log, n) <==> Started(log, n - 1) || (RanAt(log, n - 1, Start) && e.outcome != FailedBefore);
        assert !Restored(log, n);
      }
    }
  }

  lemma {:induction false} BoxAt<B>(b: Box<B>, log: Log<B>, n: nat)
    requires Faithful(b, log) && n < |log|
    ensures log[n].before == After(b, log[..n])
  {
    assert n > 0 ==> Link(log, n - 1);
  }

  /** What any run leaves of the data, unless recovery starts a native unit from disk: the archive's once a
      restore took effect, else the native Core's once a start before recovery did, else what it was. A
      run that rolled back to such a unit left native data. */
  lemma {:induction false} RunData<B>(b: Box<B>, w: World, args: Args)
    ensures var m := Migrate(b, w, args);
            if RecoveryUnit(b, m.switched) != NativeCore then
              m.run.box.data == DataOf(b.data, Started(m.run.log, m.recovery), Restored(m.run.log, |m.run.log|))
            else m.end == RolledBack ==> m.run.box.data == NativeData
  {
    hide Migrate, Started, Restored;
    var m := Migrate(b, w, args);
    RunEnds(b, w, args);
    if RecoveryUnit(b, m.switched) != NativeCore {
      forall i | 0 <= i < |m.run.log|
        ensures RanAt(m.run.log, i, Start) ==> (m.run.log[i].before.loaded == NativeCore <==> i < m.recovery)
        ensures RanAt(m.run.log, i, Restore) ==> i >= m.recovery
      {
        StartsAndRestores(b, w, args, i);
      }
      StartsAndRestores(b, w, args, 0);
      DataByLog(b, m.run.log, m.recovery, |m.run.log|);
      assert m.run.log[..|m.run.log|] == m.run.log;
    }
  }

  /** So a run that began on old data left native data, if recovery starts no native unit, exactly when a start
      of the new command took effect and no restore did. */
  lemma {:induction false} RolledBackData<B>(b: Box<B>, w: World, args: Args)
    requires b.data == OldData && RecoveryUnit(b, Migrate(b, w, args).switched) != NativeCore
    ensures var m := Migrate(b, w, args);
            var started, restored := Started(m.run.log, m.recovery), Restored(m.run.log, |m.run.log|);
            && (m.run.box.data == NativeData <==> started && !restored)
            && (m.run.box.data == OldData <==> !started && !restored)
            && (m.run.box.data == RestoredData <==> restored)
  {
    hide Migrate;
    RunData(b, w, args);
  }

  /** In every log, the off-box copy and the unit file stay, and the archive is at its path exactly until
      a restore takes effect, after which it is in the safety directory. */
  lemma {:induction false} ArchiveSurvives<B>(b: Box<B>, log: Log<B>)
    requires b.onBox.Some? && Faithful(b, log)
    ensures var e := After(b, log);
            && e.offBox == b.offBox && e.base == b.base
            && (e.onBox == b.onBox || (e.onBox == None && e.moved == b.onBox))
            && (e.onBox == b.onBox <==>
                forall i :: 0 <= i < |log| && RanAt(log, i, Restore) ==> log[i].outcome == FailedBefore)
  {
    if log != [] {
      var n := |log| - 1;
      var front := log[..n];
      Front(b, log);
      ArchiveSurvives(b, front);
      assert forall i :: 0 <= i < n ==> (RanAt(front, i, Restore) <==> RanAt(log, i, Restore)) && front[i] == log[i];
      assert RanAt(log, n, Restore) || After(b, log).onBox == After(b, front).onBox;
    }
  }

  /** In every log, data changes only by a restore or a start of the native Core. */
  lemma {:induction false} DataChangesOnlyBy<B>(b: Box<B>, log: Log<B>)
    requires Faithful(b, log)
    requires forall i :: 0 <= i < |log| && log[i].Ran? && log[i].outcome != FailedBefore ==>
               log[i].cmd != Restore && (log[i].cmd == Start ==> log[i].before.loaded != NativeCore)
    ensures After(b, log).data == b.data
  {
    if log != [] {
      Front(b, log);
      DataChangesOnlyBy(b, log[..|log| - 1]);
    }
  }

  // ---- Where the archive is ----

  /** backup_on_host: the archive's path on the host. `normal` is os.path.normpath(dir) == dir. */
  function BackupOnHost(dir: string, normal: bool, name: string, dataDir: string, serviceDir: string): Option<string> {
    if dir == "" || dir[0] != '/' || !normal then None
    else if dir == serviceDir || serviceDir + "/" <= dir then Some(dataDir + dir[|serviceDir|..] + "/" + name)
    else if dir == dataDir || dataDir + "/" <= dir then Some(dir + "/" + name)
    else None
  }

  /** The archive always lies inside the data directory, so a restore always moves it. */
  lemma {:induction false} ArchiveIsInsideData(dir: string, normal: bool, name: string, dataDir: string, serviceDir: string)
    requires BackupOnHost(dir, normal, name, dataDir, serviceDir).Some?
    ensures dataDir + "/" <= BackupOnHost(dir, normal, name, dataDir, serviceDir).value
  {
    var path := BackupOnHost(dir, normal, name, dataDir, serviceDir).value;
    if dir == serviceDir {
      assert dir[|serviceDir|..] == "";
      assert path == (dataDir + "/") + name;
    } else if serviceDir + "/" <= dir {
      assert dir[|serviceDir|] == '/';
      assert path[..|dataDir| + 1] == dataDir + "/";
    } else if dir == dataDir {
      assert path == (dataDir + "/") + name;
    }
  }
}
