/** scripts/ftwctl.py, migrate_native, as the tool does it: one command after another on a remote box. Each
    part does to the box and the log what its function in module Migration says, so that what is proved of
    runs there holds of the tool. */
module MigrationSite {
  import opened Wrappers
  import M = Migration

  class Site<Bytes(!new)> {
    var box: M.Box<Bytes>
    var log: M.Log<Bytes>
    const world: M.World
    ghost const start: M.Box<Bytes>

    ghost function Now(): M.Run<Bytes>
      reads this
    {
      M.Run(start, box, log)
    }

    ghost predicate Valid()
      reads this
    {
      M.Sound(Now())
    }

    constructor (b: M.Box<Bytes>, w: M.World)
      ensures Valid() && Now() == M.Run(b, b, []) && world == w
    {
      box, log, world, start := b, [], w, b;
    }

    /** remote: one command over SSH. ok is false when it raises. */
    method Remote(c: M.Command) returns (ok: bool)
      requires Valid()
      modifies this
      ensures Valid() && Now() == M.Did(old(Now()), world, c) && ok == M.Fine(old(Now()), world)
    {
      var o := world.outcome(|log|);
      M.Extend(start, log, M.Ran(c, o, box));
      log := log + [M.Ran(c, o, box)];
      box := M.Step(box, c, o);
      ok := o == M.Done;
    }

    /** One API read, or a remote hash. */
    method Ask() returns (a: M.Answer)
      requires Valid()
      modifies this`log
      ensures Valid() && Now() == M.Heard(old(Now()), world) && a == world.answer(|old(log)|)
    {
      a := world.answer(|log|);
      M.Extend(start, log, M.Asked(a, box));
      log := log + [M.Asked(a, box)];
    }

    method Quiet(c: M.Command, n: nat) returns (ok: bool)
      requires Valid() && (c == M.Look || c == M.Stage)
      modifies this
      ensures Valid() && M.Part(Now(), ok) == M.Quiet(old(Now()), world, c, n)
    {
      hide M.Did, M.Sound;
      var left := n;
      while left > 0
        invariant Valid()
        invariant M.Quiet(Now(), world, c, left) == M.Quiet(old(Now()), world, c, n)
      {
        ok := Remote(c);
        if !ok || !world.passes(|log|) {
          return false;
        }
        left := left - 1;
      }
      ok := true;
    }

    method WaitForVersion(wanted: string, minDrivers: nat) returns (r: M.Wait)
      requires Valid()
      modifies this`log
      ensures Valid() && M.Waited(Now(), r) == M.WaitedFor(old(Now()), world, wanted, minDrivers)
    {
      hide M.Heard, M.Sound;
      var left: nat := 1 + world.polls(|log|);
      while left > 0
        invariant Valid()
        invariant M.Polled(Now(), world, wanted, minDrivers, left) == M.WaitedFor(old(Now()), world, wanted, minDrivers)
      {
        var a := Ask();
        if M.Ready(a, wanted, minDrivers) {
          return M.ReadyNow;
        }
        if a == M.Crash {
          return M.Crashed;
        }
        left := left - 1;
      }
      return M.TimedOut;
    }

    /** The first answers: an old version, healthy. */
    method CheckVersion() returns (ok: bool)
      requires Valid() && log == []
      modifies this
      ensures Valid() && M.Part(Now(), ok) == M.CheckVersion(old(Now()), world)
    {
      hide M.Quiet, M.Heard, M.Sound;
      ok := Quiet(M.Look, 1);
      if !ok { return; }
      var info := Ask();
      if !info.Poll? { return false; }
      var health := Ask();
      ok := M.OldVersion(info.current) && health.Poll? && health.healthy;
    }

    /** The service is active and runs the old unit. */
    method CheckService() returns (ok: bool)
      requires Valid() && |log| == 3
      modifies this
      ensures Valid() && M.Part(Now(), ok) == M.CheckService(old(Now()), world)
    {
      hide M.Quiet, M.Did, M.Sound;
      ok := Remote(M.IsActive);
      if !ok || !box.active { return false; }
      ok := Quiet(M.Look, 1);
      if !ok { return; }
      ok := Remote(M.ShowUnit);
      if !ok || box.loaded != M.OldCore || !world.passes(|log|) { return false; }
      ok := Quiet(M.Look, 2);
    }

    method Identify() returns (ok: bool)
      requires Valid() && log == []
      modifies this
      ensures Valid() && M.Part(Now(), ok) == M.Identify(old(Now()), world)
    {
      hide M.CheckVersion, M.CheckService, M.Sound;
      ok := CheckVersion();
      if ok {
        ok := CheckService();
      }
    }

    /** The site's identity matches the backup, the archive is there, and no override exists. */
    method CheckBackup() returns (ok: bool)
      requires Valid() && |log| == 8
      modifies this
      ensures Valid() && M.Part(Now(), ok) == M.CheckBackup(old(Now()), world)
    {
      hide M.Quiet, M.Heard, M.Did, M.Sound;
      if !world.passes(|log|) { return false; }
      var identity := Ask();
      if !identity.Identity? || !M.HexDigest(identity.sha) || !world.passes(|log|) { return false; }
      ok := Quiet(M.Look, 5);
      if !ok { return; }
      ok := Remote(M.TestNoOverride);
      if !ok || box.drop != M.Absent { return false; }
      ok := Remote(M.TestNoOverride);
      ok := ok && box.drop == M.Absent;
    }

    /** The old drivers, then the package staged and installed in its own root. */
    method StagePackage() returns (ok: bool)
      requires Valid() && |log| == 16
      modifies this
      ensures Valid() && M.Part(Now(), ok) == M.StagePackage(old(Now()), world)
    {
      hide M.Quiet, M.Heard, M.Sound;
      ok := Quiet(M.Look, 1);
      if !ok { return; }
      var drivers := Ask();
      if !drivers.Drivers? || !world.passes(|log|) { return false; }
      ok := Quiet(M.Stage, 14);
      if !ok { return; }
      ok := Quiet(M.Look, 1);
    }

    /** Everything up to the stop, in the tool's order. go means the switch may begin. */
    method Preflight(args: M.Args) returns (go: bool, end: M.End)
      requires Valid() && log == []
      modifies this
      ensures Valid() && M.Flight(Now(), go, end) == M.Preflight(old(Now()), world, args)
    {
      hide M.Identify, M.CheckBackup, M.StagePackage, M.Sound;
      go, end := false, M.Refused;
      if !args.argumentsOk { return; }
      var ok := Identify();
      if !ok { return; }
      if args.checkOnly { end := M.PreflightOnly; return; }
      ok := CheckBackup();
      if !ok { return; }
      go := StagePackage();
    }

    /** Write the override and load it. Called with the flag set. */
    method LoadNew() returns (ok: bool)
      requires Valid()
      modifies this
      ensures Valid() && M.Part(Now(), ok) == M.LoadNew(old(Now()), world)
    {
      hide M.Did, M.Sound;
      ok := Remote(M.WriteOverride);
      if !ok { return; }
      ok := Remote(M.Reload);
    }

    /** And start it. */
    method StartNew() returns (done: bool)
      requires Valid()
      modifies this
      ensures Valid() && Now() == M.StartNew(old(Now()), world).run && done == M.StartNew(old(Now()), world).done
    {
      hide M.Did, M.LoadNew, M.Sound;
      done := LoadNew();
      if done {
        done := Remote(M.Start);
      }
    }

    /** Stop the old service and make room for the override. */
    method StopService() returns (ok: bool)
      requires Valid()
      modifies this
      ensures Valid() && M.Part(Now(), ok) == M.StopService(old(Now()), world)
    {
      hide M.Did, M.Sound;
      ok := Remote(M.Stop);
      if !ok { return; }
      ok := Remote(M.MakeDropInDir);
    }

    /** Stop the old service and start the new command. */
    method Swap() returns (done: bool, switched: bool)
      requires Valid() && box.drop == M.Absent
      modifies this
      ensures Valid() && Now() == M.Swap(old(Now()), world).run
      ensures done == M.Swap(old(Now()), world).done && switched == M.Swap(old(Now()), world).switched
    {
      hide M.StopService, M.StartNew, M.Sound;
      done := false;
      switched := StopService();
      if switched {
        done := StartNew();
      }
    }

    /** The new Core is ready, its drivers are all there, its identity is the site's. */
    method Confirm(tag: string) returns (done: bool)
      requires Valid() && M.Gathered(log) && box.active && box.loaded == M.NativeCore
      modifies this`log
      ensures Valid() && M.Part(Now(), done) == M.Confirm(old(Now()), world, tag)
    {
      hide M.WaitedFor, M.Heard, M.Sound;
      done := false;
      var w := WaitForVersion(tag, log[2].answer.drivers);
      if w != M.ReadyNow { return; }
      var drivers := Ask();
      if !drivers.Drivers? || !(log[17].answer.names <= drivers.names) { return; }
      var identity := Ask();
      done := identity == log[8].answer;
    }

    /** The body of the try. */
    method Trial(tag: string) returns (done: bool, switched: bool)
      requires Valid() && M.Gathered(log) && box.drop == M.Absent
      modifies this
      ensures Valid() && Now() == M.Trial(old(Now()), world, tag).run
      ensures done == M.Trial(old(Now()), world, tag).done && switched == M.Trial(old(Now()), world, tag).switched
    {
      hide M.Swap, M.Confirm, M.Sound;
      done, switched := Swap();
      if done {
        done := Confirm(tag);
      }
    }

    /** Stop the new command, take the override away and load the unit on disk. */
    method Undo(ghost unit: M.Unit) returns (ok: bool)
      requires Valid()
      modifies this
      ensures Valid() && M.Part(Now(), ok) == M.Undo(old(Now()), world, unit)
    {
      hide M.Did, M.Sound;
      ok := Remote(M.Stop);
      if !ok { return; }
      ok := Remote(M.RemoveOverride);
      if !ok { return; }
      ok := Remote(M.Reload);
    }

    /** Start the old service and wait for its version. */
    method StartOld(ghost stopped: bool) returns (w: M.Wait)
      requires Valid() && M.Gathered(log) && box.drop == M.Absent && (stopped ==> !box.active)
      modifies this
      ensures Valid() && M.Waited(Now(), w) == M.StartOld(old(Now()), world, stopped)
    {
      hide M.Did, M.WaitedFor, M.Sound;
      var ok := Remote(M.Start);
      if !ok { return M.Crashed; }
      w := WaitForVersion(log[1].answer.current, log[2].answer.drivers);
    }

    /** The except branch's first half: back to the old start command, then wait for the old version. */
    method PutBack(switched: bool) returns (w: M.Wait)
      requires Valid() && M.Gathered(log) && (!switched ==> box.drop == M.Absent && box.loaded == M.OldCore)
      modifies this
      ensures Valid() && M.Waited(Now(), w) == M.PutBack(old(Now()), world, switched)
    {
      hide M.Undo, M.StartOld, M.Sound;
      if switched {
        var ok := Undo(box.base);
        if !ok { return M.Crashed; }
      }
      w := StartOld(switched);
    }

    /** Stop the service and unpack the verified archive. */
    method Unpack(ghost unit: M.Unit) returns (ok: bool)
      requires Valid()
      modifies this
      ensures Valid() && M.Part(Now(), ok) == M.Unpack(old(Now()), world, unit)
    {
      hide M.Did, M.Sound;
      ok := Remote(M.Stop);
      if !ok { return; }
      ok := Remote(M.Restore);
    }

    /** Its second half: restore the data while stopped, and start again. */
    method RestoreData() returns (w: M.Wait)
      requires Valid() && M.Gathered(log) && box.active && box.drop == M.Absent
      modifies this
      ensures Valid() && M.Waited(Now(), w) == M.RestoreData(old(Now()), world)
    {
      hide M.Unpack, M.StartOld, M.Sound;
      var ok := Unpack(box.loaded);
      if !ok { return M.Crashed; }
      w := StartOld(true);
    }

    method Recover(switched: bool) returns (end: M.End)
      requires Valid() && M.Gathered(log) && (!switched ==> box.drop == M.Absent && box.loaded == M.OldCore)
      modifies this
      ensures Valid() && Now() == M.Recover(old(Now()), world, switched).run
      ensures end == M.Recover(old(Now()), world, switched).end
    {
      hide M.PutBack, M.RestoreData, M.Sound;
      var w := PutBack(switched);
      if w == M.TimedOut {
        w := RestoreData();
        if w == M.TimedOut { return M.RecoveryFailed; }
      }
      end := if w == M.ReadyNow then M.RolledBack else M.Interrupted;
    }

    method Switch(tag: string) returns (end: M.End)
      requires Valid() && M.Gathered(log) && box.drop == M.Absent && box.loaded == M.OldCore
      modifies this
      ensures Valid() && Now() == M.Switch(old(Now()), world, tag).run && end == M.Switch(old(Now()), world, tag).end
    {
      hide M.Trial, M.Recover, M.Did, M.Sound;
      var done, switched := Trial(tag);
      if !done {
        end := Recover(switched);
      } else {
        var ok := Remote(M.Cleanup);
        end := if ok then M.Complete else M.Interrupted;
      }
    }

    /** migrate_native does, to box and log, what Migrate says of the box, the world and the arguments. */
    method MigrateNative(args: M.Args) returns (end: M.End)
      requires Now() == M.Run(start, start, [])
      modifies this
      ensures Now() == M.Migrate(start, world, args).run && end == M.Migrate(start, world, args).end
    {
      hide M.Preflight, M.Switch;
      var go;
      go, end := Preflight(args);
      if go {
        end := Switch(args.tag);
      }
    }
  }
}
