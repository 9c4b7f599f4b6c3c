/** The logger object: sinks, rotation and the write loop, acting on a directory it owns. */
module LogSinks {
  import opened Base
  import opened LogSinkModel

  /** Repeats the write until the line is out, an error, or too many interruptions in a row. */
  method WriteLine(kernel: seq<Answer>, total: nat) returns (w: Written)
    ensures w == WriteAll(kernel, total, 0, 0, 0)
  {
    var offset, interruptions, calls := 0, 0, 0;
    while offset < total
      invariant offset <= total && interruptions <= RETRIES
      invariant WriteAll(kernel, total, 0, 0, 0) == WriteAll(kernel, total, offset, interruptions, calls)
      decreases total - offset, RETRIES - interruptions
    {
      var answer := Reply(kernel, calls);
      calls := calls + 1;
      if answer.Took? && 0 < answer.count <= total - offset {
        offset, interruptions := offset + answer.count, 0;
      } else if answer.Interrupted? && interruptions < RETRIES {
        interruptions := interruptions + 1;
      } else {
        return Written(offset, false, calls);
      }
    }
    return Written(offset, true, calls);
  }

  class LogSystem {
    var world: World
    var logger: Option<Logger>

    ghost function View(): (s: Sys)
      reads this
    {
      Sys(world, logger)
    }

    constructor (directory: World)
      requires directory.fds == [] && directory.closed == [] && (directory.entry.Some? ==> directory.entry.value < |directory.sizes|)
      ensures world == directory && Initial(View())
    {
      world, logger := directory, None;
    }

    /** Decides before the write, and rotates when the line would not fit; false means the file must not be written. */
    method PrepareFile(l: Logger, line: nat, env: Env) returns (ready: bool, after: Logger)
      modifies this`world
      ensures Prepared(ready, world, after) == Prepare(old(world), l, line, env)
    {
      after := l;
      var inode := Inode(world, l.file);
      if inode.None? || !env.inspect || !env.attributes || line > l.max { return false, l; }
      var bytes := SizeOf(world, inode.value);
      if bytes <= l.max && line <= l.max - bytes { return true, l; }
      if !env.entry || world.entry != inode { return false, l; }
      if env.archive == Unfit || env.archive == Unreadable { return false, l; }
      if !env.sync || !env.rename { return false, l; }
      world := world.(entry := None, archive := inode, log := world.log + [Archived(inode.value)]);
      if !env.openNew { return false, l; }
      world := Open(world.(sizes := world.sizes + [0], entry := Some(|world.sizes|)), Some(|world.sizes|));
      var newFd := Last(world);
      if !env.inspectNew {
        world := CloseFd(world, newFd);
        return false, l;
      }
      world := CloseFd(world, l.file);
      return env.closeOld, l.(file := newFd);
    }

    method WriteFile(l: Logger, line: nat, env: Env) returns (after: Logger)
      modifies this`world
      ensures (world, after) == EmitFile(old(world), l, line, env)
    {
      hide Prepare, WriteAll;
      if l.fileState != Healthy { return l; }
      var ready;
      ready, after := PrepareFile(l, line, env);
      var inode := Inode(world, after.file);
      if ready && inode.Some? {
        var written := WriteLine(env.fileKernel, line);
        world := Append(world, inode.value, written.count);
        ready := written.ok;
      } else {
        ready := false;
      }
      if !ready {
        world := world.(log := world.log + [LogSinkModel.Failed(FileSink)]);
        after := after.(fileState := Broken);
      }
    }

    method WriteErr(l: Logger, line: nat, env: Env) returns (after: Logger)
      modifies this`world
      ensures (world, after) == EmitErr(old(world), l, line, env)
    {
      hide WriteAll;
      if l.errState != Healthy { return l; }
      var written := WriteLine(env.errKernel, line);
      world := world.(log := world.log + [Wrote(ErrSink, 0, 0, written.count)]);
      if written.ok { return l; }
      world := world.(log := world.log + [LogSinkModel.Failed(ErrSink)]);
      return l.(errState := Broken);
    }

    method EmitLine(line: nat, env: Env)
      modifies this
      ensures View() == Emit(old(View()), line, env)
    {
      hide EmitFile, EmitErr;
      if logger.None? { return; }
      var l := logger.value;
      l := WriteFile(l, line, env);
      l := WriteErr(l, line, env);
      logger := Some(l);
    }

    /** Acquires stderr before anything else, then the directory and the file; a failure releases all of it. */
    method CreateLogger(toStderr: bool, directory: bool, max: nat, env: CreateEnv) returns (ok: bool)
      modifies this
      ensures View() == Create(old(View()), toStderr, directory, max, env)
      ensures ok <==> old(logger).None? && logger.Some?
    {
      if logger.Some? || (!toStderr && !directory) || (directory && !(MIN_FILE <= max <= MAX_FILE)) { return false; }
      if !env.allocate || !env.mutex { return false; }
      var l := Logger(None, None, None, if directory then max else 0, Disabled, Disabled);
      var failed := false;
      if toStderr {
        if !env.duplicate {
          failed := true;
        } else {
          world := Open(world, None);
          l := l.(err := Last(world), errState := Healthy);
          failed := !env.inspectErr;
        }
      }
      if !failed && directory {
        if !env.openDirectory {
          failed := true;
        } else {
          world := Open(world, None);
          l := l.(directory := Last(world));
          if !env.openFile {
            failed := true;
          } else {
            world := OpenFile(world);
            l := l.(file := Last(world), fileState := Healthy);
            failed := !(env.inspectFile && env.attributes);
          }
        }
      }
      if failed {
        world := CloseFd(CloseFd(CloseFd(world, l.file), l.directory), l.err);
        return false;
      }
      world, logger := world.(log := []), Some(l);
      return true;
    }

    method DestroyLogger()
      modifies this
      ensures View() == Destroy(old(View())) && logger.None?
    {
      if logger.None? { return; }
      world := CloseFd(world, logger.value.file);
      world := CloseFd(world, logger.value.err);
      world := CloseFd(world, logger.value.directory);
      logger := None;
    }
  }
}
