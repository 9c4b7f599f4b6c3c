/**
  The logger's sinks as a value: a size-limited file with one archive, and a copy of standard error.
  The directory is the logger's own while it lives, so file sizes change only by what it writes.
 */
module LogSinkModel {
  import opened Base

  const RETRIES: nat := 16
  const MIN_FILE: nat := 1_048_576
  const MAX_FILE: nat := 1_073_741_824

  // ---- Writing a line ------------------------------------------------------------------------

  /** What one `write` returns: a count, an interruption, or an error. */
  datatype Answer = Took(count: int) | Interrupted | Error

  /** Call number `i` of a schedule; past its end every call is interrupted. */
  function Reply(kernel: seq<Answer>, i: nat): Answer
  {
    if i < |kernel| then kernel[i] else Interrupted
  }

  datatype Written = Written(count: nat, ok: bool, calls: nat)

  /** The write loop with `offset` bytes accepted and `interruptions` in a row; it ends whatever the kernel does. */
  function WriteAll(kernel: seq<Answer>, total: nat, offset: nat, interruptions: nat, calls: nat): (w: Written)
    requires offset <= total && interruptions <= RETRIES
    decreases total - offset, RETRIES - interruptions
  {
    if offset == total then Written(offset, true, calls)
    else match Reply(kernel, calls)
      case Took(n) => if 0 < n <= total - offset then WriteAll(kernel, total, offset + n, 0, calls + 1) else Written(offset, false, calls + 1)
      case Interrupted => if interruptions < RETRIES then WriteAll(kernel, total, offset, interruptions + 1, calls + 1) else Written(offset, false, calls + 1)
      case Error => Written(offset, false, calls + 1)
  }

  /** Never more than the line, all of it exactly on success, and a bounded number of calls. */
  lemma {:induction false} WriteAllBounds(kernel: seq<Answer>, total: nat, offset: nat, interruptions: nat, calls: nat)
    requires offset <= total && interruptions <= RETRIES && (offset == total ==> interruptions == 0)
    ensures var w := WriteAll(kernel, total, offset, interruptions, calls);
            && offset <= w.count <= total && (w.ok <==> w.count == total)
            && w.calls + interruptions <= calls + (RETRIES + 1) * (total - offset)
    decreases total - offset, RETRIES - interruptions
  {
    if offset != total {
      match Reply(kernel, calls)
      case Took(n) => if 0 < n <= total - offset { WriteAllBounds(kernel, total, offset + n, 0, calls + 1); }
      case Interrupted => if interruptions < RETRIES { WriteAllBounds(kernel, total, offset, interruptions + 1, calls + 1); }
      case Error =>
    }
  }

  /** The bytes the kernel accepted in the `n` calls from `first` on. */
  function Accepted(kernel: seq<Answer>, first: nat, n: nat): int
    decreases n
  {
    if n == 0 then 0 else (if Reply(kernel, first).Took? then Reply(kernel, first).count else 0) + Accepted(kernel, first + 1, n - 1)
  }

  /** On success the calls together accepted exactly the line, so no byte is sent twice or left out. */
  lemma {:induction false} WriteAllExact(kernel: seq<Answer>, total: nat, offset: nat, interruptions: nat, calls: nat)
    requires offset <= total && interruptions <= RETRIES
    ensures var w := WriteAll(kernel, total, offset, interruptions, calls);
            w.calls >= calls && (w.ok ==> offset + Accepted(kernel, calls, w.calls - calls) == total)
    decreases total - offset, RETRIES - interruptions
  {
    if offset != total {
      match Reply(kernel, calls)
      case Took(n) => if 0 < n <= total - offset { WriteAllExact(kernel, total, offset + n, 0, calls + 1); }
      case Interrupted => if interruptions < RETRIES { WriteAllExact(kernel, total, offset, interruptions + 1, calls + 1); }
      case Error =>
    }
  }

  // ---- The world -----------------------------------------------------------------------------

  datatype Sink = FileSink | ErrSink
  datatype State = Disabled | Healthy | Broken

  datatype Act =
    | Wrote(sink: Sink, inode: nat, before: nat, after: nat)
    | Failed(sink: Sink)
    | Archived(inode: nat)

  /**
    `sizes` gives each file's length; `entry` and `archive` are the directory's two names. Descriptors
    are numbered in the order they are obtained: `fds` says what each refers to, `closed` lists the
    closes, `log` the writes, failures and renames since the present logger was created.
   */
  datatype World = World(sizes: seq<nat>, entry: Option<nat>, archive: Option<nat>, fds: seq<Option<nat>>, closed: seq<nat>, log: seq<Act>)

  datatype Logger = Logger(file: Option<nat>, directory: Option<nat>, err: Option<nat>, max: nat, fileState: State, errState: State)

  /** The world and, while it lives, the logger. */
  datatype Sys = Sys(world: World, logger: Option<Logger>)

  function Open(w: World, inode: Option<nat>): World
  {
    w.(fds := w.fds + [inode])
  }

  function CloseFd(w: World, fd: Option<nat>): World
  {
    if fd.Some? then w.(closed := w.closed + [fd.value]) else w
  }

  function Last(w: World): Option<nat>
  {
    if w.fds == [] then None else Some(|w.fds| - 1)
  }

  // ---- Creation and destruction --------------------------------------------------------------

  datatype CreateEnv = CreateEnv(allocate: bool, mutex: bool, duplicate: bool, inspectErr: bool, openDirectory: bool, openFile: bool, inspectFile: bool, attributes: bool)

  datatype Opening = Opening(ok: bool, world: World, logger: Logger)

  function OpenStderr(w: World, l: Logger, wanted: bool, env: CreateEnv): Opening
  {
    if !wanted then Opening(true, w, l)
    else if !env.duplicate then Opening(false, w, l)
    else
      var v := Open(w, None);
      Opening(env.inspectErr, v, l.(err := Last(v), errState := Healthy))
  }

  /** Opens the file under its name, creating it if need be. */
  function OpenFile(w: World): World
  {
    if w.entry.Some? then Open(w, w.entry) else Open(w.(sizes := w.sizes + [0], entry := Some(|w.sizes|)), Some(|w.sizes|))
  }

  function OpenFiles(w: World, l: Logger, wanted: bool, env: CreateEnv): Opening
  {
    if !wanted then Opening(true, w, l)
    else if !env.openDirectory then Opening(false, w, l)
    else
      var v := Open(w, None);
      var k := l.(directory := Last(v));
      if !env.openFile then Opening(false, v, k)
      else
        var u := OpenFile(v);
        Opening(env.inspectFile && env.attributes, u, k.(file := Last(u), fileState := Healthy))
  }

  /** Releases whatever an unfinished creation holds, newest first. */
  function Rollback(w: World, l: Logger): World
  {
    CloseFd(CloseFd(CloseFd(w, l.file), l.directory), l.err)
  }

  function Create(s: Sys, toStderr: bool, directory: bool, max: nat, env: CreateEnv): (t: Sys)
  {
    if s.logger.Some? || (!toStderr && !directory) || (directory && !(MIN_FILE <= max <= MAX_FILE)) || !env.allocate || !env.mutex then s
    else
      var a := OpenStderr(s.world, Logger(None, None, None, if directory then max else 0, Disabled, Disabled), toStderr, env);
      if !a.ok then s.(world := Rollback(a.world, a.logger))
      else
        var b := OpenFiles(a.world, a.logger, directory, env);
        if !b.ok then s.(world := Rollback(b.world, b.logger)) else Sys(b.world.(log := []), Some(b.logger))
  }

  /** Closes everything once, whatever the individual closes report. */
  function Destroy(s: Sys): (t: Sys)
  {
    match s.logger
    case None => s
    case Some(l) => Sys(CloseFd(CloseFd(CloseFd(s.world, l.file), l.err), l.directory), None)
  }

  // ---- Emitting ------------------------------------------------------------------------------

  datatype Archive = Missing | Fit | Unfit | Unreadable

  datatype Env = Env(
    inspect: bool, attributes: bool, entry: bool, archive: Archive, sync: bool, rename: bool,
    openNew: bool, inspectNew: bool, closeOld: bool, fileKernel: seq<Answer>, errKernel: seq<Answer>)

  /** The file behind a descriptor. */
  function Inode(w: World, fd: Option<nat>): Option<nat>
  {
    if fd.Some? && fd.value < |w.fds| then w.fds[fd.value] else None
  }

  function SizeOf(w: World, inode: nat): nat
  {
    if inode < |w.sizes| then w.sizes[inode] else 0
  }

  datatype Prepared = Prepared(ready: bool, world: World, logger: Logger)

  /** After the rename: a new empty file takes the name, and the old descriptor is closed. */
  function Replace(w: World, l: Logger, env: Env): (p: Prepared)
  {
    if !env.openNew then Prepared(false, w, l)
    else
      var inode := |w.sizes|;
      var v := Open(w.(sizes := w.sizes + [0], entry := Some(inode)), Some(inode));
      if !env.inspectNew then Prepared(false, CloseFd(v, Last(v)), l)
      else Prepared(env.closeOld, CloseFd(v, l.file), l.(file := Last(v)))
  }

  function Rotate(w: World, l: Logger, inode: nat, env: Env): (p: Prepared)
  {
    if !env.entry || w.entry != Some(inode) || env.archive in {Unfit, Unreadable} || !env.sync || !env.rename then Prepared(false, w, l)
    else Replace(w.(entry := None, archive := Some(inode), log := w.log + [Archived(inode)]), l, env)
  }

  /** Whether the next line may go to the file, rotating first if it would not fit. */
  function Prepare(w: World, l: Logger, line: nat, env: Env): (p: Prepared)
  {
    var inode := Inode(w, l.file);
    if inode.None? || !env.inspect || !env.attributes || line > l.max then Prepared(false, w, l)
    else if SizeOf(w, inode.value) + line <= l.max then Prepared(true, w, l)
    else Rotate(w, l, inode.value, env)
  }

  function Append(w: World, inode: nat, count: nat): World
  {
    if inode < |w.sizes|
    then w.(sizes := w.sizes[inode := w.sizes[inode] + count], log := w.log + [Wrote(FileSink, inode, w.sizes[inode], w.sizes[inode] + count)])
    else w
  }

  /** A sink that fails stays failed. */
  function Break(w: World, l: Logger, sink: Sink): (World, Logger)
  {
    (w.(log := w.log + [Failed(sink)]), if sink == FileSink then l.(fileState := Broken) else l.(errState := Broken))
  }

  function EmitFile(w: World, l: Logger, line: nat, env: Env): (r: (World, Logger))
  {
    if l.fileState != Healthy then (w, l)
    else
      var p := Prepare(w, l, line, env);
      var inode := Inode(p.world, p.logger.file);
      if !p.ready || inode.None? then Break(p.world, p.logger, FileSink)
      else
        var written := WriteAll(env.fileKernel, line, 0, 0, 0);
        var v := Append(p.world, inode.value, written.count);
        if written.ok then (v, p.logger) else Break(v, p.logger, FileSink)
  }

  function EmitErr(w: World, l: Logger, line: nat, env: Env): (r: (World, Logger))
  {
    if l.errState != Healthy then (w, l)
    else
      var written := WriteAll(env.errKernel, line, 0, 0, 0);
      var v := w.(log := w.log + [Wrote(ErrSink, 0, 0, written.count)]);
      if written.ok then (v, l) else Break(v, l, ErrSink)
  }

  function Emit(s: Sys, line: nat, env: Env): (t: Sys)
  {
    match s.logger
    case None => s
    case Some(l) =>
      var a := EmitFile(s.world, l, line, env);
      var b := EmitErr(a.0, a.1, line, env);
      Sys(b.0, Some(b.1))
  }

  // ---- What every run keeps ------------------------------------------------------------------

  ghost predicate Owns(l: Logger, fd: nat)
  {
    l.file == Some(fd) || l.directory == Some(fd) || l.err == Some(fd)
  }

  ghost predicate Held(o: Option<Logger>, fd: nat)
  {
    o.Some? && Owns(o.value, fd)
  }

  /** No two of the logger's descriptors coincide. */
  predicate Apart(l: Logger)
  {
    && (l.file.Some? ==> l.file != l.directory && l.file != l.err)
    && (l.directory.Some? ==> l.directory != l.err)
  }

  predicate Bounded(l: Logger, n: nat)
  {
    (l.file.Some? ==> l.file.value < n) && (l.directory.Some? ==> l.directory.value < n) && (l.err.Some? ==> l.err.value < n)
  }

  ghost predicate NoRepeats(s: seq<nat>)
  {
    forall i, j :: 0 <= i < j < |s| ==> s[i] != s[j]
  }

  /** Every descriptor ever obtained is either held now or has been closed, once. */
  ghost predicate FdsOk(w: World, o: Option<Logger>)
  {
    && NoRepeats(w.closed)
    && (forall fd :: fd in w.closed ==> fd < |w.fds|)
    && (forall fd: nat :: fd < |w.fds| ==> (fd in w.closed <==> !Held(o, fd)))
    && (o.Some? ==> Apart(o.value) && Bounded(o.value, |w.fds|))
  }

  /** Writes stay within the limit; a failed sink and an archived file are not written again. */
  ghost predicate LogOk(log: seq<Act>, max: nat)
  {
    && (forall i :: 0 <= i < |log| && log[i].Wrote? && log[i].sink == FileSink ==> log[i].before <= log[i].after <= max)
    && (forall i, j :: 0 <= i < j < |log| && log[i].Failed? && log[j].Wrote? ==> log[i].sink != log[j].sink)
    && (forall i, j :: 0 <= i < j < |log| && log[i].Archived? && log[j].Wrote? && log[j].sink == FileSink ==> log[i].inode != log[j].inode)
  }

  ghost predicate HasFailed(log: seq<Act>, sink: Sink)
  {
    Failed(sink) in log
  }

  /** The log of the logger now alive fits its states: a healthy sink has not failed, and its file is the one under the name. */
  ghost predicate StateOk(w: World, l: Logger)
  {
    && (l.fileState == Healthy ==>
          && l.file.Some? && l.file.value < |w.fds| && w.fds[l.file.value] == w.entry && w.entry.Some? && w.entry.value < |w.sizes|
          && !HasFailed(w.log, FileSink) && Archived(w.entry.value) !in w.log)
    && (l.errState == Healthy ==> !HasFailed(w.log, ErrSink))
    && (forall i :: 0 <= i < |w.log| && w.log[i].Archived? ==> w.log[i].inode < |w.sizes|)
  }

  ghost predicate EntryOk(w: World)
  {
    w.entry.Some? ==> w.entry.value < |w.sizes|
  }

  ghost predicate Inv(s: Sys)
  {
    && FdsOk(s.world, s.logger) && EntryOk(s.world)
    && (s.logger.Some? ==> StateOk(s.world, s.logger.value) && LogOk(s.world.log, s.logger.value.max))
  }

  // ---- Descriptors ---------------------------------------------------------------------------

  /** What the logger would hold with one descriptor more. */
  lemma OpenFds(w: World, l: Logger, m: Logger, inode: Option<nat>)
    requires FdsOk(w, Some(l))
    requires || (l.file.None? && m == l.(file := Some(|w.fds|), fileState := m.fileState))
             || (l.directory.None? && m == l.(directory := Some(|w.fds|)))
             || (l.err.None? && m == l.(err := Some(|w.fds|), errState := m.errState))
    ensures FdsOk(Open(w, inode), Some(m)) && Last(Open(w, inode)) == Some(|w.fds|)
  {
    var v := Open(w, inode);
    assert forall fd: nat :: Owns(m, fd) <==> Owns(l, fd) || fd == |w.fds|;
    assert |w.fds| !in w.closed;
  }

  lemma CloseOne(w: World, o: Option<Logger>, p: Option<Logger>, fd: nat)
    requires FdsOk(w, o) && Held(o, fd) && fd < |w.fds|
    requires forall k: nat :: Held(p, k) <==> Held(o, k) && k != fd
    requires p.Some? ==> Apart(p.value)
    ensures FdsOk(CloseFd(w, Some(fd)), p)
  {
    var v := CloseFd(w, Some(fd));
    assert fd !in w.closed;
    assert forall k: nat :: k in v.closed <==> k in w.closed || k == fd;
    if p.Some? {
      forall k: nat | Owns(p.value, k) ensures k < |v.fds| { assert Held(p, k); }
      OwnsBounded(p.value, |v.fds|);
    }
  }

  lemma OwnsBounded(l: Logger, n: nat)
    requires forall k: nat :: Owns(l, k) ==> k < n
    ensures Bounded(l, n)
  {
    if l.file.Some? { assert Owns(l, l.file.value); }
    if l.directory.Some? { assert Owns(l, l.directory.value); }
    if l.err.Some? { assert Owns(l, l.err.value); }
  }

  /** Closing all three in any order leaves nothing held and nothing closed twice. */
  lemma CloseAllFds(w: World, l: Logger)
    requires FdsOk(w, Some(l))
    ensures FdsOk(Rollback(w, l), None)
    ensures FdsOk(CloseFd(CloseFd(CloseFd(w, l.file), l.err), l.directory), None)
  {
    hide FdsOk;
    var noFile := l.(file := None);
    var a := CloseFd(w, l.file);
    CloseField(w, l, noFile, l.file);
    var onlyErr := noFile.(directory := None);
    CloseField(a, noFile, onlyErr, l.directory);
    CloseLast(CloseFd(a, l.directory), onlyErr, l.err);
    var onlyDirectory := noFile.(err := None);
    CloseField(a, noFile, onlyDirectory, l.err);
    CloseLast(CloseFd(a, l.err), onlyDirectory, l.directory);
  }

  lemma CloseField(w: World, l: Logger, m: Logger, fd: Option<nat>)
    requires FdsOk(w, Some(l))
    requires (m == l.(file := None) && fd == l.file) || (m == l.(directory := None) && fd == l.directory) || (m == l.(err := None) && fd == l.err)
    ensures FdsOk(CloseFd(w, fd), Some(m))
  {
    if fd.Some? {
      assert Owns(l, fd.value);
      forall k: nat ensures Held(Some(m), k) <==> Held(Some(l), k) && k != fd.value { }
      CloseOne(w, Some(l), Some(m), fd.value);
    } else {
      assert m == l;
    }
  }

  lemma CloseLast(w: World, l: Logger, fd: Option<nat>)
    requires FdsOk(w, Some(l)) && l.file.None?
    requires (fd == l.err && l.directory.None?) || (fd == l.directory && l.err.None?)
    ensures FdsOk(CloseFd(w, fd), None)
  {
    if fd.Some? {
      assert Owns(l, fd.value);
      forall k: nat ensures Held(None, k) <==> Held(Some(l), k) && k != fd.value { }
      CloseOne(w, Some(l), None, fd.value);
    }
  }

  // ---- Creation and destruction --------------------------------------------------------------

  lemma StderrKeeps(w: World, l: Logger, wanted: bool, env: CreateEnv)
    requires FdsOk(w, Some(l)) && l.err.None? && EntryOk(w)
    ensures var a := OpenStderr(w, l, wanted, env);
            && FdsOk(a.world, Some(a.logger)) && EntryOk(a.world) && a.logger.file == l.file && a.logger.directory == l.directory
            && a.logger.fileState == l.fileState && a.logger.max == l.max
  {
    hide FdsOk;
    if wanted && env.duplicate { OpenFds(w, l, l.(err := Some(|w.fds|), errState := Healthy), None); }
  }

  lemma FilesKeep(w: World, l: Logger, wanted: bool, env: CreateEnv)
    requires FdsOk(w, Some(l)) && l.file.None? && l.directory.None? && l.fileState == Disabled && EntryOk(w)
    ensures var b := OpenFiles(w, l, wanted, env);
            && FdsOk(b.world, Some(b.logger)) && EntryOk(b.world)
            && (b.logger.fileState == Healthy ==> b.logger.file.Some? && b.logger.file.value < |b.world.fds| && b.world.fds[b.logger.file.value] == b.world.entry && b.world.entry.Some?)
  {
    hide FdsOk;
    if wanted && env.openDirectory {
      var k := l.(directory := Some(|w.fds|));
      OpenFds(w, l, k, None);
      var v := Open(w, None);
      if env.openFile {
        var named := if v.entry.Some? then v else v.(sizes := v.sizes + [0], entry := Some(|v.sizes|));
        SameFds(v, named, Some(k));
        OpenFds(named, k, k.(file := Some(|named.fds|), fileState := Healthy), named.entry);
      }
    }
  }

  lemma SameFds(w: World, v: World, o: Option<Logger>)
    requires FdsOk(w, o) && v.fds == w.fds && v.closed == w.closed
    ensures FdsOk(v, o)
  {
  }

  lemma SameOwner(w: World, l: Logger, m: Logger)
    requires FdsOk(w, Some(l)) && m == l.(max := m.max, fileState := m.fileState, errState := m.errState)
    ensures FdsOk(w, Some(m))
  {
    assert forall fd: nat :: Owns(m, fd) <==> Owns(l, fd);
  }

  lemma NobodyYet(w: World, l: Logger)
    requires FdsOk(w, None) && l.file.None? && l.directory.None? && l.err.None?
    ensures FdsOk(w, Some(l))
  {
  }

  lemma CreateInv(s: Sys, toStderr: bool, directory: bool, max: nat, env: CreateEnv)
    requires Inv(s)
    ensures Inv(Create(s, toStderr, directory, max, env))
  {
    hide FdsOk, OpenStderr, OpenFiles, Rollback;
    if s.logger.None? {
      var empty := Logger(None, None, None, if directory then max else 0, Disabled, Disabled);
      NobodyYet(s.world, empty);
      StderrKeeps(s.world, empty, toStderr, env);
      var a := OpenStderr(s.world, empty, toStderr, env);
      CloseAllFds(a.world, a.logger);
      RollbackKeeps(a.world, a.logger);
      if a.ok {
        FilesKeep(a.world, a.logger, directory, env);
        var b := OpenFiles(a.world, a.logger, directory, env);
        CloseAllFds(b.world, b.logger);
        RollbackKeeps(b.world, b.logger);
        SameFds(b.world, b.world.(log := []), Some(b.logger));
      }
    }
  }

  lemma RollbackKeeps(w: World, l: Logger)
    ensures Rollback(w, l).sizes == w.sizes && Rollback(w, l).entry == w.entry
  {
  }

  lemma DestroyInv(s: Sys)
    requires Inv(s)
    ensures Inv(Destroy(s))
  {
    hide FdsOk;
    if s.logger.Some? { CloseAllFds(s.world, s.logger.value); }
  }

  // ---- Emitting ------------------------------------------------------------------------------

  /** What holds between the phases of an emit. */
  ghost predicate Good(w: World, l: Logger)
  {
    FdsOk(w, Some(l)) && EntryOk(w) && StateOk(w, l) && LogOk(w.log, l.max)
  }

  lemma BreakGood(w: World, l: Logger, sink: Sink)
    requires FdsOk(w, Some(l)) && EntryOk(w) && StateOk(w, l.(fileState := if sink == FileSink then Broken else l.fileState)) && LogOk(w.log, l.max)
    ensures var r := Break(w, l, sink); Good(r.0, r.1) && r.1.file == l.file && r.1.max == l.max
  {
    hide FdsOk;
    var r := Break(w, l, sink);
    SameFds(w, r.0, Some(l));
    SameOwner(r.0, l, r.1);
    NoteGrows(w.log, Failed(sink), l.max);
    assert forall a :: a in r.0.log <==> a in w.log || a == Failed(sink);
  }

  lemma NoteGrows(log: seq<Act>, a: Act, max: nat)
    requires LogOk(log, max) && !a.Wrote?
    ensures LogOk(log + [a], max)
  {
  }

  lemma WroteGrows(log: seq<Act>, a: Act, max: nat)
    requires LogOk(log, max) && a.Wrote? && !HasFailed(log, a.sink)
    requires a.sink == FileSink ==> a.before <= a.after <= max && Archived(a.inode) !in log
    ensures LogOk(log + [a], max)
  {
    forall i | 0 <= i < |log| && log[i].Failed? ensures log[i].sink != a.sink {
      assert log[i] == Failed(log[i].sink);
    }
    forall i | 0 <= i < |log| && log[i].Archived? && a.sink == FileSink ensures log[i].inode != a.inode {
      assert log[i] == Archived(log[i].inode);
    }
  }

  /** The renamed file is out of reach before anything else is tried. */
  lemma ReplaceGood(w: World, l: Logger, env: Env, inode: nat)
    requires FdsOk(w, Some(l)) && EntryOk(w) && StateOk(w, l.(fileState := Broken)) && LogOk(w.log, l.max)
    requires l.fileState == Healthy && l.file.Some? && !HasFailed(w.log, FileSink)
    ensures var p := Replace(w, l, env);
            && FdsOk(p.world, Some(p.logger)) && EntryOk(p.world) && LogOk(p.world.log, p.logger.max) && p.logger.max == l.max
            && StateOk(p.world, p.logger.(fileState := Broken)) && p.logger.fileState == Healthy
            && (p.ready ==> StateOk(p.world, p.logger) && p.world.entry.Some? && SizeOf(p.world, p.world.entry.value) == 0)
  {
    hide FdsOk;
    if env.openNew {
      var fresh_ := |w.sizes|;
      var named := w.(sizes := w.sizes + [0], entry := Some(fresh_));
      var v := Open(named, Some(fresh_));
      SameFds(w, named, Some(l));
      if env.inspectNew {
        SwapFds(named, l, Some(fresh_));
        assert Archived(fresh_) !in w.log;
      } else {
        DropFds(named, l, Some(fresh_));
      }
    }
  }

  /** A descriptor opened and closed at once leaves the logger's own alone. */
  lemma DropFds(w: World, l: Logger, inode: Option<nat>)
    requires FdsOk(w, Some(l))
    ensures FdsOk(CloseFd(Open(w, inode), Last(Open(w, inode))), Some(l))
  {
    var v := Open(w, inode);
    assert |w.fds| !in w.closed;
  }

  /** The new descriptor takes the old one's place and the old one is closed. */
  lemma SwapFds(w: World, l: Logger, inode: Option<nat>)
    requires FdsOk(w, Some(l)) && l.file.Some?
    ensures FdsOk(CloseFd(Open(w, inode), l.file), Some(l.(file := Last(Open(w, inode)))))
  {
    var v := Open(w, inode);
    var m := l.(file := Some(|w.fds|));
    assert |w.fds| !in w.closed && Owns(l, l.file.value) && l.file.value !in w.closed;
    assert forall fd: nat :: Owns(m, fd) <==> (Owns(l, fd) && fd != l.file.value) || fd == |w.fds|;
  }

  lemma PrepareGood(w: World, l: Logger, line: nat, env: Env)
    requires Good(w, l) && l.fileState == Healthy
    ensures var p := Prepare(w, l, line, env);
            && FdsOk(p.world, Some(p.logger)) && EntryOk(p.world) && LogOk(p.world.log, p.logger.max) && p.logger.max == l.max
            && StateOk(p.world, p.logger.(fileState := Broken)) && p.logger.fileState == Healthy
            && (p.ready ==> StateOk(p.world, p.logger) && p.world.entry.Some? && SizeOf(p.world, p.world.entry.value) + line <= l.max)
  {
    hide FdsOk, Replace;
    var inode := Inode(w, l.file);
    assert inode == w.entry;
    if inode.Some? && line <= l.max && SizeOf(w, inode.value) + line > l.max {
      var renamed := w.(entry := None, archive := Some(inode.value), log := w.log + [Archived(inode.value)]);
      SameFds(w, renamed, Some(l));
      NoteGrows(w.log, Archived(inode.value), l.max);
      assert forall a :: a in renamed.log <==> a in w.log || a == Archived(inode.value);
      ReplaceGood(renamed, l, env, inode.value);
    }
  }

  lemma AppendGood(w: World, l: Logger, inode: nat, count: nat)
    requires Good(w, l) && l.fileState == Healthy && w.entry == Some(inode) && w.sizes[inode] + count <= l.max
    ensures Good(Append(w, inode, count), l) && inode < |w.sizes|
  {
    hide FdsOk;
    var v := Append(w, inode, count);
    var a := Wrote(FileSink, inode, w.sizes[inode], w.sizes[inode] + count);
    SameFds(w, v, Some(l));
    WroteGrows(w.log, a, l.max);
    assert forall b :: b in v.log <==> b in w.log || b == a;
  }

  lemma EmitFileGood(w: World, l: Logger, line: nat, env: Env)
    requires Good(w, l)
    ensures var r := EmitFile(w, l, line, env); Good(r.0, r.1)
  {
    hide FdsOk, Prepare, Break, Append, WriteAll, LogOk;
    if l.fileState == Healthy {
      PrepareGood(w, l, line, env);
      var p := Prepare(w, l, line, env);
      var inode := Inode(p.world, p.logger.file);
      if !p.ready || inode.None? {
        BreakGood(p.world, p.logger, FileSink);
      } else {
        WriteAllBounds(env.fileKernel, line, 0, 0, 0);
        var written := WriteAll(env.fileKernel, line, 0, 0, 0);
        assert inode == p.world.entry;
        AppendGood(p.world, p.logger, inode.value, written.count);
        var v := Append(p.world, inode.value, written.count);
        if !written.ok { Unhealthy(v, p.logger); BreakGood(v, p.logger, FileSink); }
      }
    }
  }

  lemma Unhealthy(w: World, l: Logger)
    requires StateOk(w, l)
    ensures StateOk(w, l.(fileState := Broken))
  {
  }

  lemma EmitErrGood(w: World, l: Logger, line: nat, env: Env)
    requires Good(w, l)
    ensures var r := EmitErr(w, l, line, env); Good(r.0, r.1)
  {
    hide FdsOk, WriteAll, Break, LogOk;
    if l.errState == Healthy {
      var written := WriteAll(env.errKernel, line, 0, 0, 0);
      var a := Wrote(ErrSink, 0, 0, written.count);
      var v := w.(log := w.log + [a]);
      SameFds(w, v, Some(l));
      WroteGrows(w.log, a, l.max);
      assert forall b :: b in v.log <==> b in w.log || b == a;
      if !written.ok { BreakGood(v, l, ErrSink); }
    }
  }

  lemma EmitInv(s: Sys, line: nat, env: Env)
    requires Inv(s)
    ensures Inv(Emit(s, line, env))
  {
    hide FdsOk, StateOk, LogOk, EmitFile, EmitErr;
    if s.logger.Some? {
      EmitFileGood(s.world, s.logger.value, line, env);
      var a := EmitFile(s.world, s.logger.value, line, env);
      EmitErrGood(a.0, a.1, line, env);
    }
  }

  // ---- Runs ----------------------------------------------------------------------------------

  datatype Event = DoCreate(toStderr: bool, directory: bool, max: nat, create: CreateEnv) | DoEmit(line: nat, env: Env) | DoDestroy

  function Step(s: Sys, e: Event): (t: Sys)
  {
    match e
    case DoCreate(toStderr, directory, max, create) => Create(s, toStderr, directory, max, create)
    case DoEmit(line, env) => Emit(s, line, env)
    case DoDestroy => Destroy(s)
  }

  lemma StepInv(s: Sys, e: Event)
    requires Inv(s)
    ensures Inv(Step(s, e))
  {
    hide Inv, Create, Emit, Destroy;
    match e
    case DoCreate(toStderr, directory, max, create) => CreateInv(s, toStderr, directory, max, create);
    case DoEmit(line, env) => EmitInv(s, line, env);
    case DoDestroy => DestroyInv(s);
  }

  function Run(s: Sys, events: seq<Event>): (t: Sys)
    decreases |events|
  {
    if events == [] then s else Run(Step(s, events[0]), events[1..])
  }

  lemma {:induction false} RunInv(s: Sys, events: seq<Event>)
    requires Inv(s)
    ensures Inv(Run(s, events))
    decreases |events|
  {
    hide Inv, Step;
    if events != [] {
      StepInv(s, events[0]);
      RunInv(Step(s, events[0]), events[1..]);
    }
  }

  predicate Initial(s: Sys)
  {
    s.logger.None? && s.world.fds == [] && s.world.closed == [] && (s.world.entry.Some? ==> s.world.entry.value < |s.world.sizes|)
  }

  lemma InitialInv(s: Sys)
    requires Initial(s)
    ensures Inv(s)
  {
  }

  /**
    For every sequence of creations, emits and destructions and every failure in them: no write takes
    the active file past its maximum, a sink that failed is never written again, and a file renamed
    away is never written again.
   */
  lemma WritesStayInBounds(start: Sys, events: seq<Event>, i: nat, j: nat)
    requires Initial(start) && Run(start, events).logger.Some?
    requires i < |Run(start, events).world.log| && j < |Run(start, events).world.log|
    ensures var log := Run(start, events).world.log;
            && (log[j].Wrote? && log[j].sink == FileSink ==> log[j].before <= log[j].after <= Run(start, events).logger.value.max)
            && (i < j && log[i].Failed? && log[j].Wrote? ==> log[i].sink != log[j].sink)
            && (i < j && log[i].Archived? && log[j].Wrote? && log[j].sink == FileSink ==> log[i].inode != log[j].inode)
  {
    hide FdsOk, StateOk, Step;
    InitialInv(start);
    RunInv(start, events);
  }

  /** While the logger is alive each descriptor it obtained is held or was closed once; without a logger each was closed exactly once. */
  lemma ClosedExactlyOnce(start: Sys, events: seq<Event>, fd: nat)
    requires Initial(start) && fd < |Run(start, events).world.fds|
    ensures var s := Run(start, events);
            && NoRepeats(s.world.closed)
            && (s.logger.None? ==> fd in s.world.closed)
            && (s.logger.Some? ==> (fd in s.world.closed <==> !Owns(s.logger.value, fd)))
            && (forall k :: 0 <= k < |s.world.closed| ==> s.world.closed[k] < |s.world.fds|)
  {
    hide StateOk, LogOk, Step;
    InitialInv(start);
    RunInv(start, events);
    var closed := Run(start, events).world.closed;
    assert forall k :: 0 <= k < |closed| ==> closed[k] in closed;
  }

  // ---- What each operation achieves ----------------------------------------------------------

  /** The calls from `first` up to `last` were all interrupted. */
  ghost predicate AllInterrupted(kernel: seq<Answer>, first: int, last: nat)
  {
    forall j: nat :: first <= j < last ==> Reply(kernel, j) == Interrupted
  }

  /** A line is given up only for an error, a count no write may return, or seventeen interruptions in a row. */
  lemma {:induction false} WriteAllFailure(kernel: seq<Answer>, total: nat, offset: nat, interruptions: nat, calls: nat)
    requires offset <= total && interruptions <= RETRIES && interruptions <= calls && AllInterrupted(kernel, calls - interruptions, calls)
    ensures var w := WriteAll(kernel, total, offset, interruptions, calls);
            !w.ok ==>
              && calls < w.calls && w.count < total
              && match Reply(kernel, w.calls - 1)
                 case Error => true
                 case Took(n) => n <= 0 || n > total - w.count
                 case Interrupted => w.calls >= 17 && AllInterrupted(kernel, w.calls - 17, w.calls)
    decreases total - offset, RETRIES - interruptions
  {
    if offset != total {
      match Reply(kernel, calls)
      case Took(n) => if 0 < n <= total - offset { WriteAllFailure(kernel, total, offset + n, 0, calls + 1); }
      case Interrupted => if interruptions < RETRIES { WriteAllFailure(kernel, total, offset, interruptions + 1, calls + 1); }
      case Error =>
    }
  }

  /** Everything a rotation asks for is granted. */
  predicate RotationWorks(env: Env)
  {
    env.entry && env.archive in {Missing, Fit} && env.sync && env.rename && env.openNew && env.inspectNew && env.closeOld
  }

  /** A line that fits is appended to the file under the name; one that does not goes to a new file, the old one archived whole. */
  lemma FileGetsLine(w: World, l: Logger, line: nat, env: Env)
    requires Good(w, l) && l.fileState == Healthy && env.inspect && env.attributes && line <= l.max && WriteAll(env.fileKernel, line, 0, 0, 0).ok
    ensures var entry := w.entry.value;
            var (v, m) := EmitFile(w, l, line, env);
            && (w.sizes[entry] + line <= l.max ==>
                  m == l && v.entry == w.entry && v.archive == w.archive && v.fds == w.fds && v.closed == w.closed
                  && v.sizes == w.sizes[entry := w.sizes[entry] + line] && v.log == w.log + [Wrote(FileSink, entry, w.sizes[entry], w.sizes[entry] + line)])
            && (w.sizes[entry] + line > l.max && RotationWorks(env) ==>
                  var fresh_ := |w.sizes|;
                  && m == l.(file := Some(|w.fds|)) && v.entry == Some(fresh_) && v.archive == Some(entry)
                  && v.sizes == w.sizes + [line] && v.fds == w.fds + [Some(fresh_)] && v.closed == w.closed + [l.file.value]
                  && v.log == w.log + [Archived(entry), Wrote(FileSink, fresh_, 0, line)])
            && (w.sizes[entry] + line > l.max && !RotationWorks(env) ==> m.fileState == Broken && (forall i :: |w.log| <= i < |v.log| ==> !v.log[i].Wrote?))
  {
    hide WriteAll, FdsOk, LogOk;
    WriteAllBounds(env.fileKernel, line, 0, 0, 0);
    if w.sizes[w.entry.value] + line > l.max && !RotationWorks(env) {
      RotationFails(w, l, w.entry.value, env);
      assert Prepare(w, l, line, env) == Rotate(w, l, w.entry.value, env);
    }
  }

  lemma RotationFails(w: World, l: Logger, inode: nat, env: Env)
    requires !RotationWorks(env)
    ensures var p := Rotate(w, l, inode, env); !p.ready && (p.world.log == w.log || p.world.log == w.log + [Archived(inode)])
  {
    assert env.archive.Missing? || env.archive.Fit? || env.archive.Unfit? || env.archive.Unreadable?;
  }

  /** A file that cannot be inspected or written in full is given up; whatever happened to it, standard error still gets the line. */
  lemma SinksAreIndependent(s: Sys, line: nat, env: Env)
    requires Inv(s) && s.logger.Some?
    ensures var l, t := s.logger.value, Emit(s, line, env);
            && t.logger.Some?
            && (l.fileState == Healthy && (!env.inspect || !env.attributes || line > l.max || !WriteAll(env.fileKernel, line, 0, 0, 0).ok) ==>
                  t.logger.value.fileState == Broken && Failed(FileSink) in t.world.log)
            && (l.errState == Healthy ==>
                  && Wrote(ErrSink, 0, 0, WriteAll(env.errKernel, line, 0, 0, 0).count) in t.world.log
                  && (t.logger.value.errState == if WriteAll(env.errKernel, line, 0, 0, 0).ok then Healthy else Broken))
            && (l.errState != Healthy ==> t.logger.value.errState == l.errState)
            && (l.fileState != Healthy ==> t.logger.value.fileState == l.fileState && t.world.sizes == s.world.sizes)
  {
    hide WriteAll, FdsOk, LogOk, StateOk;
    var l := s.logger.value;
    FileStep(s.world, l, line, env);
    var a := EmitFile(s.world, l, line, env);
    ErrStep(a.0, a.1, line, env);
  }

  lemma FileStep(w: World, l: Logger, line: nat, env: Env)
    ensures var (v, m) := EmitFile(w, l, line, env);
            && m.errState == l.errState && (l.fileState != Healthy ==> m == l && v == w)
            && (l.fileState == Healthy && (!env.inspect || !env.attributes || line > l.max || !WriteAll(env.fileKernel, line, 0, 0, 0).ok) ==>
                  m.fileState == Broken && Failed(FileSink) in v.log)
  {
    hide WriteAll;
  }

  lemma ErrStep(w: World, l: Logger, line: nat, env: Env)
    ensures var (v, m) := EmitErr(w, l, line, env);
            && m.fileState == l.fileState && v.sizes == w.sizes && (forall a :: a in w.log ==> a in v.log)
            && (l.errState != Healthy ==> m == l)
            && (l.errState == Healthy ==>
                  && Wrote(ErrSink, 0, 0, WriteAll(env.errKernel, line, 0, 0, 0).count) in v.log
                  && m.errState == if WriteAll(env.errKernel, line, 0, 0, 0).ok then Healthy else Broken)
  {
    hide WriteAll;
  }

  /** A logger comes into being exactly when its options are valid and everything asked of the system works; it then has exactly the sinks asked for. */
  lemma CreateExact(s: Sys, toStderr: bool, directory: bool, max: nat, env: CreateEnv)
    requires s.logger.None?
    ensures var t := Create(s, toStderr, directory, max, env);
            && (t.logger.Some? <==>
                  && (toStderr || directory) && (directory ==> 1_048_576 <= max <= 1_073_741_824) && env.allocate && env.mutex
                  && (toStderr ==> env.duplicate && env.inspectErr)
                  && (directory ==> env.openDirectory && env.openFile && env.inspectFile && env.attributes))
            && (t.logger.Some? ==>
                  var l := t.logger.value;
                  && l.max == (if directory then max else 0)
                  && l.fileState == (if directory then Healthy else Disabled) && l.errState == (if toStderr then Healthy else Disabled)
                  && l.file.Some? == directory && l.directory.Some? == directory && l.err.Some? == toStderr)
  {
  }
}
