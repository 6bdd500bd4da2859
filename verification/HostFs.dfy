/** The host's filesystem calls, reduced to what they check and whether they read or change a file or
    a directory. */
module HostFs {
  import opened Wrappers
  import opened Bytes
  import opened HandleTable

  type Handle = u32

  datatype DirPerms = DirPerms(read: bool, mutate: bool)

  datatype FilePerms = FilePerms(read: bool, write: bool)

  datatype Preopen = Preopen(dirPerms: DirPerms, filePerms: FilePerms)

  /** A table entry. A file knows what its OS handle was opened for, which its streams share; `root` records
      the preopen that an entry was reached from. */
  datatype Node =
    | Dir(dirPerms: DirPerms, filePerms: FilePerms, root: nat)
    | File(perms: FilePerms, readable: bool, writable: bool, root: nat)
    | Stream(canRead: bool, canWrite: bool, root: nat)
    | Stdio

  datatype OpenFlags = OpenFlags(create: bool, directory: bool, exclusive: bool, truncate: bool)

  datatype DescriptorFlags = DescriptorFlags(read: bool, write: bool, sync: bool)

  /** What the OS says to an open: an error, or what it opened. */
  datatype OpenReply = OsError | IsDirectory | IsFile

  datatype Call =
    | Query(fd: Handle)                    // advise, sync_data, sync, get_flags, get_type
    | Read(fd: Handle)
    | Stat(fd: Handle)
    | Lookup(fd: Handle)                   // read_directory, stat_at, readlink_at
    | SetSize(fd: Handle)
    | SetTimes(fd: Handle)
    | Write(fd: Handle)
    | Change(fd: Handle)                   // a directory's *_at calls that create, remove or set times
    | Link(fd: Handle, followOld: bool, newFd: Handle)
    | Rename(fd: Handle, newFd: Handle)
    | OpenAt(fd: Handle, oflags: OpenFlags, flags: DescriptorFlags, reply: OpenReply)
    | DropDescriptor(fd: Handle)
    | ReadViaStream(fd: Handle)
    | WriteViaStream(fd: Handle)           // also append_via_stream
    | StreamRead(stream: Handle)
    | StreamWrite(stream: Handle)
    | DropStream(stream: Handle)

  datatype Error = NotDirectory | BadDescriptor | NotPermitted | Invalid | Unsupported | Os

  datatype Outcome = Done | Opened(h: Handle) | Denied(error: Error) | Trapped

  type Nodes = map<Handle, Node>

  // ----- opening -----

  datatype OpenOptions = OpenOptions(read: bool, write: bool, create: bool, createNew: bool, truncate: bool)

  const NO_OPTIONS := OpenOptions(false, false, false, false, false)

  /** What the checks before the open say. */
  function OpenDenied(t: Nodes, fd: Handle, oflags: OpenFlags, flags: DescriptorFlags): (e: Option<Error>)
  {
    if fd in t && t[fd].File? then Some(NotDirectory)
    else if fd !in t || !t[fd].Dir? then Some(BadDescriptor)
    else if !t[fd].dirPerms.read then Some(NotPermitted)
    else if !t[fd].dirPerms.mutate && (oflags.create || oflags.truncate || flags.write) then Some(NotPermitted)
    else if flags.sync then Some(Unsupported)
    else if oflags.directory && (oflags.create || oflags.exclusive || oflags.truncate) then Some(Invalid)
    else None
  }

  function OptionsFor(oflags: OpenFlags, flags: DescriptorFlags): OpenOptions
  {
    OpenOptions(flags.read || !flags.write, oflags.create || flags.write,
                oflags.create && !oflags.exclusive, oflags.create && oflags.exclusive, oflags.truncate)
  }

  /** Opening with these options may create or truncate. */
  predicate MayChange(o: OpenOptions) { o.create || o.createNew || o.truncate }

  /** The entry for what was opened: a directory hands its permissions on, a file gets the
      directory's file permissions, whatever was asked for. */
  function Child(parent: Node, o: OpenOptions, reply: OpenReply): Node
    requires parent.Dir? && !reply.OsError?
  {
    if reply.IsDirectory? then Dir(parent.dirPerms, parent.filePerms, parent.root)
    else File(parent.filePerms, o.read, o.write, parent.root)
  }

  /** The options, built up flag by flag. */
  method BuildOptions(oflags: OpenFlags, flags: DescriptorFlags) returns (o: OpenOptions)
    ensures o == OptionsFor(oflags, flags)
  {
    o := NO_OPTIONS;
    if oflags.create && oflags.exclusive {
      o := o.(createNew := true);
      o := o.(write := true);
    } else if oflags.create {
      o := o.(create := true);
      o := o.(write := true);
    }
    if oflags.truncate {
      o := o.(truncate := true);
    }
    if flags.read {
      o := o.(read := true);
    }
    if flags.write {
      o := o.(write := true);
    } else {
      o := o.(read := true);
    }
  }

  // ----- every call -----

  /** A call's new table, its outcome, and whether it passed every check and can get the OS to change a file or
      directory, or to tell what is in it. The OS refuses to write to a file, to resize it or to read it
      through a handle that was not opened for that. */
  datatype StepResult = StepResult(table: Nodes, outcome: Outcome, changes: bool, observes: bool)

  function Deny(t: Nodes, e: Error): StepResult { StepResult(t, Denied(e), false, false) }

  function DirError(t: Nodes, fd: Handle, mutating: bool): (e: Option<Error>)
  {
    if fd !in t || !t[fd].Dir? then Some(BadDescriptor)
    else if (if mutating then t[fd].dirPerms.mutate else t[fd].dirPerms.read) then None
    else Some(NotPermitted)
  }

  function FileError(t: Nodes, fd: Handle, writing: bool): (e: Option<Error>)
  {
    if fd !in t || !t[fd].File? then Some(BadDescriptor)
    else if (if writing then t[fd].perms.write else t[fd].perms.read) then None
    else Some(NotPermitted)
  }

  function Reading(t: Nodes, e: Option<Error>, observes: bool): StepResult
  {
    if e.Some? then Deny(t, e.value) else StepResult(t, Done, false, observes)
  }

  function Changing(t: Nodes, e: Option<Error>, changes: bool): StepResult
  {
    if e.Some? then Deny(t, e.value) else StepResult(t, Done, changes, false)
  }

  /** A call that ends without touching a file or a directory. */
  function Aside(t: Nodes, outcome: Outcome): StepResult { StepResult(t, outcome, false, false) }

  predicate OpenedForReading(t: Nodes, fd: Handle) { fd in t && t[fd].File? && t[fd].readable }

  predicate OpenedForWriting(t: Nodes, fd: Handle) { fd in t && t[fd].File? && t[fd].writable }

  /** One call; `handle` is the handle the table gives out if the call inserts an entry, or none if
      the table is full. */
  function Step(t: Nodes, call: Call, handle: Option<Handle>): StepResult
  {
    match call
    case Query(fd) => Aside(t, if fd in t && (t[fd].File? || t[fd].Dir?) then Done else Denied(BadDescriptor))
    case Read(fd) => Reading(t, FileError(t, fd, false), OpenedForReading(t, fd))
    case Stat(fd) =>
      Reading(t, if fd in t && t[fd].File? then FileError(t, fd, false) else DirError(t, fd, false), true)
    case Lookup(fd) => Reading(t, DirError(t, fd, false), true)
    case SetSize(fd) => Changing(t, FileError(t, fd, true), OpenedForWriting(t, fd))
    case SetTimes(fd) =>
      Changing(t, if fd in t && t[fd].File? then FileError(t, fd, true) else DirError(t, fd, true), true)
    case Write(fd) => Changing(t, FileError(t, fd, true), OpenedForWriting(t, fd))
    case Change(fd) => Changing(t, DirError(t, fd, true), true)
    case Link(fd, followOld, newFd) =>
      var e := DirError(t, fd, true);
      var e2 := if e.Some? then e else DirError(t, newFd, true);
      Changing(t, if e2.None? && followOld then Some(Invalid) else e2, true)
    case Rename(fd, newFd) =>
      var e := DirError(t, fd, true);
      Changing(t, if e.Some? then e else DirError(t, newFd, true), true)
    case OpenAt(fd, oflags, flags, reply) =>
      var e := OpenDenied(t, fd, oflags, flags);
      var o := OptionsFor(oflags, flags);
      if e.Some? then Deny(t, e.value)
      else if reply.OsError? then StepResult(t, Denied(Os), MayChange(o), false)
      else if reply.IsFile? && oflags.directory then StepResult(t, Denied(NotDirectory), MayChange(o), false)
      else if handle.None? then StepResult(t, Trapped, MayChange(o), false)
      else StepResult(t[handle.value := Child(t[fd], o, reply)], Opened(handle.value), MayChange(o), false)
    case DropDescriptor(fd) =>
      if fd in t && (t[fd].File? || t[fd].Dir?) then Aside(t - {fd}, Done) else Aside(t, Trapped)
    case ReadViaStream(fd) =>
      if fd !in t || !t[fd].File? || handle.None? then Aside(t, Trapped)
      else Aside(t[handle.value := Stream(t[fd].readable, false, t[fd].root)], Opened(handle.value))
    case WriteViaStream(fd) =>
      if fd !in t || !t[fd].File? || handle.None? then Aside(t, Trapped)
      else Aside(t[handle.value := Stream(false, t[fd].writable, t[fd].root)], Opened(handle.value))
    case StreamRead(h) =>
      if h in t && t[h].Stream? then Reading(t, None, t[h].canRead) else Deny(t, BadDescriptor)
    case StreamWrite(h) =>
      if h in t && t[h].Stream? then Changing(t, None, t[h].canWrite) else Deny(t, BadDescriptor)
    case DropStream(h) =>
      if h in t && t[h].Stream? then Aside(t - {h}, Done) else Aside(t, Trapped)
  }

  /** What an OS makes of a path it is asked to open: it may be there or not; `none` is a refusal. */
  datatype Effect = Effect(creates: bool, truncates: bool)

  function EffectOf(o: OpenOptions, present: bool): (e: Option<Effect>)
  {
    if present then if o.createNew then None else Some(Effect(false, o.truncate))
    else if o.create || o.createNew then Some(Effect(true, false))
    else None
  }

  /** What the flags mean for the path: a missing one is created exactly when that is asked for, an existing
      one is refused exactly when it was to be created exclusively, and truncated when asked for. A handle
      is always opened for reading or for writing. */
  lemma {:induction false} FlagsMean(oflags: OpenFlags, flags: DescriptorFlags)
    ensures var o := OptionsFor(oflags, flags);
            && EffectOf(o, false) == (if oflags.create then Some(Effect(true, false)) else None)
            && EffectOf(o, true)
               == (if oflags.create && oflags.exclusive then None else Some(Effect(false, oflags.truncate)))
            && (o.write <==> oflags.create || flags.write) && (!o.read ==> flags.write) && (flags.read ==> o.read)
            && (!flags.write ==> o.read)
  {
  }

  /** `open_at`, on the host's table. */
  method OpenAtOnTable(table: Table<Node>, fd: Handle, oflags: OpenFlags, flags: DescriptorFlags, reply: OpenReply)
    returns (outcome: Outcome, ghost changes: bool)
    requires table.Valid()
    modifies table
    ensures table.Valid()
    ensures var handle := if |old(table.entries)| >= MAX_ENTRIES then None
                         else if outcome.Opened? then Some(outcome.h) else Some(0);
            StepResult(table.entries, outcome, changes, false)
              == Step(old(table.entries), OpenAt(fd, oflags, flags, reply), handle)
    ensures outcome.Opened? ==> outcome.h !in old(table.entries)
  {
    hide MayChange, OptionsFor, Child;
    changes := false;
    if fd in table.entries && table.entries[fd].File? {
      return Denied(NotDirectory), changes;
    }
    if fd !in table.entries || !table.entries[fd].Dir? {
      return Denied(BadDescriptor), changes;
    }
    var d := table.entries[fd];
    if !d.dirPerms.read {
      return Denied(NotPermitted), changes;
    }
    if !d.dirPerms.mutate {
      if oflags.create || oflags.truncate {
        return Denied(NotPermitted), changes;
      }
      if flags.write {
        return Denied(NotPermitted), changes;
      }
    }
    var o := BuildOptions(oflags, flags);
    if flags.sync {
      return Denied(Unsupported), changes;
    }
    if oflags.directory {
      if oflags.create || oflags.exclusive || oflags.truncate {
        return Denied(Invalid), changes;
      }
    }
    changes := MayChange(o);
    if reply.OsError? {
      return Denied(Os), changes;
    }
    if reply.IsFile? && oflags.directory {
      return Denied(NotDirectory), changes;
    }
    var pushed := table.Push(Child(d, o, reply));
    outcome := if pushed.Success? then Opened(pushed.value) else Trapped;
  }

  // ----- runs -----

  /** A run: each call with the handle it would get. */
  type Run = seq<(Call, Option<Handle>)>

  /** Every handle that is given out is a new one. */
  ghost predicate IsRun(t: Nodes, run: Run)
    decreases |run|
  {
    run == [] ||
    (&& (run[0].1.Some? ==> run[0].1.value !in t)
     && IsRun(Step(t, run[0].0, run[0].1).table, run[1..]))
  }

  /** Some call of the run gets the OS to change something. */
  predicate RunChanges(t: Nodes, run: Run)
    decreases |run|
  {
    run != [] && (Step(t, run[0].0, run[0].1).changes || RunChanges(Step(t, run[0].0, run[0].1).table, run[1..]))
  }

  /** The handles that a call names. */
  function Named(call: Call): (hs: set<Handle>)
  {
    match call
    case Link(fd, _, newFd) => {fd, newFd}
    case Rename(fd, newFd) => {fd, newFd}
    case StreamRead(h) => {h}
    case StreamWrite(h) => {h}
    case DropStream(h) => {h}
    case _ => {call.fd}
  }

  /** `h` was reached from preopen `i`. */
  predicate IsUnder(t: Nodes, h: Handle, i: nat) { h in t && !t[h].Stdio? && t[h].root == i }

  /** Some call of the run changes something, or reads something, and names what was reached from preopen `i`. */
  ghost predicate RunTouches(t: Nodes, run: Run, i: nat, changing: bool)
    decreases |run|
  {
    run != [] &&
    var s := Step(t, run[0].0, run[0].1);
    || ((if changing then s.changes else s.observes) && exists h :: h in Named(run[0].0) && IsUnder(t, h, i))
    || RunTouches(s.table, run[1..], i, changing)
  }

  function RunTable(t: Nodes, run: Run): Nodes
    decreases |run|
  {
    if run == [] then t else RunTable(Step(t, run[0].0, run[0].1).table, run[1..])
  }

  /** Every file and directory has the permissions of its preopen, was reached through a readable
      one, and its OS handle and streams are writable only where the preopen may mutate. */
  ghost predicate Inherits(t: Nodes, roots: seq<Preopen>)
  {
    forall h :: h in t ==>
      match t[h]
      case Dir(dirPerms, filePerms, root) =>
        root < |roots| && dirPerms == roots[root].dirPerms && filePerms == roots[root].filePerms
      case File(perms, _, writable, root) =>
        && root < |roots| && perms == roots[root].filePerms && roots[root].dirPerms.read
        && (writable ==> roots[root].dirPerms.mutate)
      case Stream(_, canWrite, root) =>
        root < |roots| && roots[root].dirPerms.read && (canWrite ==> roots[root].dirPerms.mutate)
      case Stdio => true
  }

  /** Every call hands the permissions on unchanged. */
  lemma {:induction false} StepInherits(t: Nodes, roots: seq<Preopen>, call: Call, handle: Option<Handle>)
    requires Inherits(t, roots)
    ensures Inherits(Step(t, call, handle).table, roots)
  {
  }

  /** Over any run, every entry keeps exactly the permissions of the preopen it descends from. */
  lemma {:induction false} RunInherits(t: Nodes, roots: seq<Preopen>, run: Run)
    requires Inherits(t, roots)
    ensures Inherits(RunTable(t, run), roots)
    decreases |run|
  {
    if run != [] {
      StepInherits(t, roots, run[0].0, run[0].1);
      RunInherits(Step(t, run[0].0, run[0].1).table, roots, run[1..]);
    }
  }

  /** A preopen through which something can be changed: its directories directly, or the files that
      can be opened through it. */
  predicate LetsChange(p: Preopen) { p.dirPerms.mutate || (p.dirPerms.read && p.filePerms.write) }

  /** Whatever a call changes is permitted by the preopen of everything it names, whatever the others permit:
      a directory and a stream by its leave to mutate, a file by its leave to write. */
  lemma {:induction false} ChangesOnlyWherePermitted(t: Nodes, roots: seq<Preopen>, call: Call, handle: Option<Handle>)
    requires Inherits(t, roots) && Step(t, call, handle).changes
    ensures forall h :: h in Named(call) ==>
              && h in t && !t[h].Stdio? && t[h].root < |roots| && LetsChange(roots[t[h].root])
              && (t[h].File? ==> roots[t[h].root].filePerms.write)
              && (!t[h].File? ==> roots[t[h].root].dirPerms.mutate)
  {
  }

  /** Whatever a call reads is permitted by the preopen of what it names: a directory by its leave to read,
      a file by its leave to read files as well, which a stream does not need. */
  lemma {:induction false} ReadsOnlyWherePermitted(t: Nodes, roots: seq<Preopen>, call: Call, handle: Option<Handle>)
    requires Inherits(t, roots) && Step(t, call, handle).observes
    ensures forall h :: h in Named(call) ==>
              && h in t && !t[h].Stdio? && t[h].root < |roots| && roots[t[h].root].dirPerms.read
              && (t[h].File? ==> roots[t[h].root].filePerms.read)
  {
  }

  /** And what is permitted is granted: on entries of the kind it is for, a call is denied exactly when the
      preopen of one of them does not permit it. */
  lemma {:induction false} GrantedIff(t: Nodes, roots: seq<Preopen>, call: Call, handle: Option<Handle>)
    requires Inherits(t, roots)
    ensures var outcome := Step(t, call, handle).outcome;
            match call
            case Query(fd) => outcome == if fd in t && (t[fd].File? || t[fd].Dir?) then Done else Denied(BadDescriptor)
            case Read(fd) =>
              fd in t && t[fd].File? ==>
                outcome == if roots[t[fd].root].filePerms.read then Done else Denied(NotPermitted)
            case Write(fd) =>
              fd in t && t[fd].File? ==>
                outcome == if roots[t[fd].root].filePerms.write then Done else Denied(NotPermitted)
            case SetSize(fd) =>
              fd in t && t[fd].File? ==>
                outcome == if roots[t[fd].root].filePerms.write then Done else Denied(NotPermitted)
            case Lookup(fd) =>
              fd in t && t[fd].Dir? ==>
                outcome == if roots[t[fd].root].dirPerms.read then Done else Denied(NotPermitted)
            case Change(fd) =>
              fd in t && t[fd].Dir? ==>
                outcome == if roots[t[fd].root].dirPerms.mutate then Done else Denied(NotPermitted)
            case Stat(fd) =>
              && (fd in t && t[fd].File? ==>
                    outcome == if roots[t[fd].root].filePerms.read then Done else Denied(NotPermitted))
              && (fd in t && t[fd].Dir? ==>
                    outcome == if roots[t[fd].root].dirPerms.read then Done else Denied(NotPermitted))
            case SetTimes(fd) =>
              && (fd in t && t[fd].File? ==>
                    outcome == if roots[t[fd].root].filePerms.write then Done else Denied(NotPermitted))
              && (fd in t && t[fd].Dir? ==>
                    outcome == if roots[t[fd].root].dirPerms.mutate then Done else Denied(NotPermitted))
            case Rename(fd, newFd) =>
              fd in t && t[fd].Dir? && newFd in t && t[newFd].Dir? ==>
                outcome == if roots[t[fd].root].dirPerms.mutate && roots[t[newFd].root].dirPerms.mutate then Done
                           else Denied(NotPermitted)
            case Link(fd, followOld, newFd) =>
              fd in t && t[fd].Dir? && newFd in t && t[newFd].Dir? ==>
                outcome == if !roots[t[fd].root].dirPerms.mutate || !roots[t[newFd].root].dirPerms.mutate
                           then Denied(NotPermitted) else if followOld then Denied(Invalid) else Done
            case OpenAt(fd, oflags, flags, _) =>
              fd in t && t[fd].Dir? ==>
                (outcome == Denied(NotPermitted) <==>
                   || !roots[t[fd].root].dirPerms.read
                   || (!roots[t[fd].root].dirPerms.mutate && (oflags.create || oflags.truncate || flags.write)))
            case _ => true
    ensures (exists h :: h in Named(call) && (h !in t || t[h].Stdio?)) ==> !Step(t, call, handle).outcome.Done?
    ensures (call.Read? || call.Write? || call.SetSize? || call.Lookup? || call.Change? || call.Stat? || call.SetTimes?)
              && (call.fd !in t || t[call.fd].Stdio? || t[call.fd].Stream?) ==>
              Step(t, call, handle).outcome == Denied(BadDescriptor)
  {
  }

  /** In which order an open below a directory is refused, and what it makes otherwise: an entry of the kind
      that the OS opened, with the directory's own permissions. */
  lemma {:induction false} OpenAtIs(t: Nodes, fd: Handle, oflags: OpenFlags, flags: DescriptorFlags, reply: OpenReply,
                                    handle: Handle)
    requires fd in t && t[fd].Dir?
    ensures var s := Step(t, OpenAt(fd, oflags, flags, reply), Some(handle));
            var p, changing := t[fd].dirPerms, oflags.create || oflags.truncate || flags.write;
            if !p.read || (changing && !p.mutate) then s.outcome == Denied(NotPermitted) && s.table == t
            else if flags.sync then s.outcome == Denied(Unsupported) && s.table == t
            else if oflags.directory && (oflags.create || oflags.exclusive || oflags.truncate) then
              s.outcome == Denied(Invalid) && s.table == t
            else
              match reply
              case OsError => s.outcome == Denied(Os) && s.table == t
              case IsFile =>
                if oflags.directory then s.outcome == Denied(NotDirectory) && s.table == t
                else
                  && s.outcome == Opened(handle)
                  && s.table == t[handle := File(t[fd].filePerms, flags.read || !flags.write,
                                                 oflags.create || flags.write, t[fd].root)]
              case IsDirectory =>
                s.outcome == Opened(handle) && s.table == t[handle := Dir(p, t[fd].filePerms, t[fd].root)]
  {
  }

  /** A stream over a file is made whatever the file's permissions, and shares its OS handle. */
  lemma {:induction false} ViaStreamIs(t: Nodes, fd: Handle, handle: Handle)
    ensures var s := Step(t, ReadViaStream(fd), Some(handle));
            if fd in t && t[fd].File? then
              s.outcome == Opened(handle) && s.table == t[handle := Stream(t[fd].readable, false, t[fd].root)]
            else s.outcome == Trapped && s.table == t
    ensures var s := Step(t, WriteViaStream(fd), Some(handle));
            if fd in t && t[fd].File? then
              s.outcome == Opened(handle) && s.table == t[handle := Stream(false, t[fd].writable, t[fd].root)]
            else s.outcome == Trapped && s.table == t
  {
  }

  /** A call changes no entry but one that it drops, and adds none but the one that it opens. */
  lemma {:induction false} StepKeepsOthers(t: Nodes, call: Call, handle: Option<Handle>)
    requires handle.Some? ==> handle.value !in t
    ensures var s := Step(t, call, handle);
            && (s.outcome.Opened? ==>
                  Some(s.outcome.h) == handle && s.table.Keys == t.Keys + {s.outcome.h} && s.table - {s.outcome.h} == t)
            && (!s.outcome.Opened? ==>
                  s.table == if s.outcome.Done? && (call.DropDescriptor? || call.DropStream?)
                             then t - Named(call) else t)
    ensures call.DropDescriptor? ==>
              (Step(t, call, handle).outcome.Done? <==> call.fd in t && (t[call.fd].File? || t[call.fd].Dir?))
    ensures call.DropStream? ==>
              (Step(t, call, handle).outcome.Done? <==> call.stream in t && t[call.stream].Stream?)
  {
    hide Child, OptionsFor, OpenDenied;
    var s := Step(t, call, handle);
    if s.outcome.Opened? {
      AddedIsAll(t, s.outcome.h, s.table[s.outcome.h]);
    }
  }

  lemma {:induction false} AddedIsAll(t: Nodes, h: Handle, n: Node)
    requires h !in t
    ensures t[h := n] - {h} == t && t[h := n].Keys == t.Keys + {h}
  {
  }

  lemma {:induction false} StepChangesNothing(t: Nodes, roots: seq<Preopen>, call: Call, handle: Option<Handle>)
    requires Inherits(t, roots) && forall i :: 0 <= i < |roots| ==> !LetsChange(roots[i])
    ensures !Step(t, call, handle).changes
    ensures call.OpenAt? && Step(t, call, handle).outcome.Opened? ==>
              var n := Step(t, call, handle).table[Step(t, call, handle).outcome.h]; n.File? ==> !n.writable
  {
  }

  lemma {:induction false} RunChangesNothing(t: Nodes, roots: seq<Preopen>, run: Run)
    requires Inherits(t, roots) && forall i :: 0 <= i < |roots| ==> !LetsChange(roots[i])
    ensures !RunChanges(t, run)
    decreases |run|
  {
    if run != [] {
      StepChangesNothing(t, roots, run[0].0, run[0].1);
      StepInherits(t, roots, run[0].0, run[0].1);
      RunChangesNothing(Step(t, run[0].0, run[0].1).table, roots, run[1..]);
    }
  }

  ghost predicate HasRoot(t: Nodes, i: nat) { exists h :: h in t && t[h].Dir? && t[h].root == i }

  /** The table at start-up: stdio and one directory per preopen. */
  ghost predicate IsStart(t: Nodes, roots: seq<Preopen>)
  {
    && (forall h :: h in t && !t[h].Stdio? ==>
          && t[h].Dir? && t[h].root < |roots|
          && t[h].dirPerms == roots[t[h].root].dirPerms && t[h].filePerms == roots[t[h].root].filePerms)
    && (forall i :: 0 <= i < |roots| ==> HasRoot(t, i))
  }

  /** How to change something through a preopen that allows it: directly, or through a file. */
  lemma {:induction false} ChangingRun(t: Nodes, roots: seq<Preopen>, i: nat, handle: Handle)
    returns (run: Run)
    requires IsStart(t, roots) && i < |roots| && LetsChange(roots[i]) && handle !in t
    ensures IsRun(t, run) && RunChanges(t, run) && RunTouches(t, run, i, true)
  {
    assert HasRoot(t, i);
    var h :| h in t && t[h].Dir? && t[h].root == i;
    if roots[i].dirPerms.mutate {
      run := [(Change(h), None)];
      assert run[1..] == [] && h in Named(run[0].0) && IsUnder(t, h, i);
    } else {
      var open := OpenAt(h, OpenFlags(false, false, false, false), DescriptorFlags(true, false, false), IsFile);
      run := [(open, Some(handle)), (SetTimes(handle), None)];
      var t' := Step(t, open, Some(handle)).table;
      assert t'[handle].File? && t'[handle].perms.write;
      assert run[1..] == [(SetTimes(handle), None)] && run[1..][1..] == [];
      assert Step(t', SetTimes(handle), None).changes;
      assert handle in Named(run[1..][0].0) && IsUnder(t', handle, i);
      assert RunChanges(t', run[1..]) && RunTouches(t', run[1..], i, true);
    }
  }

  ghost predicate NeverChanges(t: Nodes) { forall run: Run :: IsRun(t, run) ==> !RunChanges(t, run) }

  /** From start-up, no run of filesystem calls whatever changes a file or a directory exactly when
      no preopen may mutate and none is both readable and allows writing its files. */
  lemma {:induction false} NoRunChangesIff(t: Nodes, roots: seq<Preopen>)
    requires IsStart(t, roots) && |t| < MAX_ENTRIES
    ensures NeverChanges(t) <==> (forall i :: 0 <= i < |roots| ==> !LetsChange(roots[i]))
  {
    assert Inherits(t, roots);
    if forall i :: 0 <= i < |roots| ==> !LetsChange(roots[i]) {
      forall run: Run | IsRun(t, run) ensures !RunChanges(t, run) {
        RunChangesNothing(t, roots, run);
      }
    } else {
      var i :| 0 <= i < |roots| && LetsChange(roots[i]);
      var handle := SomeKeyIsFree(t.Keys);
      var run := ChangingRun(t, roots, i, handle);
      assert IsRun(t, run) && RunChanges(t, run);
    }
  }

  /** Runs respect each preopen by itself, whatever the others let them do. */
  lemma {:induction false} RunSparesPreopen(t: Nodes, roots: seq<Preopen>, run: Run, i: nat, changing: bool)
    requires Inherits(t, roots) && i < |roots|
    requires if changing then !LetsChange(roots[i]) else !roots[i].dirPerms.read
    ensures !RunTouches(t, run, i, changing)
    decreases |run|
  {
    hide Step, Inherits, LetsChange;
    if run != [] {
      var s := Step(t, run[0].0, run[0].1);
      StepInherits(t, roots, run[0].0, run[0].1);
      RunSparesPreopen(s.table, roots, run[1..], i, changing);
      if changing && s.changes {
        ChangesOnlyWherePermitted(t, roots, run[0].0, run[0].1);
      } else if !changing && s.observes {
        ReadsOnlyWherePermitted(t, roots, run[0].0, run[0].1);
      }
    }
  }

  ghost predicate NeverTouches(t: Nodes, i: nat, changing: bool)
  {
    forall run: Run :: IsRun(t, run) ==> !RunTouches(t, run, i, changing)
  }

  /** From start-up, no run of calls whatever changes anything under a preopen exactly when that preopen does
      not let it, and none reads anything under it exactly when its directories may not be read. */
  lemma {:induction false} PreopenIsSparedIff(t: Nodes, roots: seq<Preopen>, i: nat)
    requires IsStart(t, roots) && |t| < MAX_ENTRIES && i < |roots|
    ensures NeverTouches(t, i, true) <==> !LetsChange(roots[i])
    ensures NeverTouches(t, i, false) <==> !roots[i].dirPerms.read
  {
    assert Inherits(t, roots) by { StartInherits(t, roots); }
    hide Inherits, IsStart, RunTouches, LetsChange, IsRun;
    forall run: Run, changing | (if changing then !LetsChange(roots[i]) else !roots[i].dirPerms.read)
      ensures !RunTouches(t, run, i, changing)
    {
      RunSparesPreopen(t, roots, run, i, changing);
    }
    if LetsChange(roots[i]) {
      var handle := SomeKeyIsFree(t.Keys);
      var run := ChangingRun(t, roots, i, handle);
      assert IsRun(t, run) && RunTouches(t, run, i, true);
    }
    if roots[i].dirPerms.read {
      var run := ReadingRun(t, roots, i);
      assert IsRun(t, run) && RunTouches(t, run, i, false);
    }
  }

  lemma {:induction false} StartInherits(t: Nodes, roots: seq<Preopen>)
    requires IsStart(t, roots)
    ensures Inherits(t, roots)
  {
  }

  lemma {:induction false} ReadingRun(t: Nodes, roots: seq<Preopen>, i: nat) returns (run: Run)
    requires IsStart(t, roots) && i < |roots| && roots[i].dirPerms.read
    ensures IsRun(t, run) && RunTouches(t, run, i, false)
  {
    assert HasRoot(t, i);
    var h :| h in t && t[h].Dir? && t[h].root == i;
    run := [(Lookup(h), None)];
    assert run[1..] == [] && h in Named(run[0].0) && IsUnder(t, h, i);
  }
}
