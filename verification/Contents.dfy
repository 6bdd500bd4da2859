/** The bytes of one file over a whole run of calls: what a program reads and writes through a descriptor
    is what a file with one cursor would give it. */
module Contents {
  import opened Wrappers
  import opened Bytes
  import opened Wasi
  import opened Resources
  import opened Streams
  import opened Files
  import opened Runs
  import P = AdapterPoll
  import C = Cursor

  /** The file's operations that a call makes on the file at `fd`; `data` are the bytes that a write
      takes. A failed transfer still makes the stream, as an operation on no bytes does, and so does a
      poll. */
  function OpsOf(w: World, req: Request, out: Outcome, w': World, data: seq<byte>, fd: Fd): (ops: seq<C.SmallOp>)
    requires IsFile(w, fd) && |data| < TWO_32
  {
    match req
    case Read(f, lens, reply) =>
      if f == fd && FirstLen(lens).Some? && StreamError(w.open, fd, true).None?
      then [C.Read(if reply.Success? then reply.value.0 else 0)] else []
    case Write(f, lens, _) =>
      if f == fd && FirstLen(lens).Some? && StreamError(w.open, fd, false).None? then [C.Write(data)] else []
    case Seek(f, _, _, _) => if f == fd && out.Done? then [C.Seek(out.n)] else []
    case SetFlags(f, append, _) => if f == fd && out.Done? then [C.SetAppend(append)] else []
    case Poll(_, _, _, _) =>
      if IsFile(w', fd) then
        (if w'.open[fd].input != w.open[fd].input then [C.Read(0)] else [])
        + if w'.open[fd].output != w.open[fd].output then [C.Write([])] else []
      else []
    case _ => []
  }

  /** The host's reply to a transfer fits the file's content: a read returns bytes that are there, and a
      write has taken `data`. */
  predicate Fits(content: seq<byte>, w: World, req: Request, data: seq<byte>, fd: Fd)
    requires IsFile(w, fd)
  {
    match req
    case Read(f, _, reply) =>
      var n := if reply.Success? then reply.value.0 else 0;
      f == fd ==> |C.BytesAt(content, C.ReadPosition(View(w.open[fd], w.others)), n)| == n
    case Write(f, _, reply) => f == fd ==> |data| == if reply.Success? then reply.value else 0
    case _ => true
  }

  function SystemOf(content: seq<byte>, w: World, fd: Fd): C.System
    requires IsFile(w, fd)
  {
    C.System(content, View(w.open[fd], w.others))
  }

  /** `ops` take the file from `w` to `w'`, safely. */
  ghost predicate Takes(content: seq<byte>, w: World, ops: seq<C.SmallOp>, w': World, fd: Fd)
  {
    && IsFile(w, fd) && IsFile(w', fd)
    && C.SafeRun(SystemOf(content, w, fd), ops)
    && C.RunSystem(SystemOf(content, w, fd), ops).0.file == View(w'.open[fd], w'.others)
  }

  lemma {:induction false} NoOps(s: C.System)
    ensures C.SafeRun(s, []) && C.RunSystem(s, []) == (s, [])
  {
  }

  lemma {:induction false} OneOp(s: C.System, op: C.SmallOp)
    ensures C.SafeRun(s, [op]) <==> C.Safe(s.file, C.MoveOf(s, op))
    ensures C.RunSystem(s, [op]).0.file == C.Step(s.file, C.MoveOf(s, op))
  {
    assert [op][1..] == [];
  }

  lemma {:induction false} FirstOp(s: C.System, ops: seq<C.SmallOp>)
    requires ops != []
    ensures var (next, got) := C.SystemStep(s, ops[0]);
            && C.RunSystem(s, ops) == (C.RunSystem(next, ops[1..]).0, [got] + C.RunSystem(next, ops[1..]).1)
            && (C.SafeRun(s, ops) <==> C.Safe(s.file, C.MoveOf(s, ops[0])) && C.SafeRun(next, ops[1..]))
  {
  }

  lemma {:induction false} OpsCompose(s: C.System, a: seq<C.SmallOp>, b: seq<C.SmallOp>)
    ensures var (s', outs) := C.RunSystem(s, a);
            && (C.SafeRun(s, a + b) <==> C.SafeRun(s, a) && C.SafeRun(s', b))
            && C.RunSystem(s, a + b) == (C.RunSystem(s', b).0, outs + C.RunSystem(s', b).1)
    decreases |a|
  {
    hide C.SystemStep, C.Safe, C.MoveOf, C.RunSystem, C.SafeRun;
    if a == [] {
      assert a + b == b;
      NoOps(s);
      assert [] + C.RunSystem(s, b).1 == C.RunSystem(s, b).1;
    } else {
      var (next, got) := C.SystemStep(s, a[0]);
      OpsCompose(next, a[1..], b);
      assert (a + b)[0] == a[0] && (a + b)[1..] == a[1..] + b;
      FirstOp(s, a);
      FirstOp(s, a + b);
      var (s', outs) := C.RunSystem(next, a[1..]);
      assert [got] + (outs + C.RunSystem(s', b).1) == ([got] + outs) + C.RunSystem(s', b).1;
    }
  }

  /** The streams that a poll makes stand where reading or writing nothing would leave them. */
  lemma {:induction false} GrownMoves(w: World, w': World, fd: Fd)
    requires OwnedOnce(w) && IsFile(w, fd) && P.Grown(w.open, w.others, w'.open, w'.others)
    ensures IsFile(w', fd)
    ensures var s := View(w.open[fd], w.others);
            var s1 := if w'.open[fd].input != w.open[fd].input then C.Step(s, C.Reads(0)) else s;
            var s2 := if w'.open[fd].output != w.open[fd].output then C.Step(s1, C.Writes(0)) else s1;
            s2 == View(w'.open[fd], w'.others)
  {
    hide Owned;
    SlotIsLive(w.open, w.others, fd);
  }

  lemma {:induction false} OfNothing(s: C.System)
    ensures C.MoveOf(s, C.Read(0)) == C.Reads(0) && C.Safe(s.file, C.Reads(0))
    ensures C.MoveOf(s, C.Write([])) == C.Writes(0) && C.Safe(s.file, C.Writes(0))
  {
  }

  /** A poll that makes streams makes them as reading or writing nothing does. */
  lemma {:induction false} PollTakes(content: seq<byte>, w: World, req: Request, out: Outcome, w': World,
                                     data: seq<byte>, fd: Fd)
    requires OwnedOnce(w) && IsFile(w, fd) && req.Poll? && |data| < TWO_32
    requires P.Grown(w.open, w.others, w'.open, w'.others)
    ensures Takes(content, w, OpsOf(w, req, out, w', data, fd), w', fd)
  {
    hide OwnedOnce, View, P.Grown, C.Step, C.Safe, C.MoveOf, C.RunSystem, C.SafeRun;
    GrownMoves(w, w', fd);
    var s := SystemOf(content, w, fd);
    var a := if w'.open[fd].input != w.open[fd].input then [C.Read(0)] else [];
    var b := if w'.open[fd].output != w.open[fd].output then [C.Write([])] else [];
    OpsCompose(s, a, b);
    NoOps(s);
    OneOp(s, C.Read(0));
    OfNothing(s);
    var s' := C.RunSystem(s, a).0;
    NoOps(s');
    OneOp(s', C.Write([]));
    OfNothing(s');
  }

  /** A read or write makes one operation on its own file, and none on another. */
  lemma {:induction false} TransferTakes(content: seq<byte>, w: World, f: Fd, forInput: bool, first: Option<u32>,
                                         moved: Result<u32, ()>, result: Result<u32, Failure>, out: Outcome, w': World,
                                         fd: Fd, op: C.SmallOp)
    requires OwnedOnce(w) && OwnedOnce(w') && IsFile(w, fd) && out != Refused(Trap)
    requires MayTransfer(w, f, forInput, first, moved, result, out, w')
    requires f == fd && first.Some? && StreamError(w.open, f, forInput).None? ==>
               var m := MoveFor(forInput, if moved.Success? then moved.value else 0);
               var s := SystemOf(content, w, fd);
               C.MoveOf(s, op) == m && C.Safe(s.file, m)
    ensures Takes(content, w, if f == fd && first.Some? && StreamError(w.open, f, forInput).None? then [op] else [],
            w', fd)
  {
    hide OwnedOnce, View, StreamError, OnlySlotChanges, C.Step, C.Safe, C.MoveOf, C.RunSystem, C.SafeRun;
    var s := SystemOf(content, w, fd);
    NoOps(s);
    OneOp(s, op);
    if w' != w || (f == fd && first.Some? && StreamError(w.open, f, forInput).None?) {
      if f == fd {
        SlotStays(w, w', fd);
      } else {
        OthersMoveKeepsView(w, w', f, fd, MoveFor(forInput, if moved.Success? then moved.value else 0));
      }
    }
  }

  /** Every call of a run makes its operations on the file, whichever descriptor it is for. */
  lemma {:induction false} CallTakes(content: seq<byte>, w: World, req: Request, out: Outcome, w': World,
                                     data: seq<byte>, fd: Fd)
    requires OwnedOnce(w) && OwnedOnce(w') && May(w, req, out, w') && out != Refused(Trap)
    requires FileInSync(w, fd) && Gentle(w, req, fd) && |data| < TWO_32 && Fits(content, w, req, data, fd)
    ensures Takes(content, w, OpsOf(w, req, out, w', data, fd), w', fd)
  {
    hide MayTransfer, StreamError, SeekTarget, View, C.InSync, C.Safe, C.RunSystem, C.SafeRun, HandlesOf,
      MayOpen, MayClose, MayRenumber, MayList, P.Grown, P.OnlyGains, P.NoStrays, P.Events, P.Polled, P.FirstError;
    var s := SystemOf(content, w, fd);
    NoOps(s);
    match req {
      case Read(f, lens, reply) =>
        var n := if reply.Success? then reply.value.0 else 0;
        TransferTakes(content, w, f, true, FirstLen(lens),
                      if reply.Success? then Success(reply.value.0) else Failure(()),
                      ReadResult(FirstLen(lens), reply), out, w', fd, C.Read(n));
      case Write(f, lens, reply) =>
        TransferTakes(content, w, f, false, FirstLen(lens), reply,
                      if reply.Success? then Success(reply.value) else Failure(Error(IO)), out, w', fd,
                      if f == fd then C.Write(data) else C.Read(0));
      case Poll(_, _, _, _) => PollTakes(content, w, req, out, w', data, fd);
      case Open(_, _, _, _, _) | Close(_) | Renumber(_, _) | List(_, _, _, _, _) =>
        TableCallKeepsView(w, req, out, w', fd);
      case Seek(f, _, _, _) =>
        if f != fd {
          SameView(w, w', fd);
        } else if out.Done? {
          OneOp(s, C.Seek(out.n));
          SeekIsMove(w.open[fd], w.others, out.n);
          SafeSeek(s.file, out.n);
        }
      case SetFlags(f, append, nonblock) =>
        if f != fd {
          SameView(w, w', fd);
        } else if out.Done? {
          OneOp(s, C.SetAppend(append));
          FlagsAreMove(w.open[fd], w.others, append, nonblock);
        }
    }
  }

  lemma {:induction false} SafeSeek(s: C.FileState, p: u64)
    ensures C.Safe(s, C.Seeks(p))
  {
  }

  lemma {:induction false} SeekIsMove(d: Descriptor, live: map<Handle, Resource>, p: u64)
    requires d.Streams? && d.stype.File?
    ensures View(Streams(None, None, d.stype.(position := p)), live) == C.Step(View(d, live), C.Seeks(p))
  {
  }

  /** What a call does to the bytes: a write that reaches the host puts its bytes at the recorded position, or
      behind the last byte of a file that appends, a read returns those at the recorded position, and
      nothing else touches them. */
  lemma {:induction false} CallDoesToBytes(content: seq<byte>, w: World, req: Request, out: Outcome, w': World,
                                           data: seq<byte>, fd: Fd)
    requires FileInSync(w, fd) && |data| < TWO_32
    ensures var d := w.open[fd];
            var (s, got) := C.RunSystem(SystemOf(content, w, fd), OpsOf(w, req, out, w', data, fd));
            && (req.Write? && req.fd == fd && FirstLen(req.lens).Some? && StreamError(w.open, fd, false).None? ==>
                  s.content == if d.stype.append then content + data
                               else C.Overwrite(content, d.stype.position, data))
            && (!(req.Write? && req.fd == fd && FirstLen(req.lens).Some? && StreamError(w.open, fd, false).None?) ==>
                  s.content == content)
            && (req.Read? && req.fd == fd && FirstLen(req.lens).Some? && StreamError(w.open, fd, true).None? ==>
                  got == [C.BytesAt(content, d.stype.position,
                                    if req.readReply.Success? then req.readReply.value.0 else 0)])
  {
    hide StreamError, FirstLen, C.Overwrite, C.BytesAt, C.Step;
    var s, ops := SystemOf(content, w, fd), OpsOf(w, req, out, w', data, fd);
    NoOps(s);
    if ops != [] {
      FirstOp(s, ops);
      var (next, got) := C.SystemStep(s, ops[0]);
      NoOps(next);
      OverwriteNothing(s);
      OverwriteNothing(next);
      if |ops| == 2 {
        FirstOp(next, ops[1..]);
        NoOps(C.SystemStep(next, ops[1]).0);
      }
    }
  }

  lemma {:induction false} OverwriteNothing(s: C.System)
    ensures C.SystemStep(s, C.Write([])).0.content == s.content
  {
  }

  // ----- whole runs -----

  /** A run, and the bytes its writes to the file at `fd` take. */
  datatype FileRun = FileRun(worlds: seq<World>, reqs: seq<Request>, outs: seq<Outcome>, data: seq<seq<byte>>, fd: Fd)

  /** A run without a trap that is gentle to the file: it is there in every world, and what the run does to
      it is safe. */
  ghost predicate IsFileRun(r: FileRun)
  {
    && |r.worlds| == |r.outs| + 1 && |r.outs| <= |r.reqs| && |r.data| == |r.outs|
    && (forall i :: 0 <= i < |r.worlds| ==> OwnedOnce(r.worlds[i]) && FileInSync(r.worlds[i], r.fd))
    && (forall i :: 0 <= i < |r.outs| ==> IsStep(r, i))
  }

  ghost predicate IsStep(r: FileRun, i: nat)
    requires i < |r.outs| <= |r.reqs| && i + 1 < |r.worlds|
    requires FileInSync(r.worlds[i], r.fd)
    requires i < |r.data|
  {
    && May(r.worlds[i], r.reqs[i], r.outs[i], r.worlds[i + 1]) && r.outs[i] != Refused(Trap)
    && Gentle(r.worlds[i], r.reqs[i], r.fd) && |r.data[i]| < TWO_32
  }

  /** The file's operations in the first `i` calls. */
  ghost function Ops(r: FileRun, i: nat): seq<C.SmallOp>
    requires IsFileRun(r) && i <= |r.outs|
  {
    if i == 0 then []
    else
      assert IsStep(r, i - 1);
      Ops(r, i - 1) + OpsOf(r.worlds[i - 1], r.reqs[i - 1], r.outs[i - 1], r.worlds[i], r.data[i - 1], r.fd)
  }

  ghost function Start(r: FileRun, content: seq<byte>): C.System
    requires IsFileRun(r)
  {
    SystemOf(content, r.worlds[0], r.fd)
  }

  /** The file's content after `i` calls. */
  ghost function ContentAt(r: FileRun, content: seq<byte>, i: nat): seq<byte>
    requires IsFileRun(r) && i <= |r.outs|
  {
    C.RunSystem(Start(r, content), Ops(r, i)).0.content
  }

  /** Every reply fits what the file holds when it is given. */
  ghost predicate AllFit(r: FileRun, content: seq<byte>)
    requires IsFileRun(r)
  {
    forall i :: 0 <= i < |r.outs| ==> Fits(ContentAt(r, content, i), r.worlds[i], r.reqs[i], r.data[i], r.fd)
  }

  lemma {:induction false} RunTakes(r: FileRun, content: seq<byte>, i: nat)
    requires IsFileRun(r) && AllFit(r, content) && i <= |r.outs|
    ensures Takes(content, r.worlds[0], Ops(r, i), r.worlds[i], r.fd)
  {
    hide C.RunSystem, C.SafeRun, OpsOf, Fits, May, OwnedOnce, View, C.InSync, Gentle;
    if i == 0 {
      NoOps(Start(r, content));
    } else {
      RunTakes(r, content, i - 1);
      assert IsStep(r, i - 1);
      var here := ContentAt(r, content, i - 1);
      var w, w' := r.worlds[i - 1], r.worlds[i];
      CallTakes(here, w, r.reqs[i - 1], r.outs[i - 1], w', r.data[i - 1], r.fd);
      OpsCompose(Start(r, content), Ops(r, i - 1), OpsOf(w, r.reqs[i - 1], r.outs[i - 1], w', r.data[i - 1], r.fd));
    }
  }

  /** Over a whole run on any descriptors, with replies that fit the file's content, the bytes read from
      the file are those that a file with one cursor gives, its content is that file's, and the recorded
      position, which `fd_tell` reports, is the cursor. */
  lemma {:induction false} RunIsOneCursor(r: FileRun, content: seq<byte>, i: nat)
    requires IsFileRun(r) && AllFit(r, content) && i <= |r.outs|
    ensures var d := r.worlds[i].open[r.fd];
            C.RunSimple(C.Abstract(Start(r, content)), Ops(r, i))
            == (C.Simple(ContentAt(r, content, i), d.stype.position, d.stype.append),
                C.RunSystem(Start(r, content), Ops(r, i)).1)
  {
    hide C.RunSystem, C.RunSimple, C.SafeRun, Ops, May, OwnedOnce;
    RunTakes(r, content, i);
    C.RunRefines(Start(r, content), Ops(r, i));
  }

  /** So over a run the content changes with the writes to the file, each at the position recorded when it is
      made, and with nothing else. */
  lemma {:induction false} RunWritesInPlace(r: FileRun, content: seq<byte>, i: nat)
    requires IsFileRun(r) && AllFit(r, content) && i < |r.outs|
    ensures var w, req := r.worlds[i], r.reqs[i];
            var d, before := w.open[r.fd], ContentAt(r, content, i);
            ContentAt(r, content, i + 1)
            == if && req.Write? && req.fd == r.fd && FirstLen(req.lens).Some?
                  && StreamError(w.open, r.fd, false).None? then
                 if d.stype.append then before + r.data[i] else C.Overwrite(before, d.stype.position, r.data[i])
               else before
  {
    hide C.RunSystem, C.SafeRun, OpsOf, Fits, May, OwnedOnce, StreamError, FirstLen, C.Overwrite, View, Gentle;
    assert IsStep(r, i);
    var w, w' := r.worlds[i], r.worlds[i + 1];
    var ops := OpsOf(w, r.reqs[i], r.outs[i], w', r.data[i], r.fd);
    RunTakes(r, content, i);
    OpsCompose(Start(r, content), Ops(r, i), ops);
    CallDoesToBytes(ContentAt(r, content, i), w, r.reqs[i], r.outs[i], w', r.data[i], r.fd);
  }
}
