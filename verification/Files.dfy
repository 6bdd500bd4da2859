/** Reading, writing and seeking on a descriptor. */
module Files {
  import opened Wrappers
  import opened Bytes
  import opened Wasi
  import opened Resources
  import opened HandleTable
  import opened State
  import opened Streams
  import opened Cursor
  import D = Descriptors

  /** The positions of the file in slot `d`. */
  function View(d: Descriptor, live: map<Handle, Resource>): (s: FileState)
    requires d.Streams? && d.stype.File?
  {
    FileState(d.stype.position,
              if d.input.Some? && d.input.value in live && live[d.input.value].InputStream?
              then Some(live[d.input.value].position) else None,
              if d.output.Some? && d.output.value in live && live[d.output.value].OutputStream?
              then Some(At(live[d.output.value].position))
              else if d.output.Some? && d.output.value in live && live[d.output.value].AppendStream?
              then Some(Output.End)
              else None,
              d.stype.append)
  }

  /** Everything that does not belong to the slot `fd` is as it was. */
  ghost predicate OnlySlotChanges(open: map<Fd, Descriptor>, live: map<Handle, Resource>,
                                  open': map<Fd, Descriptor>, live': map<Handle, Resource>, fd: Fd)
  {
    && open'.Keys == open.Keys
    && fd in open
    && open - {fd} == open' - {fd}
    && live - HandlesOf(open[fd]) == live' - HandlesOf(open'[fd])
  }

  /** The length of the first buffer that is not empty. */
  function FirstLen(lens: seq<u32>): (len: Option<u32>)
  {
    if lens == [] then None else if lens[0] != 0 then Some(lens[0]) else FirstLen(lens[1..])
  }

  /** It is the length of a buffer that is not empty behind empty ones only, if there is one. */
  lemma {:induction false} FirstLenIs(lens: seq<u32>, i: nat)
    requires i <= |lens| && (forall j :: 0 <= j < i ==> lens[j] == 0) && (i < |lens| ==> lens[i] != 0)
    ensures FirstLen(lens) == if i < |lens| then Some(lens[i]) else None
  {
    if i > 0 {
      FirstLenIs(lens[1..], i - 1);
    }
  }

  /** Skips the empty buffers in front. */
  method FirstNonEmpty(lens: seq<u32>) returns (i: nat)
    ensures i <= |lens| && (forall j :: 0 <= j < i ==> lens[j] == 0) && (i < |lens| ==> lens[i] != 0)
    ensures FirstLen(lens) == if i < |lens| then Some(lens[i]) else None
  {
    i := 0;
    while i < |lens| && lens[i] == 0
      invariant i <= |lens| && forall j :: 0 <= j < i ==> lens[j] == 0
    {
      i := i + 1;
    }
    FirstLenIs(lens, i);
  }

  /** The i64 with the same bits as `v`. */
  function Signed(v: u64): i64 { if v < TWO_63 then v else v - TWO_64 }

  datatype Whence = Set | Cur | End | Unknown

  /** `checked_add` on i64, refused below zero. */
  function FromBase(base: i64, offset: i64): (r: Result<u64, Errno>)
  {
    var sum := base + offset;
    if sum < -0x8000_0000_0000_0000 || sum >= TWO_63 || sum < 0 then Failure(INVAL) else Success(sum)
  }

  /** Where a seek lands. */
  function SeekTarget(position: u64, size: u64, offset: i64, whence: Whence): (r: Result<u64, Errno>)
  {
    match whence
    case Set => if offset >= 0 then Success(offset) else Failure(INVAL)
    case Cur => FromBase(Signed(position), offset)
    case End => FromBase(Signed(size), offset)
    case Unknown => Failure(INVAL)
  }

  /** A seek lands exactly on base plus offset when that is in [0, 2^63), and fails otherwise; a position or
      a size from 2^63 on counts as negative. */
  lemma {:induction false} SeekLandsIff(position: u64, size: u64, offset: i64, whence: Whence)
    ensures var from: int := match whence case Cur => position case End => size case _ => 0;
            var base := if from < TWO_63 then from else from - TWO_64;
            SeekTarget(position, size, offset, whence)
            == if !whence.Unknown? && 0 <= base + offset < TWO_63 then Success(base + offset) else Failure(INVAL)
  {
  }

  /** Moves a file's position and forgets its streams; a failed seek changes nothing. The forgotten
      streams stay live in the host, owned by no slot. */
  method FdSeek(st: State, fd: Fd, offset: i64, whence: Whence, sizeReply: Result<u64, Errno>)
    returns (r: Result<u64, Errno>)
    requires st.Valid()
    modifies st.descriptors.table
    ensures st.Valid()
    ensures r == var open := old(st.Open());
                 if fd !in open then Failure(BADF)
                 else if !open[fd].stype.File? then Failure(SPIPE)
                 else if open[fd].stype.kind == Directory then Failure(BADF)
                 else if whence.End? && sizeReply.Failure? then Failure(sizeReply.error)
                 else SeekTarget(open[fd].stype.position, if sizeReply.Success? then sizeReply.value else 0,
                                 offset, whence)
    ensures r.Failure? ==> st.Open() == old(st.Open())
    ensures r.Success? ==>
              var d := old(st.Open())[fd];
              && st.Open() == old(st.Open())[fd := Streams(None, None, d.stype.(position := r.value))]
              && View(st.Open()[fd], st.host.entries) == Step(View(d, st.host.entries), Seeks(r.value))
  {
    hide StandsAfter, StandingOf, Owned, DirectoryAt, D.WellFormed, D.OpenSlots;
    if fd !in st.Open() {
      return Failure(BADF);
    }
    var d := st.Open()[fd];
    if !d.stype.File? {
      return Failure(SPIPE);
    }
    if d.stype.kind == Directory {
      return Failure(BADF);
    }
    if whence.End? && sizeReply.Failure? {
      return Failure(sizeReply.error);
    }
    var target := SeekTarget(d.stype.position, if sizeReply.Success? then sizeReply.value else 0, offset, whence);
    if target.Failure? {
      return Failure(target.error);
    }
    var moved := Streams(None, None, d.stype.(position := target.value));
    OwnedWithFewer(st.Open(), st.host.entries, fd, moved);
    StreamsAreNotDirectories(st.Open(), st.host.entries, fd, moved, st.host.entries);
    st.descriptors.Update(fd, moved);
    return Success(target.value);
  }

  /** A slot that gives up handles, or changes none, leaves every other handle owned once. */
  lemma {:induction false} OwnedWithFewer(open: map<Fd, Descriptor>, live: map<Handle, Resource>, fd: Fd, d: Descriptor)
    requires Owned(open, live) && fd in open
    requires HandlesOf(d) <= HandlesOf(open[fd]) && (LiveIn(open[fd], live) ==> LiveIn(d, live))
    ensures Owned(open[fd := d], live)
  {
    hide LiveIn, HandlesOf;
    var after := open[fd := d];
    forall j, k | j in after && k in after && j != k ensures HandlesOf(after[j]) !! HandlesOf(after[k]) {
      assert HandlesOf(open[j]) !! HandlesOf(open[k]);
    }
  }

  /** The position `p` is where the slot's streams stand in the host. */
  ghost predicate StandAt(d: Descriptor, live: map<Handle, Resource>, p: u64)
    requires d.Streams? && d.stype.File?
  {
    && (d.input.Some? ==> d.input.value in live && live[d.input.value] == InputStream(p))
    && (d.output.Some? ==>
          d.output.value in live && live[d.output.value] == if d.stype.append then AppendStream else OutputStream(p))
  }

  /** For live streams being in step means to stand at the recorded position. */
  lemma {:induction false} InStepIff(d: Descriptor, live: map<Handle, Resource>)
    requires d.Streams? && d.stype.File? && LiveIn(d, live)
    ensures InSync(View(d, live)) <==> StandAt(d, live, d.stype.position)
  {
  }

  /** The recorded position, which is where the file's streams stand if they are in step. */
  method FdTell(st: State, fd: Fd) returns (r: Result<u64, Errno>)
    requires st.Valid()
    ensures r == var open := st.Open();
                 if fd !in open then Failure(BADF)
                 else if !open[fd].stype.File? then Failure(SPIPE)
                 else if open[fd].stype.kind == Directory then Failure(BADF)
                 else Success(open[fd].stype.position)
    ensures r.Success? ==>
              (InSync(View(st.Open()[fd], st.host.entries)) <==> StandAt(st.Open()[fd], st.host.entries, r.value))
  {
    hide StandsAfter, StandingOf, Owned, DirectoryAt, View, InSync, StandAt, D.WellFormed, D.OpenSlots;
    if fd !in st.Open() {
      return Failure(BADF);
    }
    match st.Open()[fd].stype {
      case Stdio => return Failure(SPIPE);
      case File(_, kind, position, _, _) =>
        SlotIsLive(st.Open(), st.host.entries, fd);
        InStepIff(st.Open()[fd], st.host.entries);
        return if kind == Directory then Failure(BADF) else Success(position);
    }
  }

  lemma {:induction false} FlagsKeepHandles(d: Descriptor, flagged: Descriptor, live: map<Handle, Resource>)
    requires d.Streams? && d.stype.File? && flagged.Streams? && flagged.stype.File?
    requires flagged == d.(stype := d.stype.(append := flagged.stype.append, blocking := flagged.stype.blocking))
    ensures View(flagged, live) == Step(View(d, live), SetsAppend(flagged.stype.append))
    ensures HandlesOf(flagged) == HandlesOf(d) && (LiveIn(d, live) ==> LiveIn(flagged, live))
  {
  }

  /** Sets the append and non-blocking flags of an open file that is not a directory. */
  method FdSetFlags(st: State, fd: Fd, append: bool, nonblock: bool) returns (r: Result<(), Errno>)
    requires st.Valid()
    modifies st.descriptors.table
    ensures st.Valid()
    ensures r.Success? <==>
              && fd in old(st.Open())
              && old(st.Open())[fd].stype.File?
              && old(st.Open())[fd].stype.kind != Directory
    ensures r.Failure? ==> r.error == BADF && st.Open() == old(st.Open())
    ensures r.Success? ==>
              var d := old(st.Open())[fd];
              && st.Open() == old(st.Open())[fd := d.(stype := d.stype.(append := append, blocking := !nonblock))]
              && View(st.Open()[fd], st.host.entries) == Step(View(d, st.host.entries), SetsAppend(append))
  {
    hide StandsAfter, StandingOf, Owned, DirectoryAt, D.WellFormed, D.OpenSlots;
    if fd !in st.Open() || !st.Open()[fd].stype.File? || st.Open()[fd].stype.kind == Directory {
      return Failure(BADF);
    }
    var d := st.Open()[fd];
    var flagged := d.(stype := d.stype.(append := append, blocking := !nonblock));
    FlagsKeepHandles(d, flagged, st.host.entries);
    hide HandlesOf, LiveIn, View, Step;
    OwnedWithFewer(st.Open(), st.host.entries, fd, flagged);
    StreamsAreNotDirectories(st.Open(), st.host.entries, fd, flagged, st.host.entries);
    st.descriptors.Update(fd, flagged);
    return Success(());
  }

  // ----- reading and writing -----

  /** `after` is `before` with the stream `h` moved to another position. */
  ghost predicate OnlyMoves(before: map<Handle, Resource>, after: map<Handle, Resource>, h: Handle)
  {
    && h in before
    && (before[h].InputStream? || before[h].OutputStream?)
    && exists p: u64 :: after == before[h := before[h].(position := p)]
  }

  lemma {:induction false} OwnedAcrossMove(open: map<Fd, Descriptor>, before: map<Handle, Resource>,
                                           after: map<Handle, Resource>, h: Handle)
    requires Owned(open, before) && OnlyMoves(before, after, h)
    ensures Owned(open, after)
    ensures forall k :: DirectoryAt(open, after, k) == DirectoryAt(open, before, k)
  {
    forall k | k in open ensures LiveIn(open[k], after) {
      assert LiveIn(open[k], before);
    }
  }

  /** The stream handle `h` moves on by `n` bytes, and the slot's recorded position too unless the
      file appends. */
  method Move(st: State, fd: Fd, forInput: bool, h: Handle, n: u32)
    requires st.Valid() && fd in st.Open() && StreamOf(st.Open()[fd], forInput) == Some(h)
    modifies st.host, st.descriptors.table
    ensures st.Valid()
    ensures st.Open() == old(st.Open())[fd := Moved(old(st.Open())[fd], forInput, n)]
    ensures h in old(st.host.entries)
    ensures st.host.entries == old(st.host.entries)[h := MovedStream(old(st.host.entries)[h], n)]
  {
    hide StandsAfter, Owned, DirectoryAt, D.WellFormed, D.OpenSlots;
    var d := st.Open()[fd];
    ghost var open, live := st.Open(), st.host.entries;
    SlotIsLive(open, live, fd);
    st.host.Update(h, MovedStream(st.host.entries[h], n));
    if live[h].AppendStream? {
      assert st.host.entries == live;
    } else {
      assert OnlyMoves(live, st.host.entries, h) by {
        assert st.host.entries == live[h := live[h].(position := MovedStream(live[h], n).position)];
      }
      OwnedAcrossMove(open, live, st.host.entries, h);
    }
    var moved := Moved(d, forInput, n);
    SlotIsLive(open, st.host.entries, fd);
    OwnedWithFewer(open, st.host.entries, fd, moved);
    StreamsAreNotDirectories(open, st.host.entries, fd, moved, st.host.entries);
    st.descriptors.Update(fd, moved);
  }

  /** What moving bytes does to the recorded position: an appending write leaves it alone. */
  function Moved(d: Descriptor, forInput: bool, n: u32): (d': Descriptor)
    requires d.Streams?
    ensures d'.Streams?
  {
    if d.stype.File? && (forInput || !d.stype.append) then
      d.(stype := d.stype.(position := Advance(d.stype.position, n)))
    else d
  }

  function MovedStream(r: Resource, n: u32): Resource
  {
    match r
    case InputStream(p) => InputStream(Advance(p, n))
    case OutputStream(p) => OutputStream(Advance(p, n))
    case _ => r
  }

  function MoveFor(forInput: bool, n: u32): Cursor.Move { if forInput then Reads(n) else Writes(n) }

  /** The slot `fd` makes the move `m`, if it is a file, and nothing else changes. */
  ghost predicate SlotMakes(open: map<Fd, Descriptor>, live: map<Handle, Resource>,
                            open': map<Fd, Descriptor>, live': map<Handle, Resource>, fd: Fd, m: Cursor.Move)
  {
    && OnlySlotChanges(open, live, open', live', fd)
    && open[fd].Streams? && open'[fd].Streams?
    && (open[fd].stype.File? ==>
          open'[fd].stype.File? && View(open'[fd], live') == Step(View(open[fd], live), m))
  }

  /** The slot's stream `h` is the one it had, or a fresh one that it has now. */
  ghost predicate StreamMade(open: map<Fd, Descriptor>, live: map<Handle, Resource>, open1: map<Fd, Descriptor>,
                             live1: map<Handle, Resource>, fd: Fd, forInput: bool, h: Handle)
    requires fd in open && open[fd].Streams? && StreamError(open, fd, forInput) == None
  {
    if StreamOf(open[fd], forInput).Some? then
      open1 == open && live1 == live && StreamOf(open[fd], forInput) == Some(h)
    else
      && h !in live
      && open1 == open[fd := WithStream(open[fd], forInput, h)]
      && live1 == live[h := FreshStream(open[fd].stype, forInput)]
  }

  lemma {:induction false} TransferSparesOthers(open: map<Fd, Descriptor>, live: map<Handle, Resource>,
                                                open1: map<Fd, Descriptor>, live1: map<Handle, Resource>,
                                                fd: Fd, forInput: bool, h: Handle, n: u32)
    requires Owned(open, live) && Owned(open1, live1) && fd in open && open[fd].Streams?
    requires StreamError(open, fd, forInput) == None
    requires StreamMade(open, live, open1, live1, fd, forInput, h)
    ensures h in live1
    ensures OnlySlotChanges(open, live, open1[fd := Moved(open1[fd], forInput, n)],
            live1[h := MovedStream(live1[h], n)], fd)
  {
    hide LiveIn, Owned;
    assert h in live1 by { SlotIsLive(open1, live1, fd); StreamIsLive(open1[fd], live1, forInput, h); }
    var open2, live2 := open1[fd := Moved(open1[fd], forInput, n)], live1[h := MovedStream(live1[h], n)];
    assert HandlesOf(open2[fd]) == HandlesOf(open[fd]) + {h};
    hide HandlesOf, FreshStream, MovedStream;
    assert open - {fd} == open2 - {fd};
    assert live2 == live[h := live2[h]];
    MinusAfterSet(live, h, live2[h], HandlesOf(open[fd]));
  }

  lemma {:induction false} MinusAfterSet<K, V>(m: map<K, V>, k: K, v: V, s: set<K>)
    requires k in s || k !in m
    ensures m - s == m[k := v] - (s + {k})
  {
  }

  lemma {:induction false} StreamIsLive(d: Descriptor, live: map<Handle, Resource>, forInput: bool, h: Handle)
    requires d.Streams? && LiveIn(d, live) && StreamOf(d, forInput) == Some(h)
    ensures h in live && if forInput then live[h].InputStream? else IsOutput(live[h])
  {
  }

  /** Reading or writing `n` bytes is: make the stream if there is none, and move on by `n`. */
  lemma {:induction false} TransferMakes(open: map<Fd, Descriptor>, live: map<Handle, Resource>,
                                         open1: map<Fd, Descriptor>, live1: map<Handle, Resource>,
                                         fd: Fd, forInput: bool, h: Handle, n: u32)
    requires Owned(open, live) && Owned(open1, live1) && fd in open && open[fd].Streams?
    requires StreamError(open, fd, forInput) == None
    requires StreamMade(open, live, open1, live1, fd, forInput, h)
    ensures h in live1
    ensures SlotMakes(open, live, open1[fd := Moved(open1[fd], forInput, n)], live1[h := MovedStream(live1[h], n)],
                      fd, MoveFor(forInput, n))
  {
    TransferSparesOthers(open, live, open1, live1, fd, forInput, h, n);
    SlotIsLive(open, live, fd);
    SlotIsLive(open1, live1, fd);
    hide Owned, OnlySlotChanges, HandlesOf, Advance;
    StreamIsLive(open1[fd], live1, forInput, h);
  }

  lemma {:induction false} MovingNothing(open: map<Fd, Descriptor>, live: map<Handle, Resource>, fd: Fd,
                                         forInput: bool, h: Handle)
    requires fd in open && open[fd].Streams? && h in live
    ensures open[fd := Moved(open[fd], forInput, 0)] == open
    ensures live[h := MovedStream(live[h], 0)] == live
  {
  }

  /** One transfer on the slot's stream: the host's error becomes an I/O error, and otherwise the
      stream and the recorded position move on together. */
  method Transfer(st: State, fd: Fd, forInput: bool, reply: Result<u32, ()>) returns (r: Result<u32, Failure>)
    requires st.Valid()
    modifies st.host, st.descriptors.table
    ensures st.Valid()
    ensures match StreamError(old(st.Open()), fd, forInput)
            case Some(e) => r == Failure(Error(e))
            case None =>
              || (r == Failure(Trap) && |old(st.host.entries)| >= MAX_ENTRIES)
              || (&& r == (if reply.Failure? then Failure(Error(IO)) else Success(reply.value))
                  && SlotMakes(old(st.Open()), old(st.host.entries), st.Open(), st.host.entries, fd,
                               MoveFor(forInput, if reply.Success? then reply.value else 0)))
    ensures StreamError(old(st.Open()), fd, forInput).Some? || r == Failure(Trap) ==>
              st.Open() == old(st.Open()) && st.host.entries == old(st.host.entries)
  {
    hide StandsAfter, StandingOf, Owned, DirectoryAt, SlotMakes, FreshStream, WithStream, Moved, MovedStream,
      D.WellFormed, D.OpenSlots;
    ghost var open, live := st.Open(), st.host.entries;
    var stream := GetStream(st, fd, forInput);
    if stream.Failure? {
      return Failure(stream.error);
    }
    TransferMakes(open, live, st.Open(), st.host.entries, fd, forInput, stream.value,
      if reply.Success? then reply.value else 0);
    if reply.Failure? {
      MovingNothing(st.Open(), st.host.entries, fd, forInput, stream.value);
      return Failure(Error(IO));
    }
    Move(st, fd, forInput, stream.value, reply.value);
    return Success(reply.value);
  }

  /** Reads into the first buffer that is not empty. The host's reply is how many bytes it returned
      and whether that was the end; no bytes and no end is an interruption. More bytes than fit trap,
      as does a full host table. */
  method FdRead(st: State, fd: Fd, lens: seq<u32>, reply: Result<(u32, bool), ()>) returns (r: Result<u32, Failure>)
    requires st.Valid()
    modifies st.host, st.descriptors.table
    ensures st.Valid()
    ensures FirstLen(lens) == None ==>
              r == Success(0) && st.Open() == old(st.Open()) && st.host.entries == old(st.host.entries)
    ensures FirstLen(lens).Some? ==>
              match StreamError(old(st.Open()), fd, true)
              case Some(e) =>
                r == Failure(Error(e)) && st.Open() == old(st.Open()) && st.host.entries == old(st.host.entries)
              case None =>
                || (&& r == Failure(Trap) && |old(st.host.entries)| >= MAX_ENTRIES
                    && st.Open() == old(st.Open()) && st.host.entries == old(st.host.entries))
                || (&& r == (if reply.Failure? then Failure(Error(IO))
                             else if reply.value.0 > FirstLen(lens).value then Failure(Trap)
                             else if reply.value.0 == 0 && !reply.value.1 then Failure(Error(INTR))
                             else Success(reply.value.0))
                    && SlotMakes(old(st.Open()), old(st.host.entries), st.Open(), st.host.entries, fd,
                                 Reads(if reply.Success? then reply.value.0 else 0)))
  {
    hide SlotMakes, StreamError, StandsAfter, StandingOf, Owned, DirectoryAt, FirstLen, D.WellFormed, D.OpenSlots;
    var i := FirstNonEmpty(lens);
    if i == |lens| {
      return Success(0);
    }
    var moved := Transfer(st, fd, true, if reply.Success? then Success(reply.value.0) else Failure(()));
    if moved.Failure? {
      return moved;
    }
    if moved.value > lens[i] {
      return Failure(Trap);
    }
    if !reply.value.1 && moved.value == 0 {
      return Failure(Error(INTR));
    }
    return moved;
  }

  /** Writes the first buffer that is not empty. */
  method FdWrite(st: State, fd: Fd, lens: seq<u32>, reply: Result<u32, ()>) returns (r: Result<u32, Failure>)
    requires st.Valid()
    modifies st.host, st.descriptors.table
    ensures st.Valid()
    ensures FirstLen(lens) == None ==>
              r == Success(0) && st.Open() == old(st.Open()) && st.host.entries == old(st.host.entries)
    ensures FirstLen(lens).Some? ==>
              match StreamError(old(st.Open()), fd, false)
              case Some(e) =>
                r == Failure(Error(e)) && st.Open() == old(st.Open()) && st.host.entries == old(st.host.entries)
              case None =>
                || (&& r == Failure(Trap) && |old(st.host.entries)| >= MAX_ENTRIES
                    && st.Open() == old(st.Open()) && st.host.entries == old(st.host.entries))
                || (&& r == (if reply.Failure? then Failure(Error(IO)) else Success(reply.value))
                    && SlotMakes(old(st.Open()), old(st.host.entries), st.Open(), st.host.entries, fd,
                                 Writes(if reply.Success? then reply.value else 0)))
  {
    hide SlotMakes, StreamError, StandsAfter, StandingOf, Owned, DirectoryAt, FirstLen, D.WellFormed, D.OpenSlots;
    var i := FirstNonEmpty(lens);
    if i == |lens| {
      return Success(0);
    }
    r := Transfer(st, fd, false, reply);
  }
}
