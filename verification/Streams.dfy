/** The streams of a descriptor, made on first use. */
module Streams {
  import opened Wrappers
  import opened Wasi
  import opened Resources
  import opened HandleTable
  import opened State
  import D = Descriptors

  /** Changing the streams of a slot changes no directory. */
  lemma {:induction false} StreamsAreNotDirectories(open: map<Fd, Descriptor>, live: map<Handle, Resource>, fd: Fd,
                                                    d: Descriptor, after: map<Handle, Resource>)
    requires fd in open && open[fd].Streams? && d.Streams? && SameDirectory(open[fd].stype, d.stype)
    requires forall h :: h in live && live[h].HostDirectory? ==> h in after && after[h] == live[h]
    ensures forall k :: DirectoryAt(open, live, k).Some? ==>
              DirectoryAt(open[fd := d], after, k) == DirectoryAt(open, live, k)
  {
  }

  predicate SameDirectory(a: StreamType, b: StreamType)
  {
    if a.File? && b.File? then a.fd == b.fd && a.kind == b.kind else a == b
  }

  /** Giving a slot a new handle `h` keeps every handle owned once. */
  lemma {:induction false} OwnedWithNewStream(open: map<Fd, Descriptor>, live: map<Handle, Resource>, fd: Fd,
                                              d: Descriptor, h: Handle, res: Resource)
    requires Owned(open, live) && fd in open && h !in live
    requires LiveIn(d, live[h := res]) && HandlesOf(d) == HandlesOf(open[fd]) + {h}
    ensures Owned(open[fd := d], live[h := res])
  {
    hide LiveIn, HandlesOf;
    var after := open[fd := d];
    OwnedAcross(open, live, live[h := res]);
    FreshIsUnowned(open, live, h);
    forall j, k | j in after && k in after && j != k ensures HandlesOf(after[j]) !! HandlesOf(after[k]) {
      assert HandlesOf(open[j]) !! HandlesOf(open[k]);
    }
  }

  /** The stream that a read or write on a file makes when there is none. */
  function FreshStream(t: StreamType, forInput: bool): (res: Resource)
    requires t.File?
  {
    if forInput then InputStream(t.position) else if t.append then AppendStream else OutputStream(t.position)
  }

  function StreamOf(d: Descriptor, forInput: bool): Option<Handle>
    requires d.Streams?
  {
    if forInput then d.input else d.output
  }

  function WithStream(d: Descriptor, forInput: bool, h: Handle): (d': Descriptor)
    requires d.Streams?
    ensures d'.Streams? && d'.stype == d.stype
  {
    if forInput then d.(input := Some(h)) else d.(output := Some(h))
  }

  /** What `get_read_stream` and `get_write_stream` fail with, if they do. */
  function StreamError(open: map<Fd, Descriptor>, fd: Fd, forInput: bool): (e: Option<Errno>)
  {
    if fd !in open || !open[fd].Streams? then Some(BADF)
    else if StreamOf(open[fd], forInput).Some? then None
    else if open[fd].stype.File? && open[fd].stype.kind != Directory then None
    else Some(BADF)
  }

  /** A stream is to be had from an open descriptor exactly if it has one or is a file that is not a
      directory. */
  lemma {:induction false} StreamErrorIff(open: map<Fd, Descriptor>, fd: Fd, forInput: bool)
    requires forall k :: k in open ==> open[k].Streams?
    ensures StreamError(open, fd, forInput) == None <==>
              && fd in open
              && (|| (forInput && open[fd].input.Some?) || (!forInput && open[fd].output.Some?)
                  || (open[fd].stype.File? && open[fd].stype.kind != Directory))
    ensures StreamError(open, fd, forInput) in {None, Some(BADF)}
  {
  }

  /** A new stream stands at the recorded position, or at the end of the file in append mode. */
  lemma {:induction false} FreshStreamIs(t: StreamType)
    requires t.File?
    ensures FreshStream(t, true).InputStream? && FreshStream(t, true).position == t.position
    ensures t.append <==> FreshStream(t, false) == AppendStream
    ensures !t.append ==> FreshStream(t, false) == OutputStream(t.position)
  {
  }

  /** `get_read_stream` and `get_write_stream`: the slot's stream, made at the slot's position, or at
      the end of the file in append mode, if there is none yet. */
  method GetStream(st: State, fd: Fd, forInput: bool) returns (r: Result<Handle, Failure>)
    requires st.Valid()
    modifies st.host, st.descriptors.table
    ensures st.Valid()
    ensures match StreamError(old(st.Open()), fd, forInput)
            case Some(e) => r == Failure(Error(e))
            case None =>
              if StreamOf(old(st.Open())[fd], forInput).Some?
              then r == Success(StreamOf(old(st.Open())[fd], forInput).value)
              else r.Failure? <==> |old(st.host.entries)| >= MAX_ENTRIES
    ensures r.Failure? && StreamError(old(st.Open()), fd, forInput) == None ==> r.error == Trap
    ensures r.Failure? || StreamOf(old(st.Open())[fd], forInput).Some? ==>
              st.Open() == old(st.Open()) && st.host.entries == old(st.host.entries)
    ensures r.Success? && StreamOf(old(st.Open())[fd], forInput).None? ==>
              && r.value !in old(st.host.entries)
              && st.Open() == old(st.Open())[fd := WithStream(old(st.Open())[fd], forInput, r.value)]
              && st.host.entries == old(st.host.entries)[r.value := FreshStream(old(st.Open())[fd].stype, forInput)]
    ensures r.Success? ==> fd in st.Open() && StreamOf(st.Open()[fd], forInput) == Some(r.value)
  {
    hide StandsAfter, Owned, LiveIn, DirectoryAt, D.WellFormed, D.OpenSlots;
    ghost var open, live := st.Open(), st.host.entries;
    if fd !in st.Open() || !st.Open()[fd].Streams? {
      return Failure(Error(BADF));
    }
    var d := st.Open()[fd];
    if StreamOf(d, forInput).Some? {
      return Success(StreamOf(d, forInput).value);
    }
    if !d.stype.File? || d.stype.kind == Directory {
      return Failure(Error(BADF));
    }
    var pushed := st.host.Push(FreshStream(d.stype, forInput));
    if pushed.Failure? {
      return Failure(Trap);
    }
    var h := pushed.value;
    NewStreamIsLive(open, live, fd, forInput, h);
    st.descriptors.Update(fd, WithStream(d, forInput, h));
    OwnedWithNewStream(open, live, fd, WithStream(d, forInput, h), h, FreshStream(d.stype, forInput));
    StreamsAreNotDirectories(open, live, fd, WithStream(d, forInput, h), st.host.entries);
    return Success(h);
  }

  lemma {:induction false} NewStreamIsLive(open: map<Fd, Descriptor>, live: map<Handle, Resource>, fd: Fd,
                                           forInput: bool, h: Handle)
    requires Owned(open, live) && fd in open && open[fd].Streams? && open[fd].stype.File? && h !in live
    requires StreamOf(open[fd], forInput).None?
    ensures var d := WithStream(open[fd], forInput, h);
            && LiveIn(d, live[h := FreshStream(d.stype, forInput)])
            && HandlesOf(d) == HandlesOf(open[fd]) + {h}
  {
    assert LiveIn(open[fd], live);
  }
}
