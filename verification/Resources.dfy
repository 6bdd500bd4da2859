/** What the host's handle table holds, and which of its handles a preview 1 descriptor owns. */
module Resources {
  import opened Wrappers
  import opened Bytes
  import opened Wasi
  import Directories

  type Handle = u32

  /** A host resource. A stream over a file keeps its own position; a directory stream keeps the
      entries of its directory and how many of them it has returned. */
  datatype Resource =
    | HostFile
    | HostDirectory(listing: Directories.Listing)
    | InputStream(position: u64)
    | OutputStream(position: u64)
    | AppendStream
    | DirectoryStream(listing: Directories.Listing, returned: nat)
    | Pollable(entry: PollEntry)

  /** What a pollable waits for. */
  datatype PollEntry = OnRead(stream: Handle) | OnWrite(stream: Handle) | OnClock(when: u64, absolute: bool)

  datatype StreamType =
    | Stdio
    | File(fd: Handle, kind: DescriptorType, position: u64, append: bool, blocking: bool)

  datatype Descriptor =
    | Closed(next: Option<Fd>)
    | Streams(input: Option<Handle>, output: Option<Handle>, stype: StreamType)

  function SetOf(h: Option<Handle>): set<Handle> { if h.Some? then {h.value} else {} }

  function FileHandle(t: StreamType): Option<Handle> { if t.File? then Some(t.fd) else None }

  predicate IsInput(r: Resource) { r.InputStream? }

  predicate IsOutput(r: Resource) { r.OutputStream? || r.AppendStream? }

  predicate IsDirectoryStream(r: Resource) { r.DirectoryStream? }

  predicate IsDescriptor(r: Resource) { r.HostFile? || r.HostDirectory? }

  /** The handles that dropping `d` gives back to the host. */
  function HandlesOf(d: Descriptor): set<Handle>
  {
    match d
    case Closed(_) => {}
    case Streams(input, output, stype) => SetOf(input) + SetOf(output) + SetOf(FileHandle(stype))
  }

  /** Every handle in `d` names a live resource of the kind `d` takes it for. */
  ghost predicate LiveIn(d: Descriptor, live: map<Handle, Resource>)
  {
    d.Streams? ==>
      && (d.input.Some? ==> d.input.value in live && live[d.input.value].InputStream?)
      && (d.output.Some? ==> d.output.value in live && IsOutput(live[d.output.value]))
      && (d.stype.File? ==>
            && d.stype.fd in live
            && IsDescriptor(live[d.stype.fd])
            && (d.stype.kind == Directory <==> live[d.stype.fd].HostDirectory?))
  }

  /** No handle is owned twice: each open slot's handles are live and no other slot has them. */
  ghost predicate Owned(open: map<Fd, Descriptor>, live: map<Handle, Resource>)
  {
    && (forall k :: k in open ==> LiveIn(open[k], live))
    && (forall j, k :: j in open && k in open && j != k ==> HandlesOf(open[j]) !! HandlesOf(open[k]))
  }

  lemma {:induction false} SlotIsLive(open: map<Fd, Descriptor>, live: map<Handle, Resource>, k: Fd)
    requires Owned(open, live) && k in open
    ensures LiveIn(open[k], live)
  {
  }

  /** What becomes of directory streams and pollables does not concern the open slots. */
  ghost predicate KeepsOwnable(before: map<Handle, Resource>, after: map<Handle, Resource>)
  {
    forall h :: h in before && !before[h].DirectoryStream? && !before[h].Pollable? ==>
      h in after && after[h] == before[h]
  }

  /** Every resource is still there, as it was. */
  ghost predicate KeepsAll(before: map<Handle, Resource>, after: map<Handle, Resource>)
  {
    forall h :: h in before ==> h in after && after[h] == before[h]
  }

  lemma {:induction false} OwnedAcross(open: map<Fd, Descriptor>, before: map<Handle, Resource>,
                                       after: map<Handle, Resource>)
    requires Owned(open, before) && KeepsOwnable(before, after)
    ensures Owned(open, after)
  {
    forall k | k in open ensures LiveIn(open[k], after) {
      assert LiveIn(open[k], before);
    }
  }

  lemma {:induction false} FreshIsUnowned(open: map<Fd, Descriptor>, live: map<Handle, Resource>, h: Handle)
    requires Owned(open, live) && h !in live
    ensures forall k :: k in open ==> h !in HandlesOf(open[k])
  {
    forall k | k in open ensures h !in HandlesOf(open[k]) {
      assert LiveIn(open[k], live);
    }
  }

  lemma {:induction false} OwnedAfterRemoval(open: map<Fd, Descriptor>, live: map<Handle, Resource>, fd: Fd)
    requires Owned(open, live) && fd in open
    ensures Owned(open - {fd}, live - HandlesOf(open[fd]))
  {
    var rest := open - {fd};
    forall k | k in rest ensures LiveIn(rest[k], live - HandlesOf(open[fd])) {
      assert HandlesOf(open[k]) !! HandlesOf(open[fd]);
      assert LiveIn(open[k], live);
    }
  }
}
