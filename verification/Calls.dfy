/** Opening, closing and renumbering descriptors, with what that means for the directory cache. */
module Calls {
  import opened Wrappers
  import opened Bytes
  import opened Wasi
  import opened Resources
  import opened HandleTable
  import opened Directories
  import opened State
  import opened Readdir
  import D = Descriptors

  /** What a cached stream needs of the rest of the state: to be live and to read the directory open
      at the cached descriptor. */
  ghost predicate ReadsOpenDirectory(open: map<Fd, Descriptor>, live: map<Handle, Resource>, stream: Handle, fd: Fd)
  {
    && stream in live
    && live[stream].DirectoryStream?
    && DirectoryAt(open, live, fd) == Some(live[stream].listing)
  }

  /** A slot whose handles stay is the directory it was. */
  lemma {:induction false} SameSlotSameDirectory(open: map<Fd, Descriptor>, live: map<Handle, Resource>,
                                                 open': map<Fd, Descriptor>, live': map<Handle, Resource>, k: Fd)
    requires k in open && k in open' && open'[k] == open[k] && LiveIn(open[k], live)
    requires forall h :: h in HandlesOf(open[k]) && h in live ==> h in live' && live'[h] == live[h]
    ensures DirectoryAt(open', live', k) == DirectoryAt(open, live, k)
  {
  }

  /** No slot owns a directory stream. */
  lemma {:induction false} StreamIsUnowned(d: Descriptor, live: map<Handle, Resource>, stream: Handle)
    requires LiveIn(d, live) && stream in live && live[stream].DirectoryStream?
    ensures stream !in HandlesOf(d)
  {
  }

  /** Coherence, in terms of what the cached stream reads. */
  lemma {:induction false} CoherentIff(st: State)
    ensures st.Coherent() <==>
              (st.cache.stream.Some? ==>
                 && ReadsOpenDirectory(st.Open(), st.host.entries, st.cache.stream.value, st.cache.forFd)
                 && st.cache.dirent.namlen <= DIRENT_CACHE <= st.cache.pathData.Length
                 && var stream := st.host.entries[st.cache.stream.value];
                    StandsAfter(stream.listing, st.cache.cookie, st.cache.Cached(), stream.returned))
  {
    hide StandsAfter, DirectoryAt;
  }

  /** Closing another descriptor leaves the cached stream where it was. */
  lemma {:induction false} CloseKeepsStream(open: map<Fd, Descriptor>, live: map<Handle, Resource>, stream: Handle,
                                            at: Fd, fd: Fd)
    requires Owned(open, live) && ReadsOpenDirectory(open, live, stream, at) && fd in open && fd != at
    ensures ReadsOpenDirectory(open - {fd}, live - HandlesOf(open[fd]), stream, at)
    ensures (live - HandlesOf(open[fd]))[stream] == live[stream]
  {
    assert LiveIn(open[fd], live) && LiveIn(open[at], live);
    assert HandlesOf(open[fd]) !! HandlesOf(open[at]);
    hide Owned, LiveIn, HandlesOf, DirectoryAt;
    StreamIsUnowned(open[fd], live, stream);
    SameSlotSameDirectory(open, live, open - {fd}, live - HandlesOf(open[fd]), at);
  }

  lemma {:induction false} MinusCommutes<K, V>(m: map<K, V>, a: set<K>, b: set<K>)
    ensures m - a - b == m - b - a
  {
  }

  /** What other descriptors give back leaves a cached stream standing where it stood. */
  lemma {:induction false} StandingSurvives(cache: DirentCache, live: map<Handle, Resource>, lost: set<Handle>)
    requires cache.stream.Some? ==> cache.stream.value !in lost
    ensures StandingOf(cache, live - lost) == StandingOf(cache, live)
  {
  }

  /** Drops the cached stream, if there is one. */
  method DropCache(st: State)
    requires st.Valid()
    modifies st.host, st.cache`stream
    ensures st.Valid() && st.cache.stream == None
    ensures st.host.entries == old(st.Others())
  {
    CachedIsLive(st);
    hide StandsAfter, StandingOf, Owned, KeepsOwnable, SetOf, D.WellFormed, D.OpenSlots;
    ghost var live := st.host.entries;
    var stream := st.cache.stream;
    DroppedStreamKeeps(live, stream);
    st.cache.stream := None;
    D.DropHandle(stream, IsDirectoryStream, st.host);
    OwnedAcross(st.Open(), live, st.host.entries);
  }

  lemma {:induction false} DroppedStreamKeeps(live: map<Handle, Resource>, stream: Option<Handle>)
    requires stream.Some? ==> stream.value in live && live[stream.value].DirectoryStream?
    ensures KeepsOwnable(live, live - SetOf(stream))
  {
  }

  /** What closing another descriptor means for the cache. */
  lemma {:induction false} CloseKeepsCache(st: State, fd: Fd)
    requires st.Valid() && fd in st.Open() && (st.cache.stream.Some? ==> st.cache.forFd != fd)
    ensures var left, stream := st.host.entries - HandlesOf(st.Open()[fd]), st.cache.stream;
            && left - SetOf(stream) == st.Others() - HandlesOf(st.Open()[fd])
            && StandingOf(st.cache, left) == StandingOf(st.cache, st.host.entries)
            && (stream.Some? ==>
                  && ReadsOpenDirectory(st.Open() - {fd}, left, stream.value, st.cache.forFd)
                  && left[stream.value] == st.host.entries[stream.value])
  {
    hide StandsAfter, Owned, DirectoryAt, HandlesOf, SetOf, StandingOf, D.WellFormed, D.OpenSlots;
    if st.cache.stream.Some? {
      CloseKeepsStream(st.Open(), st.host.entries, st.cache.stream.value, st.cache.forFd, fd);
    }
    StandingSurvives(st.cache, st.host.entries, HandlesOf(st.Open()[fd]));
    MinusCommutes(st.host.entries, HandlesOf(st.Open()[fd]), SetOf(st.cache.stream));
  }

  /** Closes a descriptor that the cache is not for. */
  method CloseUncached(st: State, fd: Fd) returns (r: Result<(), Errno>)
    requires st.Valid() && (st.cache.stream.Some? ==> st.cache.forFd != fd)
    modifies st.host, st.descriptors, st.descriptors.table
    ensures st.Valid()
    ensures r == if fd in old(st.Open()) then Success(()) else Failure(BADF)
    ensures st.Open() == old(st.Open()) - {fd}
    ensures st.Others() == if r.Success? then old(st.Others()) - HandlesOf(old(st.Open())[fd]) else old(st.Others())
  {
    CoherentIff(st);
    hide StandsAfter, Owned, DirectoryAt, HandlesOf, SetOf, StandingOf, ReadsOpenDirectory, State.Coherent,
      D.WellFormed, D.OpenSlots;
    if fd in st.Open() {
      CloseKeepsCache(st, fd);
    }
    r := st.descriptors.Close(fd, st.host);
    CoherentIff(st);
  }

  /** Closes `fd`, first dropping the cached stream if it is for `fd`. Exactly the slot's own handles
      and that stream go back to the host, and a later open of the same number finds no cache. */
  method FdClose(st: State, fd: Fd) returns (r: Result<(), Errno>)
    requires st.Valid()
    modifies st.host, st.descriptors, st.descriptors.table, st.cache
    ensures st.Valid()
    ensures r == if fd in old(st.Open()) then Success(()) else Failure(BADF)
    ensures st.Open() == old(st.Open()) - {fd}
    ensures st.Others() == if r.Success? then old(st.Others()) - HandlesOf(old(st.Open())[fd]) else old(st.Others())
    ensures st.cache.stream == if old(st.cache.forFd) == fd then None else old(st.cache.stream)
  {
    hide StandsAfter, StandingOf, Owned, LiveIn, DirectoryAt, HandlesOf, D.WellFormed, D.OpenSlots;
    if fd == st.cache.forFd {
      DropCache(st);
      assert st.Others() == st.host.entries;
    }
    r := CloseUncached(st, fd);
  }

  // ----- renumbering -----

  /** A renumber that leaves a cached stream for `at` reading the directory open there: it moves the
      slot onto itself, or it touches other slots only, or it moves an equal directory onto it. */
  predicate MoveSparesStream(open: map<Fd, Descriptor>, live: map<Handle, Resource>, stream: Handle, at: Fd, from: Fd,
                             to: Fd)
    requires stream in live && live[stream].DirectoryStream?
  {
    from == to || (at != from && (at == to ==> DirectoryAt(open, live, from) == Some(live[stream].listing)))
  }

  /** What is at `k` after a move keeps its handles, whatever the move dropped. */
  lemma {:induction false} MovedHandlesStay(open: map<Fd, Descriptor>, live: map<Handle, Resource>, from: Fd, to: Fd,
                                            k: Fd)
    requires Owned(open, live) && from in open && k in open && (k == to ==> from == to)
    ensures DirectoryAt(open, live - D.Lost(open, from, to), k) == DirectoryAt(open, live, k)
  {
    assert LiveIn(open[k], live);
    if to in open && to != from {
      assert HandlesOf(open[k]) !! HandlesOf(open[to]);
    }
  }

  lemma {:induction false} RenumberSparesStreamIff(open: map<Fd, Descriptor>, live: map<Handle, Resource>,
                                                   stream: Handle, at: Fd, from: Fd, to: Fd)
    requires Owned(open, live) && ReadsOpenDirectory(open, live, stream, at) && from in open
    ensures var after := live - D.Lost(open, from, to);
            && stream in after && after[stream] == live[stream]
            && (ReadsOpenDirectory((open - {from})[to := open[from]], after, stream, at)
                <==> MoveSparesStream(open, live, stream, at, from, to))
  {
    hide Owned;
    var moved, after := (open - {from})[to := open[from]], live - D.Lost(open, from, to);
    assert stream !in D.Lost(open, from, to) by {
      if to in open {
        assert LiveIn(open[to], live) by { SlotIsLive(open, live, to); }
      }
    }
    if from == to {
      assert moved == open;
      MovedHandlesStay(open, live, from, to, at);
    } else if at == to {
      MovedHandlesStay(open, live, from, to, from);
      assert GetDir(moved, at) == GetDir(open, from);
    } else if at != from {
      MovedHandlesStay(open, live, from, to, at);
      assert GetDir(moved, at) == GetDir(open, at);
    }
  }

  /** The error of a renumber that is refused. A closed `from` gives BADF or, if there is such a slot and
      `to` is out of reach, NOMEM. */
  predicate RefusedWith(open: map<Fd, Descriptor>, from: Fd, to: Fd, e: Errno)
  {
    if from in open then e == NOMEM else e == BADF || (e == NOMEM && to >= D.MAX_DESCRIPTORS)
  }

  /** Renumbers without touching the cache. The state stays valid exactly when the call fails, or
      when it moves onto another open slot and spares the cached stream. */
  method FdRenumber(st: State, from: Fd, to: Fd) returns (r: Result<(), Errno>)
    requires st.Valid()
    modifies st.host, st.descriptors, st.descriptors.table
    ensures r.Success? <==> from in old(st.Open()) && to < D.MAX_DESCRIPTORS
    ensures r.Failure? ==> RefusedWith(old(st.Open()), from, to, r.error)
    ensures r.Success? ==> st.descriptors.closed == Some(from)
    ensures st.Open() == if r.Success? then (old(st.Open()) - {from})[to := old(st.Open())[from]] else old(st.Open())
    ensures st.host.entries == if r.Success? then old(st.host.entries) - D.Lost(old(st.Open()), from, to)
                               else old(st.host.entries)
    ensures var spared :=
              old(st.cache.stream.Some? ==>
                    MoveSparesStream(st.Open(), st.host.entries, st.cache.stream.value, st.cache.forFd, from, to));
            st.Valid() <==> r.Failure? || (to in old(st.Open()) && from != to && spared)
    ensures st.Sound() <==> r.Failure? || (to in old(st.Open()) && from != to)
  {
    hide StandsAfter, StandingOf, Owned, DirectoryAt, MoveSparesStream, D.WellFormed, D.OpenSlots;
    ghost var open, live := st.Open(), st.host.entries;
    D.OpenSlotsAt(st.descriptors.Slots(), from);
    if st.cache.stream.Some? && from in open {
      CachedIsNotLost(open, live, st.cache.stream.value, from, to);
      RenumberSparesStreamIff(open, live, st.cache.stream.value, st.cache.forFd, from, to);
    }
    if from in open {
      StandingSurvives(st.cache, live, D.Lost(open, from, to));
    }
    r := st.descriptors.Renumber(from, to, st.host);
    assert st.cache.stream.Some? && r.Success? ==>
             (st.Coherent() <==> ReadsOpenDirectory(st.Open(), st.host.entries, st.cache.stream.value, st.cache.forFd));
  }

  /** The directory that a move brings to `to`. */
  lemma {:induction false} MovedDirectory(open: map<Fd, Descriptor>, live: map<Handle, Resource>, from: Fd, to: Fd)
    requires Owned(open, live) && from in open && from != to
    ensures DirectoryAt((open - {from})[to := open[from]], live - D.Lost(open, from, to), to)
            == DirectoryAt(open, live, from)
  {
    hide Owned;
    MovedHandlesStay(open, live, from, to, from);
    assert GetDir((open - {from})[to := open[from]], to) == GetDir(open, from);
  }

  /** Whatever the host says of the directory at `fd`, a call there that hits the cache and does not replay
      a dot gives the page of `was`. */
  ghost predicate Shows(st: State, fd: Fd, was: Listing)
    reads st, st.host, st.descriptors, st.descriptors.table, st.cache, st.cache.pathData
  {
    && Hit(st.cache, fd, st.cache.cookie)
    && forall ino: u64, n: nat :: st.cache.cookie >= 2 || n <= DotBytes(st.cache.cookie) ==>
         Answer(WalkOf(st, fd, st.cache.cookie, Success(ino), Success(())), st.cache.cookie, n)
         == Expected(Source(ino, was, None), st.cache.cookie, n)
  }

  /** A cached stream shows the directory it reads, whatever is open at its descriptor now. */
  lemma {:induction false} StreamShows(st: State, fd: Fd, was: Listing, p: Point)
    requires Hit(st.cache, fd, st.cache.cookie) && StandingOf(st.cache, st.host.entries) == Some((was, p))
    requires DirectoryAt(st.Open(), st.host.entries, fd).Some?
    requires st.cache.cookie <= p.returned + 2 && p == PointAt(st.cache.cookie, p.entry, p.returned)
    requires StandsAfter(was, st.cache.cookie, p.entry, p.returned)
    ensures Shows(st, fd, was)
  {
    hide StandsAfter, PointAt, Expected, StandingOf, WalkOf, DirectoryAt;
    var now, cookie := DirectoryAt(st.Open(), st.host.entries, fd).value, st.cache.cookie;
    forall ino: u64, n: nat | cookie >= 2 || n <= DotBytes(cookie)
      ensures Answer(WalkOf(st, fd, cookie, Success(ino), Success(())), cookie, n)
              == Expected(Source(ino, was, None), cookie, n)
    {
      WalkOfCall(st, fd, cookie, ino, now);
      HitIsExactIff(was, cookie, p.entry, p.returned, ino, n);
    }
  }

  /** A move leaves the cached stream where it stands. */
  lemma {:induction false} MoveKeepsStanding(st: State, from: Fd, to: Fd)
    requires st.Sound()
    ensures var left := st.host.entries - D.Lost(st.Open(), from, to);
            && (st.cache.stream.Some? ==> st.cache.stream.value in left)
            && StandingOf(st.cache, left) == StandingOf(st.cache, st.host.entries)
  {
    hide StandsAfter, Owned, DirectoryAt, D.WellFormed, D.OpenSlots, D.Lost;
    if st.cache.stream.Some? {
      CachedIsNotLost(st.Open(), st.host.entries, st.cache.stream.value, from, to);
    }
    StandingSurvives(st.cache, st.host.entries, D.Lost(st.Open(), from, to));
  }

  /** What a renumber that does not spare the cached stream leads to: moved onto the cached descriptor, a
      directory is read as the one that was open there before. */
  method RenumberShowsOldDirectory(st: State, from: Fd, to: Fd, ghost was: Listing, ghost now: Listing)
    requires st.Valid() && from != to && to < D.MAX_DESCRIPTORS
    requires st.cache.stream.Some? && st.cache.forFd == to
    requires DirectoryAt(st.Open(), st.host.entries, to) == Some(was)
    requires DirectoryAt(st.Open(), st.host.entries, from) == Some(now)
    modifies st.host, st.descriptors, st.descriptors.table
    ensures st.Sound() && DirectoryAt(st.Open(), st.host.entries, to) == Some(now)
    ensures Shows(st, to, was)
  {
    hide StandsAfter, Owned, ReadsOpenDirectory, StandingOf, PointAt, Expected, WalkOf, MoveSparesStream, D.WellFormed,
      D.OpenSlots, D.Lost, Shows;
    ghost var open, live := st.Open(), st.host.entries;
    CoherentStanding(st, to, st.cache.cookie);
    ghost var p := StandingOf(st.cache, live).value.1;
    MovedDirectory(open, live, from, to);
    MoveKeepsStanding(st, from, to);
    var r := FdRenumber(st, from, to);
    StreamShows(st, to, was, p);
  }

  lemma {:induction false} CachedIsNotLost(open: map<Fd, Descriptor>, live: map<Handle, Resource>, stream: Handle,
                                           from: Fd, to: Fd)
    requires Owned(open, live) && stream in live && live[stream].DirectoryStream?
    ensures stream !in D.Lost(open, from, to)
  {
    if to in open {
      SlotIsLive(open, live, to);
    }
  }

  // ----- opening -----

  /** A new resource does not disturb the open slots or a cached stream. */
  lemma {:induction false} PushKeepsState(open: map<Fd, Descriptor>, live: map<Handle, Resource>, h: Handle,
                                          res: Resource)
    requires Owned(open, live) && h !in live
    ensures Owned(open, live[h := res]) && KeepsAll(live, live[h := res])
    ensures forall k :: DirectoryAt(open, live, k).Some? ==>
              DirectoryAt(open, live[h := res], k) == DirectoryAt(open, live, k)
  {
    OwnedAcross(open, live, live[h := res]);
  }

  lemma {:induction false} OpenKeepsOthers(open: map<Fd, Descriptor>, live: map<Handle, Resource>, fd: Fd,
                                           d: Descriptor, h: Handle)
    requires Owned(open, live) && fd !in open && HandlesOf(d) == {h} && LiveIn(d, live)
    requires forall k :: k in open ==> h !in HandlesOf(open[k])
    ensures Owned(open[fd := d], live)
  {
  }

  lemma {:induction false} OpenKeepsDirectories(open: map<Fd, Descriptor>, live: map<Handle, Resource>, fd: Fd,
                                                d: Descriptor)
    requires fd !in open
    ensures forall k :: DirectoryAt(open, live, k).Some? ==>
              DirectoryAt(open[fd := d], live, k) == DirectoryAt(open, live, k)
  {
  }

  /** The descriptor that opening a file or directory makes. */
  function NewFile(h: Handle, kind: DescriptorType, append: bool, nonblock: bool): Descriptor
  {
    Streams(None, None, File(h, kind, 0, append, !nonblock))
  }

  /** A new descriptor is a file at its start, has no streams yet, and owns just its handle; it appends as
      asked, and blocks unless it is asked not to. */
  lemma {:induction false} NewFileIs(h: Handle, kind: DescriptorType, append: bool, nonblock: bool)
    ensures var d := NewFile(h, kind, append, nonblock);
            && HandlesOf(d) == {h} && d.Streams? && d.stype.File? && d.stype.kind == kind
            && d.stype.position == 0 && d.stype.append == append && d.stype.blocking != nonblock
  {
  }

  ghost predicate TableFull(open: map<Fd, Descriptor>)
  {
    forall k: Fd :: k < D.MAX_DESCRIPTORS ==> k in open
  }

  lemma {:induction false} OwnerOfHandle(d: Descriptor, live: map<Handle, Resource>, h: Handle)
    requires HandlesOf(d) == {h} && LiveIn(d, live) && h in live
    ensures !live[h].DirectoryStream?
  {
    assert h in HandlesOf(d);
  }

  /** Puts `d`, the owner of the new handle `h`, into a slot, or gives `h` back if all are open. */
  method Install(st: State, d: Descriptor, h: Handle, ghost open: map<Fd, Descriptor>,
                 ghost live: map<Handle, Resource>)
    returns (r: Result<Fd, Errno>)
    requires st.Sound() && open == st.Open() && Owned(open, live)
    requires h !in live && h in st.host.entries && st.host.entries == live[h := st.host.entries[h]]
    requires d.Streams? && HandlesOf(d) == {h} && LiveIn(d, st.host.entries)
    modifies st.host, st.descriptors, st.descriptors.table
    ensures st.Sound()
    ensures r == Failure(NOMEM) || r.Success?
    ensures r.Failure? <==> TableFull(open)
    ensures r.Success? && old(st.descriptors.closed).Some? ==> r.value == old(st.descriptors.closed).value
    ensures if r.Success? then r.value !in open && st.Open() == open[r.value := d] else st.Open() == open
    ensures st.host.entries == if r.Success? then old(st.host.entries) else live
  {
    hide StandsAfter, Owned, DirectoryAt, HandlesOf, LiveIn, D.WellFormed, D.OpenSlots;
    FreshIsUnowned(open, live, h);
    OwnerOfHandle(d, st.host.entries, h);
    r := st.descriptors.OpenSlot(d);
    if r.Success? {
      OpenKeepsOthers(open, st.host.entries, r.value, d, h);
    } else {
      D.DropDescriptor(d, st.host);
      assert live[h := old(st.host.entries[h])] - {h} == live;
    }
  }

  /** `res` is there under a handle that was not in use, and nothing else is new. */
  ghost predicate LeftBehind(before: map<Handle, Resource>, after: map<Handle, Resource>, res: Resource)
  {
    exists h: Handle :: h !in before && after == before[h := res]
  }

  /** Opens what the host's `open_at` and `get_type` answer with. The new number was not open, its
      handle is new, and an existing cache stays coherent. When the table is full the handle goes
      straight back; when `get_type` fails the handle is left behind in the host. */
  method PathOpen(st: State, dirFd: Fd, append: bool, nonblock: bool,
                  openReply: Result<Resource, Errno>, typeReply: Result<DescriptorType, Errno>)
    returns (r: Result<(Fd, Handle), Failure>)
    requires st.Sound()
    requires openReply.Success? ==> IsDescriptor(openReply.value)
    requires openReply.Success? && typeReply.Success? ==>
               (typeReply.value == Directory <==> openReply.value.HostDirectory?)
    modifies st.host, st.descriptors, st.descriptors.table
    ensures st.Sound() && (old(st.Valid()) ==> st.Valid())
    ensures r.Success? && old(st.descriptors.closed).Some? ==> r.value.0 == old(st.descriptors.closed).value
    ensures r.Success? <==> && GetDir(old(st.Open()), dirFd).Success? && openReply.Success? && typeReply.Success?
                            && |old(st.host.entries)| < MAX_ENTRIES && !TableFull(old(st.Open()))
    ensures r.Success? ==>
              var (fd, h) := r.value;
              && fd !in old(st.Open()) && h !in old(st.host.entries)
              && st.Open() == old(st.Open())[fd := NewFile(h, typeReply.value, append, nonblock)]
              && st.host.entries == old(st.host.entries)[h := openReply.value]
    ensures r.Failure? ==>
              st.Open() == old(st.Open()) && (typeReply.Success? ==> st.host.entries == old(st.host.entries))
    ensures r.Failure? && typeReply.Failure? ==>
              if GetDir(old(st.Open()), dirFd).Success? && openReply.Success? && |old(st.host.entries)| < MAX_ENTRIES
              then LeftBehind(old(st.host.entries), st.host.entries, openReply.value)
              else st.host.entries == old(st.host.entries)
    ensures r.Failure? ==>
              r.error == if GetDir(old(st.Open()), dirFd).Failure? then Error(GetDir(old(st.Open()), dirFd).error)
                         else if openReply.Failure? then Error(openReply.error)
                         else if |old(st.host.entries)| >= MAX_ENTRIES then Trap
                         else if typeReply.Failure? then Error(typeReply.error)
                         else Error(NOMEM)
  {
    hide StandsAfter, Owned, DirectoryAt, TableFull, D.WellFormed, D.OpenSlots;
    ghost var open, live := st.Open(), st.host.entries;
    var dir := GetDir(st.Open(), dirFd);
    if dir.Failure? || openReply.Failure? {
      return Failure(Error(if dir.Failure? then dir.error else openReply.error));
    }
    var pushed := st.host.Push(openReply.value);
    if pushed.Failure? {
      return Failure(Trap);
    }
    var h := pushed.value;
    PushKeepsState(open, live, h, openReply.value);
    if typeReply.Failure? {
      return Failure(Error(typeReply.error));
    }
    var installed := Install(st, NewFile(h, typeReply.value, append, nonblock), h, open, live);
    if installed.Failure? {
      return Failure(Error(installed.error));
    }
    OpenKeepsDirectories(open, st.host.entries, installed.value, NewFile(h, typeReply.value, append, nonblock));
    return Success((installed.value, h));
  }

  lemma {:induction false} FewerThan(live: map<Handle, Resource>, lost: set<Handle>)
    ensures |live - lost| <= |live|
  {
    assert (live - lost).Keys <= live.Keys;
  }

  /** A live cached stream stands where it stood while the host's resources stay. */
  lemma {:induction false} StandingStays(cache: DirentCache, live: map<Handle, Resource>, live': map<Handle, Resource>)
    requires cache.stream.Some? ==> cache.stream.value in live
    requires KeepsAll(live, live')
    ensures StandingOf(cache, live') == StandingOf(cache, live)
  {
  }

  lemma {:induction false} GrownKeepsAll(live: map<Handle, Resource>, h: Handle, res: Resource)
    ensures h !in live ==> KeepsAll(live, live[h := res])
  {
  }

  /** A move leaves `from` free. */
  lemma {:induction false} NumberIsFree(st: State, from: Fd, to: Fd)
    requires st.Sound() && from in st.Open() && to in st.Open() && to != from
    ensures to < D.MAX_DESCRIPTORS && !TableFull((st.Open() - {from})[to := st.Open()[from]])
  {
    hide Owned, StandingOf, D.WellFormed;
    assert from !in (st.Open() - {from})[to := st.Open()[from]] && from < D.MAX_DESCRIPTORS;
  }

  /** The other way not to spare the cached stream: with the cached descriptor moved away, its number is
      the next to be given out, and a directory opened then is read as the one that was moved. */
  method RenumberThenOpenShowsOldDirectory(st: State, from: Fd, to: Fd, dirFd: Fd, now: Listing,
                                           ghost was: Listing)
    returns (r: Result<(Fd, Handle), Failure>)
    requires st.Valid() && from != to && to in st.Open() && |st.host.entries| < MAX_ENTRIES
    requires st.cache.stream.Some? && st.cache.forFd == from
    requires DirectoryAt(st.Open(), st.host.entries, from) == Some(was)
    requires dirFd == to || (dirFd != from && GetDir(st.Open(), dirFd).Success?)
    modifies st.host, st.descriptors, st.descriptors.table
    ensures r.Success? && r.value.0 == from
    ensures st.Sound() && DirectoryAt(st.Open(), st.host.entries, from) == Some(now)
    ensures Shows(st, from, was)
  {
    hide StandsAfter, Owned, ReadsOpenDirectory, StandingOf, PointAt, WalkOf, MoveSparesStream, D.WellFormed,
      D.OpenSlots, D.Lost, Shows, State.Coherent, State.Sound, LiveIn, HandlesOf, RefusedWith, KeepsAll, TableFull;
    ghost var open, live := st.Open(), st.host.entries;
    CoherentStanding(st, from, st.cache.cookie);
    ghost var p := StandingOf(st.cache, live).value.1;
    MoveKeepsStanding(st, from, to);
    NumberIsFree(st, from, to);
    assert GetDir((st.Open() - {from})[to := st.Open()[from]], dirFd).Success?;
    FewerThan(live, D.Lost(open, from, to));
    var moved := FdRenumber(st, from, to);
    r := PathOpen(st, dirFd, false, false, Success(HostDirectory(now)), Success(Directory));
    GrownKeepsAll(live - D.Lost(open, from, to), r.value.1, HostDirectory(now));
    StandingStays(st.cache, live - D.Lost(open, from, to), st.host.entries);
    StreamShows(st, from, was, p);
  }
}
