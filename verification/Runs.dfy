/** Whole runs of calls on one state, against a reference that has no directory cache. */
module Runs {
  import opened Wrappers
  import opened Bytes
  import opened Wasi
  import opened Resources
  import opened HandleTable
  import opened Directories
  import opened State
  import opened Readdir
  import opened Calls
  import opened Streams
  import opened Files
  import Cursor
  import Clocks
  import L = PollLayout
  import P = AdapterPoll
  import D = Descriptors

  /** A call, with what the host would answer if it is asked. */
  datatype Request =
    | Open(dirFd: Fd, append: bool, nonblock: bool, openReply: Result<Resource, Errno>,
           typeReply: Result<DescriptorType, Errno>)
    | Close(fd: Fd)
    | Renumber(from: Fd, to: Fd)
    | List(fd: Fd, cookie: u64, len: nat, statReply: Result<u64, Errno>, streamReply: Result<(), Errno>)
    | Seek(fd: Fd, offset: i64, whence: Whence, sizeReply: Result<u64, Errno>)
    | SetFlags(fd: Fd, append: bool, nonblock: bool)
    | Read(fd: Fd, lens: seq<u32>, readReply: Result<(u32, bool), ()>)
    | Write(fd: Fd, lens: seq<u32>, writeReply: Result<u32, ()>)
    | Poll(subs: seq<P.Subscription>, nows: seq<Clocks.Datetime>, sizes: seq<Result<u64, u16>>, ready: seq<byte>)

  datatype Outcome =
    | Opened(fd: Fd, h: Handle)
    | Done(n: u64)
    | Listed(reply: Reply)
    | Polled(events: seq<byte>)
    | Refused(why: Failure)

  /** What the reference knows: the open slots, and the host's resources without the cached stream. */
  datatype World = World(open: map<Fd, Descriptor>, others: map<Handle, Resource>)

  ghost function WorldOf(st: State): World
    reads st, st.host, st.descriptors, st.descriptors.table, st.cache
  {
    World(st.Open(), st.Others())
  }

  /** The host's table may be too full for one more handle. */
  predicate Crowded(w: World) { |w.others| + 1 >= MAX_ENTRIES }

  // ----- the reference -----

  ghost predicate MayOpen(w: World, req: Request, out: Outcome, w': World)
    requires req.Open?
  {
    match out
    case Opened(fd, h) =>
      && GetDir(w.open, req.dirFd).Success? && req.openReply.Success? && req.typeReply.Success?
      && fd !in w.open && h !in w.others
      && w' == World(w.open[fd := NewFile(h, req.typeReply.value, req.append, req.nonblock)],
        w.others[h := req.openReply.value])
    case Refused(why) =>
      && w'.open == w.open
      && (w' == w || (req.typeReply.Failure? && req.openReply.Success?
                      && LeftBehind(w.others, w'.others, req.openReply.value)))
      && if GetDir(w.open, req.dirFd).Failure? then why == Error(GetDir(w.open, req.dirFd).error)
         else if req.openReply.Failure? then why == Error(req.openReply.error)
         else if req.typeReply.Failure? then why == Error(req.typeReply.error) || (why == Trap && Crowded(w))
         else (why == Error(NOMEM) && TableFull(w.open)) || (why == Trap && Crowded(w))
    case _ => false
  }

  ghost predicate MayClose(w: World, fd: Fd, out: Outcome, w': World)
  {
    if fd in w.open then out == Done(0) && w' == World(w.open - {fd}, w.others - HandlesOf(w.open[fd]))
    else out == Refused(Error(BADF)) && w' == w
  }

  ghost predicate MayRenumber(w: World, from: Fd, to: Fd, out: Outcome, w': World)
  {
    if from in w.open && to < D.MAX_DESCRIPTORS then
      && out == Done(0)
      && w' == World((w.open - {from})[to := w.open[from]], w.others - D.Lost(w.open, from, to))
    else
      && w' == w
      && match out
         case Refused(Error(e)) => RefusedWith(w.open, from, to, e)
         case _ => false
  }

  /** The reply to a directory read is the page of the directory that is open there now. */
  ghost predicate MayList(w: World, req: Request, out: Outcome, w': World)
    requires req.List?
  {
    && w' == w && out.Listed?
    && var dir, l := GetDir(w.open, req.fd), DirectoryAt(w.open, w.others, req.fd);
       if dir.Failure? then out.reply == Failed(Error(dir.error))
       else if req.statReply.Failure? then out.reply == Failed(Error(req.statReply.error))
       else
         || (l.Some? && out.reply == Expected(Source(req.statReply.value, l.value, None), req.cookie, req.len))
         || (req.streamReply.Failure? && out.reply == Failed(Error(req.streamReply.error)))
         || (Crowded(w) && out.reply == Failed(Trap))
  }

  ghost predicate MaySeek(w: World, req: Request, out: Outcome, w': World)
    requires req.Seek?
  {
    if req.fd !in w.open then out == Refused(Error(BADF)) && w' == w
    else
      var d := w.open[req.fd];
      if !d.Streams? || !d.stype.File? then out == Refused(Error(SPIPE)) && w' == w
      else if d.stype.kind == Directory then out == Refused(Error(BADF)) && w' == w
      else if req.whence.End? && req.sizeReply.Failure? then out == Refused(Error(req.sizeReply.error)) && w' == w
      else
        match SeekTarget(d.stype.position, if req.sizeReply.Success? then req.sizeReply.value else 0, req.offset,
          req.whence)
        case Failure(e) => out == Refused(Error(e)) && w' == w
        case Success(p) =>
          out == Done(p) && w' == World(w.open[req.fd := Streams(None, None, d.stype.(position := p))], w.others)
  }

  ghost predicate MaySetFlags(w: World, fd: Fd, append: bool, nonblock: bool, out: Outcome, w': World)
  {
    if fd in w.open && w.open[fd].Streams? && w.open[fd].stype.File? && w.open[fd].stype.kind != Directory then
      var d := w.open[fd];
      && out == Done(0)
      && w' == World(w.open[fd := d.(stype := d.stype.(append := append, blocking := !nonblock))], w.others)
    else out == Refused(Error(BADF)) && w' == w
  }

  ghost predicate MayTransfer(w: World, fd: Fd, forInput: bool, first: Option<u32>, moved: Result<u32, ()>,
                              result: Result<u32, Failure>, out: Outcome, w': World)
  {
    if first == None then out == Done(0) && w' == w
    else
      match StreamError(w.open, fd, forInput)
      case Some(e) => out == Refused(Error(e)) && w' == w
      case None =>
        || (out == Refused(Trap) && Crowded(w) && w' == w)
        || (&& out == (if result.Success? then Done(result.value) else Refused(result.error))
            && SlotMakes(w.open, w.others, w'.open, w'.others, fd,
                         MoveFor(forInput, if moved.Success? then moved.value else 0)))
  }

  /** A poll may leave new streams in slots, made as a first read or write makes them, and nothing
      else. */
  ghost predicate MayPoll(w: World, req: Request, out: Outcome, w': World)
    requires req.Poll? && |req.nows| == |req.sizes| == |req.subs|
  {
    && P.Grown(w.open, w.others, w'.open, w'.others)
    && (out != Refused(Trap) ==> P.OnlyGains(w.others, w'.others, {}) && P.NoStrays(w'.open, w.others, w'.others, {}))
    && match out
       case Polled(events) =>
         && req.subs != [] && |req.ready| == |req.subs| && P.FirstError(req.subs, req.nows, w.open) == None
         && (forall i :: 0 <= i < |req.subs| ==> P.Polled(req.subs[i].kind, w.open))
         && events == L.FlatEvents(P.Events(req.subs, req.ready, w.open, req.sizes, |req.subs|))
       case Refused(Trap) => |w.others| + 1 + 2 * |req.subs| > MAX_ENTRIES || |req.ready| != |req.subs|
       case Refused(Error(e)) =>
         if req.subs == [] then e == INVAL else P.FirstError(req.subs, req.nows, w.open) == Some(e)
       case _ => false
  }

  function ReadResult(first: Option<u32>, reply: Result<(u32, bool), ()>): Result<u32, Failure>
  {
    if reply.Failure? then Failure(Error(IO))
    else if first.Some? && reply.value.0 > first.value then Failure(Trap)
    else if reply.value.0 == 0 && !reply.value.1 then Failure(Error(INTR))
    else Success(reply.value.0)
  }

  /** One call of the reference. */
  ghost predicate May(w: World, req: Request, out: Outcome, w': World)
  {
    match req
    case Open(_, _, _, _, _) => MayOpen(w, req, out, w')
    case Close(fd) => MayClose(w, fd, out, w')
    case Renumber(from, to) => MayRenumber(w, from, to, out, w')
    case List(_, _, _, _, _) => MayList(w, req, out, w')
    case Seek(_, _, _, _) => MaySeek(w, req, out, w')
    case SetFlags(fd, append, nonblock) => MaySetFlags(w, fd, append, nonblock, out, w')
    case Read(fd, lens, reply) =>
      MayTransfer(w, fd, true, FirstLen(lens), if reply.Success? then Success(reply.value.0) else Failure(()),
                  ReadResult(FirstLen(lens), reply), out, w')
    case Write(fd, lens, reply) =>
      MayTransfer(w, fd, false, FirstLen(lens), reply,
                  if reply.Success? then Success(reply.value) else Failure(Error(IO)), out, w')
    case Poll(subs, nows, sizes, _) => |nows| == |sizes| == |subs| && MayPoll(w, req, out, w')
  }

  // ----- one call -----

  /** The slots are open ones, and every handle of one is live, of the right kind, and in no other. */
  ghost predicate OwnedOnce(w: World) { Owned(w.open, w.others) && forall k :: k in w.open ==> w.open[k].Streams? }

  lemma {:induction false} WorldIsOwned(st: State)
    requires st.Valid()
    ensures OwnedOnce(WorldOf(st))
  {
    hide StandsAfter, StandingOf, Owned;
    OwnedAcross(st.Open(), st.host.entries, st.Others());
  }

  /** What a run asks of its next call: a directory read does not replay a cached dot, a renumber
      moves onto another open slot and spares the cached stream, and the host's answers fit the call:
      those to an open agree with each other, those to a poll are one per subscription. */
  predicate InTerms(st: State, req: Request)
    reads st, st.host, st.cache, st.descriptors, st.descriptors.table
  {
    match req
    case Open(_, _, _, openReply, typeReply) =>
      && (openReply.Success? ==> IsDescriptor(openReply.value))
      && (openReply.Success? && typeReply.Success? ==>
        (typeReply.value == Directory <==> openReply.value.HostDirectory?))
    case Renumber(from, to) =>
      from in st.Open() && to < D.MAX_DESCRIPTORS ==>
        && to in st.Open() && from != to
        && (st.cache.stream.Some? ==>
              && st.cache.stream.value in st.host.entries
              && st.host.entries[st.cache.stream.value].DirectoryStream?
              && MoveSparesStream(st.Open(), st.host.entries, st.cache.stream.value, st.cache.forFd, from, to))
    case List(fd, cookie, len, _, _) => !Replays(st.cache, fd, cookie, len)
    case Poll(subs, nows, sizes, _) => |nows| == |sizes| == |subs|
    case _ => true
  }

  method DoClose(st: State, fd: Fd) returns (out: Outcome)
    requires st.Valid()
    modifies st.host, st.descriptors, st.descriptors.table, st.cache
    ensures st.Valid() && MayClose(old(WorldOf(st)), fd, out, WorldOf(st))
  {
    hide State.Valid, HandlesOf;
    var r := FdClose(st, fd);
    assert fd !in old(st.Open()) ==> old(st.Open()) - {fd} == old(st.Open());
    out := if r.Success? then Done(0) else Refused(Error(r.error));
  }

  method DoRenumber(st: State, from: Fd, to: Fd) returns (out: Outcome)
    requires st.Valid() && InTerms(st, Renumber(from, to))
    modifies st.host, st.descriptors, st.descriptors.table
    ensures st.Valid() && MayRenumber(old(WorldOf(st)), from, to, out, WorldOf(st))
  {
    hide State.Valid, D.Lost;
    CachedIsLive(st);
    var r := FdRenumber(st, from, to);
    MinusCommutes(old(st.host.entries), D.Lost(old(st.Open()), from, to), SetOf(st.cache.stream));
    out := if r.Success? then Done(0) else Refused(Error(r.error));
  }

  /** A file opened, as the reference sees it. */
  lemma {:induction false} OpenIsAllowed(req: Request, w: World, live: map<Handle, Resource>, stream: Option<Handle>,
                                         fd: Fd, h: Handle)
    requires req.Open? && GetDir(w.open, req.dirFd).Success? && req.openReply.Success? && req.typeReply.Success?
    requires w.others == live - SetOf(stream) && (stream.Some? ==> stream.value in live)
    requires fd !in w.open && h !in live
    ensures MayOpen(w, req, Opened(fd, h),
                    World(w.open[fd := NewFile(h, req.typeReply.value, req.append, req.nonblock)],
                          live[h := req.openReply.value] - SetOf(stream)))
  {
    hide GetDir;
    NewHandleAmongOthers(live, h, req.openReply.value, stream);
  }

  /** A file not opened, as the reference sees it. */
  lemma {:induction false} RefusalIsAllowed(req: Request, w: World, live: map<Handle, Resource>,
                                            live': map<Handle, Resource>, stream: Option<Handle>, why: Failure)
    requires req.Open? && w.others == live - SetOf(stream) && (stream.Some? ==> stream.value in live)
    requires |live| <= |w.others| + 1
    requires live' == live
             || (req.typeReply.Failure? && req.openReply.Success? && LeftBehind(live, live', req.openReply.value))
    requires why == if GetDir(w.open, req.dirFd).Failure? then Error(GetDir(w.open, req.dirFd).error)
                    else if req.openReply.Failure? then Error(req.openReply.error)
                    else if |live| >= MAX_ENTRIES then Trap
                    else if req.typeReply.Failure? then Error(req.typeReply.error)
                    else Error(NOMEM)
    requires GetDir(w.open, req.dirFd).Failure? || req.openReply.Failure? || req.typeReply.Failure?
             || why != Error(NOMEM) || TableFull(w.open)
    ensures MayOpen(w, req, Refused(why), World(w.open, live' - SetOf(stream)))
  {
    hide GetDir, TableFull;
    if live' != live {
      var h: Handle :| h !in live && live' == live[h := req.openReply.value];
      NewHandleAmongOthers(live, h, req.openReply.value, stream);
      assert h !in w.others && live' - SetOf(stream) == w.others[h := req.openReply.value];
    }
  }

  method DoOpen(st: State, req: Request) returns (out: Outcome)
    requires st.Valid() && req.Open? && InTerms(st, req)
    modifies st.host, st.descriptors, st.descriptors.table
    ensures st.Valid() && MayOpen(old(WorldOf(st)), req, out, WorldOf(st))
  {
    hide State.Sound, State.Coherent, TableFull, StandsAfter, StandingOf, Owned, GetDir, LeftBehind, MayOpen, SetOf;
    CachedIsLive(st);
    ghost var live, w := st.host.entries, WorldOf(st);
    AtMostOneMore(st);
    var r := PathOpen(st, req.dirFd, req.append, req.nonblock, req.openReply, req.typeReply);
    if r.Failure? {
      RefusalIsAllowed(req, w, live, st.host.entries, st.cache.stream, r.error);
      return Refused(r.error);
    }
    OpenIsAllowed(req, w, live, st.cache.stream, r.value.0, r.value.1);
    return Opened(r.value.0, r.value.1);
  }

  lemma {:induction false} NewHandleAmongOthers(live: map<Handle, Resource>, h: Handle, res: Resource,
                                                stream: Option<Handle>)
    requires h !in live && (stream.Some? ==> stream.value in live)
    ensures live[h := res] - SetOf(stream) == (live - SetOf(stream))[h := res]
  {
  }

  method DoSeek(st: State, req: Request) returns (out: Outcome)
    requires st.Valid() && req.Seek?
    modifies st.descriptors.table
    ensures st.Valid() && MaySeek(old(WorldOf(st)), req, out, WorldOf(st))
  {
    hide State.Valid, View, SeekTarget;
    var r := FdSeek(st, req.fd, req.offset, req.whence, req.sizeReply);
    out := if r.Success? then Done(r.value) else Refused(Error(r.error));
  }

  method DoSetFlags(st: State, fd: Fd, append: bool, nonblock: bool) returns (out: Outcome)
    requires st.Valid()
    modifies st.descriptors.table
    ensures st.Valid() && MaySetFlags(old(WorldOf(st)), fd, append, nonblock, out, WorldOf(st))
  {
    hide State.Valid, View;
    var r := FdSetFlags(st, fd, append, nonblock);
    out := if r.Success? then Done(0) else Refused(Error(r.error));
  }

  /** A call that misses the cache gives a reply of the reference, and one that hits it does if its walk
      gives the directory's page. */
  lemma {:induction false} WalkIsAfresh(w: World, live: map<Handle, Resource>, cached: Option<(Listing, Point)>,
                                        req: Request, reply: Reply)
    requires req.List?
    requires reply == Answer(Walked(GetDir(w.open, req.fd), live, cached, req.statReply, req.streamReply), req.cookie,
             req.len)
    requires GetDir(w.open, req.fd).Success? ==> DirectoryAt(w.open, live, req.fd).Some?
    requires DirectoryAt(w.open, live, req.fd) == DirectoryAt(w.open, w.others, req.fd)
    requires |live| >= MAX_ENTRIES ==> Crowded(w)
    requires cached.Some? ==>
               && DirectoryAt(w.open, live, req.fd) == Some(cached.value.0)
               && forall ino :: Expected(Source(ino, cached.value.0, Some(cached.value.1)), req.cookie, req.len)
                             == Expected(Source(ino, cached.value.0, None), req.cookie, req.len)
    ensures MayList(w, req, Listed(reply), w)
  {
    hide Expected, ListingOf, GetDir;
  }

  /** From a valid state the reply is one of the reference, unless the call replays a dot. */
  lemma {:induction false} AnswerIsAfresh(st: State, req: Request, reply: Reply)
    requires st.Valid() && req.List? && !Replays(st.cache, req.fd, req.cookie, req.len)
    requires reply == Answer(WalkOf(st, req.fd, req.cookie, req.statReply, req.streamReply), req.cookie, req.len)
    ensures MayList(WorldOf(st), req, Listed(reply), WorldOf(st))
  {
    hide Expected, Answer, Walked, StandsAfter, Owned, GetDir, DirectoryAt, MayList, StandingOf, PointAt;
    var hit := Hit(st.cache, req.fd, req.cookie);
    DirectoryIsKept(st, req.fd);
    AtMostOneMore(st);
    OpenIsOwned(st);
    GetDirIsLive(st.Open(), st.host.entries, req.fd);
    if hit {
      CoherentStanding(st, req.fd, req.cookie);
      var (l, p) := StandingOf(st.cache, st.host.entries).value;
      forall ino
        ensures Expected(Source(ino, l, Some(p)), req.cookie, req.len)
                == Expected(Source(ino, l, None), req.cookie, req.len)
      {
        HitIsExactIff(l, req.cookie, p.entry, p.returned, ino, req.len);
      }
    }
    WalkIsAfresh(WorldOf(st), st.host.entries, if hit then StandingOf(st.cache, st.host.entries) else None, req, reply);
  }

  method DoList(st: State, req: Request) returns (out: Outcome)
    requires st.Valid() && req.List? && InTerms(st, req)
    modifies st.host, st.cache, st.cache.pathData
    ensures st.Valid() && MayList(old(WorldOf(st)), req, out, WorldOf(st))
  {
    hide Expected, State.Sound, State.Coherent, State.Others, Answer, Observed, MayList, GetDir, WalkOf, Saved, Replays;
    var buf := new byte[req.len](_ => 0);
    ghost var reply := Answer(WalkOf(st, req.fd, req.cookie, req.statReply, req.streamReply), req.cookie, req.len);
    AnswerIsAfresh(st, req, reply);
    var status := FdReaddir(st, req.fd, buf, req.cookie, req.statReply, req.streamReply);
    out := Listed(Observed(status, buf[..]));
  }

  /** A slot's positions do not depend on a directory stream. */
  lemma {:induction false} ViewAmongOthers(d: Descriptor, live: map<Handle, Resource>, stream: Option<Handle>)
    requires d.Streams? && d.stype.File? && LiveIn(d, live)
    requires stream.Some? ==> stream.value in live && live[stream.value].DirectoryStream?
    ensures View(d, live - SetOf(stream)) == View(d, live)
  {
  }

  /** What a slot does with its own handles looks the same without the cached stream. */
  lemma {:induction false} MadeAmongOthers(open: map<Fd, Descriptor>, live: map<Handle, Resource>,
                                           open': map<Fd, Descriptor>, live': map<Handle, Resource>, fd: Fd,
                                           m: Cursor.Move, stream: Option<Handle>)
    requires SlotMakes(open, live, open', live', fd, m) && Owned(open, live) && Owned(open', live')
    requires stream.Some? ==> stream.value in live && live[stream.value].DirectoryStream?
    requires stream.Some? ==> stream.value in live' && live'[stream.value].DirectoryStream?
    ensures SlotMakes(open, live - SetOf(stream), open', live' - SetOf(stream), fd, m)
  {
    hide Cursor.Step, Owned, LiveIn, View, HandlesOf, SetOf;
    SlotIsLive(open, live, fd);
    SlotIsLive(open', live', fd);
    if open[fd].stype.File? {
      ViewAmongOthers(open[fd], live, stream);
      ViewAmongOthers(open'[fd], live', stream);
    }
    MinusCommutes(live, SetOf(stream), HandlesOf(open[fd]));
    MinusCommutes(live', SetOf(stream), HandlesOf(open'[fd]));
  }

  method DoRead(st: State, fd: Fd, lens: seq<u32>, reply: Result<(u32, bool), ()>) returns (out: Outcome)
    requires st.Valid()
    modifies st.host, st.descriptors.table
    ensures st.Valid()
    ensures MayTransfer(old(WorldOf(st)), fd, true, FirstLen(lens),
                        if reply.Success? then Success(reply.value.0) else Failure(()),
                        ReadResult(FirstLen(lens), reply), out, WorldOf(st))
  {
    hide State.Valid, SlotMakes, StreamError, FirstLen;
    CachedIsLive(st);
    OpenIsOwned(st);
    AtMostOneMore(st);
    ghost var open, live := st.Open(), st.host.entries;
    var r := FdRead(st, fd, lens, reply);
    CachedIsLive(st);
    OpenIsOwned(st);
    ghost var m := Cursor.Reads(if reply.Success? then reply.value.0 else 0);
    if SlotMakes(open, live, st.Open(), st.host.entries, fd, m) {
      MadeAmongOthers(open, live, st.Open(), st.host.entries, fd, m, st.cache.stream);
    }
    out := if r.Success? then Done(r.value) else Refused(r.error);
  }

  method DoWrite(st: State, fd: Fd, lens: seq<u32>, reply: Result<u32, ()>) returns (out: Outcome)
    requires st.Valid()
    modifies st.host, st.descriptors.table
    ensures st.Valid()
    ensures MayTransfer(old(WorldOf(st)), fd, false, FirstLen(lens), reply,
                        if reply.Success? then Success(reply.value) else Failure(Error(IO)), out, WorldOf(st))
  {
    hide State.Valid, SlotMakes, StreamError, FirstLen;
    CachedIsLive(st);
    OpenIsOwned(st);
    AtMostOneMore(st);
    ghost var open, live := st.Open(), st.host.entries;
    var r := FdWrite(st, fd, lens, reply);
    CachedIsLive(st);
    OpenIsOwned(st);
    ghost var m := Cursor.Writes(if reply.Success? then reply.value else 0);
    if SlotMakes(open, live, st.Open(), st.host.entries, fd, m) {
      MadeAmongOthers(open, live, st.Open(), st.host.entries, fd, m, st.cache.stream);
    }
    out := if r.Success? then Done(r.value) else Refused(r.error);
  }

  lemma {:induction false} GrownAmongOthers(open: map<Fd, Descriptor>, live: map<Handle, Resource>,
                                            open': map<Fd, Descriptor>, live': map<Handle, Resource>,
                                            stream: Option<Handle>)
    requires P.Grown(open, live, open', live') && (stream.Some? ==> stream.value in live)
    ensures P.Grown(open, live - SetOf(stream), open', live' - SetOf(stream))
    ensures P.OnlyGains(live, live', {}) ==> P.OnlyGains(live - SetOf(stream), live' - SetOf(stream), {})
    ensures P.NoStrays(open', live, live', {}) ==> P.NoStrays(open', live - SetOf(stream), live' - SetOf(stream), {})
  {
    hide FreshStream, P.InASlot, P.OnlyGainsStreams;
  }

  lemma {:induction false} PollIsAllowed(req: Request, w: World, w': World, r: Result<nat, Failure>, events: seq<byte>)
    requires req.Poll? && |req.nows| == |req.sizes| == |req.subs|
    requires P.Grown(w.open, w.others, w'.open, w'.others)
    requires r != Failure(Trap) ==> P.OnlyGains(w.others, w'.others, {}) && P.NoStrays(w'.open, w.others, w'.others, {})
    requires r == Failure(Trap) ==> |w.others| + 1 + 2 * |req.subs| > MAX_ENTRIES || |req.ready| != |req.subs|
    requires req.subs == [] ==> r == Failure(Error(INVAL))
    requires req.subs != [] ==>
               match P.FirstError(req.subs, req.nows, w.open)
               case Some(e) => r == Failure(Error(e)) || r == Failure(Trap)
               case None => r.Success? || r == Failure(Trap)
    requires r.Success? ==>
               && |req.ready| == |req.subs|
               && (forall i :: 0 <= i < |req.subs| ==> P.Polled(req.subs[i].kind, w.open))
               && events == L.FlatEvents(P.Events(req.subs, req.ready, w.open, req.sizes, |req.subs|))
    ensures MayPoll(w, req, if r.Success? then Polled(events) else Refused(r.error), w')
  {
    hide P.Grown, P.OnlyGains, P.NoStrays, P.Events, P.Polled, P.FirstError, L.FlatEvents;
  }

  method DoPoll(st: State, req: Request) returns (out: Outcome)
    requires st.Valid() && req.Poll? && InTerms(st, req)
    modifies st.host, st.descriptors.table
    ensures st.Valid() && MayPoll(old(WorldOf(st)), req, out, WorldOf(st))
  {
    hide State.Valid, P.Grown, P.OnlyGains, P.NoStrays, P.Events, P.Polled, P.FirstError, L.FlatEvents, P.AllWait,
      P.Distinct,
      P.HandleSet, SetOf, Crowded, MayPoll;
    CachedIsLive(st);
    AtMostOneMore(st);
    ghost var open, live, w := st.Open(), st.host.entries, WorldOf(st);
    var buf := new byte[L.EVENT_SIZE * |req.subs|](_ => 0);
    var r, asked, table := P.PollOneoff(st, req.subs, req.nows, req.sizes, req.ready, buf);
    GrownAmongOthers(open, live, st.Open(), st.host.entries, st.cache.stream);
    var events := if r.Success? then buf[..L.EVENT_SIZE * r.value] else [];
    PollIsAllowed(req, w, WorldOf(st), r, events);
    out := if r.Success? then Polled(events) else Refused(r.error);
  }

  lemma {:induction false} OpenIsOwned(st: State)
    requires st.Valid()
    ensures Owned(st.Open(), st.host.entries)
  {
    hide StandsAfter, StandingOf, Owned;
  }

  /** Makes one call: the state stays valid, and what happened is a call of the reference. */
  method Perform(st: State, req: Request) returns (out: Outcome)
    requires st.Valid() && InTerms(st, req)
    modifies st.host, st.descriptors, st.descriptors.table, st.cache, st.cache.pathData
    ensures st.Valid() && May(old(WorldOf(st)), req, out, WorldOf(st))
  {
    hide State.Valid, WorldOf, MayOpen, MayClose, MayRenumber, MayList, MaySeek, MaySetFlags, MayTransfer, MayPoll;
    match req {
      case Open(_, _, _, _, _) => out := DoOpen(st, req);
      case Close(fd) => out := DoClose(st, fd);
      case Renumber(from, to) => out := DoRenumber(st, from, to);
      case List(_, _, _, _, _) => out := DoList(st, req);
      case Seek(_, _, _, _) => out := DoSeek(st, req);
      case SetFlags(fd, append, nonblock) => out := DoSetFlags(st, fd, append, nonblock);
      case Read(fd, lens, reply) => out := DoRead(st, fd, lens, reply);
      case Write(fd, lens, reply) => out := DoWrite(st, fd, lens, reply);
      case Poll(_, _, _, _) => out := DoPoll(st, req);
    }
  }

  // ----- start-up -----

  /** The handles `hs` are new, different, and hold the preopened resources in order. */
  ghost predicate HoldPreopens(hs: seq<(Handle, DescriptorType)>, preopens: seq<(Resource, DescriptorType)>,
                               before: map<Handle, Resource>, live: map<Handle, Resource>)
  {
    && |hs| <= |preopens|
    && KeepsAll(before, live)
    && (forall i :: 0 <= i < |hs| ==>
          hs[i].0 !in before && hs[i].0 in live && live[hs[i].0] == preopens[i].0 && hs[i].1 == preopens[i].1)
    && forall i, j :: 0 <= i < j < |hs| ==> hs[i].0 != hs[j].0
  }

  lemma {:induction false} OneMorePreopen(hs: seq<(Handle, DescriptorType)>, preopens: seq<(Resource, DescriptorType)>,
                                          before: map<Handle, Resource>, live: map<Handle, Resource>, h: Handle)
    requires HoldPreopens(hs, preopens, before, live) && |hs| < |preopens| && h !in live
    ensures var i := |hs|;
            HoldPreopens(hs + [(h, preopens[i].1)], preopens, before, live[h := preopens[i].0])
  {
  }

  /** Puts the three standard streams into an empty host's table. */
  method PushStdio(host: Table<Resource>) returns (stdin: Handle, stdout: Handle, stderr: Handle)
    requires host.Valid() && host.entries == map[]
    modifies host
    ensures host.Valid() && |host.entries| == 3 && D.GoodStart(stdin, stdout, stderr, [], host.entries)
  {
    var r := host.Push(InputStream(0));
    stdin := r.value;
    r := host.Push(OutputStream(0));
    stdout := r.value;
    r := host.Push(OutputStream(0));
    stderr := r.value;
  }

  /** Puts the preopened directories into the host's table. */
  method PushPreopens(host: Table<Resource>, preopens: seq<(Resource, DescriptorType)>)
    returns (hs: seq<(Handle, DescriptorType)>)
    requires host.Valid() && |host.entries| + |preopens| <= MAX_ENTRIES
    modifies host
    ensures host.Valid() && |hs| == |preopens|
    ensures HoldPreopens(hs, preopens, old(host.entries), host.entries)
  {
    hide HoldPreopens, KeepsAll;
    hs := [];
    assert HoldPreopens([], preopens, host.entries, host.entries) by { NoPreopens(preopens, host.entries); }
    for i := 0 to |preopens|
      invariant host.Valid() && |host.entries| == |old(host.entries)| + i && |hs| == i
      invariant HoldPreopens(hs, preopens, old(host.entries), host.entries)
    {
      ghost var live := host.entries;
      var h := host.Push(preopens[i].0);
      OneMorePreopen(hs, preopens, old(host.entries), live, h.value);
      hs := hs + [(h.value, preopens[i].1)];
    }
  }

  lemma {:induction false} NoPreopens(preopens: seq<(Resource, DescriptorType)>, live: map<Handle, Resource>)
    ensures HoldPreopens([], preopens, live, live)
  {
  }

  lemma {:induction false} PreopensAreGood(hs: seq<(Handle, DescriptorType)>, preopens: seq<(Resource, DescriptorType)>,
                                           stdin: Handle, stdout: Handle, stderr: Handle, before: map<Handle, Resource>,
                                           live: map<Handle, Resource>)
    requires HoldPreopens(hs, preopens, before, live) && D.GoodStart(stdin, stdout, stderr, [], before)
    requires forall i :: 0 <= i < |preopens| ==>
               IsDescriptor(preopens[i].0) && (preopens[i].1 == Directory <==> preopens[i].0.HostDirectory?)
    ensures D.GoodStart(stdin, stdout, stderr, hs, live)
  {
  }

  /** The descriptors at start-up: stdio, and from 3 on one for every preopen. */
  ghost predicate OpenAtStart(open: map<Fd, Descriptor>, preopens: seq<(Resource, DescriptorType)>,
                              live: map<Handle, Resource>)
  {
    && |open| == 3 + |preopens|
    && (forall k: Fd :: k < 3 ==>
          && k in open && open[k].Streams? && open[k].stype == Stdio
          && (open[k].input.Some? <==> k == 0) && (open[k].output.Some? <==> k != 0))
    && forall i: Fd :: i < |preopens| ==>
         && i + 3 in open && open[i + 3].Streams? && open[i + 3].stype.File?
         && open[i + 3].input.None? && open[i + 3].output.None?
         && open[i + 3].stype == File(open[i + 3].stype.fd, preopens[i].1, 0, false, false)
         && open[i + 3].stype.fd in live && live[open[i + 3].stype.fd] == preopens[i].0
  }

  lemma {:induction false} StartSlotsAreOpen(stdin: Handle, stdout: Handle, stderr: Handle,
                                             hs: seq<(Handle, DescriptorType)>,
                                             preopens: seq<(Resource, DescriptorType)>, before: map<Handle, Resource>,
                                             live: map<Handle, Resource>)
    requires HoldPreopens(hs, preopens, before, live) && |hs| == |preopens| && 3 + |hs| <= D.MAX_DESCRIPTORS
    ensures OpenAtStart(D.OpenSlots(D.StartSlots(stdin, stdout, stderr, hs)), preopens, live)
  {
    hide D.OpenSlots;
    var slots := D.StartSlots(stdin, stdout, stderr, hs);
    assert forall i: Fd :: i < |hs| ==> slots[i + 3] == D.PreopenSlot(hs[i]);
    AllSlotsOpen(slots);
  }

  /** The state at start-up. It is valid, and so a run can start from it. */
  method Boot(preopens: seq<(Resource, DescriptorType)>) returns (st: State)
    requires 3 + |preopens| <= D.MAX_DESCRIPTORS
    requires forall i :: 0 <= i < |preopens| ==>
               IsDescriptor(preopens[i].0) && (preopens[i].1 == Directory <==> preopens[i].0.HostDirectory?)
    ensures fresh(st) && fresh(st.host) && fresh(st.descriptors) && fresh(st.descriptors.table)
    ensures fresh(st.cache) && fresh(st.cache.pathData)
    ensures st.Valid() && st.cache.stream == None && OpenAtStart(st.Open(), preopens, st.host.entries)
  {
    hide Owned, HoldPreopens, OpenAtStart, StandingOf, D.GoodStart, D.WellFormed, D.OpenSlots, D.StartSlots;
    var host := new Table<Resource>();
    var stdin, stdout, stderr := PushStdio(host);
    ghost var stdio := host.entries;
    var hs := PushPreopens(host, preopens);
    PreopensAreGood(hs, preopens, stdin, stdout, stderr, stdio, host.entries);
    D.StartIsOwned(stdin, stdout, stderr, hs, host.entries);
    StartSlotsAreOpen(stdin, stdout, stderr, hs, preopens, stdio, host.entries);
    var descriptors := new D.Descriptors(stdin, stdout, stderr, hs);
    st := new State(host, descriptors);
  }

  lemma {:induction false} AllSlotsOpen(slots: seq<Descriptor>)
    requires |slots| <= D.MAX_DESCRIPTORS && forall i :: 0 <= i < |slots| ==> slots[i].Streams?
    ensures |D.OpenSlots(slots)| == |slots|
    ensures forall i: Fd :: i < |slots| ==> i in D.OpenSlots(slots) && D.OpenSlots(slots)[i] == slots[i]
  {
    if slots != [] {
      var init, last := slots[..|slots| - 1], slots[|slots| - 1];
      AllSlotsOpen(init);
      D.OpenAfterPush(init, last);
      assert slots == init + [last];
    }
  }

  // ----- whole runs -----

  predicate IsTrap(out: Outcome) { out == Refused(Trap) || out == Listed(Failed(Trap)) }

  /** Makes the calls in turn, up to a trap or a call that is outside the terms. The worlds passed
      through and the outcomes are a run of the reference, so that over the whole run no reply shows
      the cache: no stream of a closed directory is ever resumed. */
  method Run(st: State, reqs: seq<Request>) returns (outs: seq<Outcome>, ghost worlds: seq<World>)
    requires st.Valid()
    modifies st.host, st.descriptors, st.descriptors.table, st.cache, st.cache.pathData
    ensures st.Valid()
    ensures |outs| <= |reqs| && |worlds| == |outs| + 1
    ensures forall i :: 0 <= i < |worlds| ==> OwnedOnce(worlds[i])
    ensures worlds[0] == old(WorldOf(st)) && worlds[|outs|] == WorldOf(st)
    ensures forall i :: 0 <= i < |outs| ==> May(worlds[i], reqs[i], outs[i], worlds[i + 1])
    ensures |outs| < |reqs| ==> (outs != [] && IsTrap(outs[|outs| - 1])) || !InTerms(st, reqs[|outs|])
  {
    hide State.Valid, WorldOf, May, InTerms, OwnedOnce;
    WorldIsOwned(st);
    outs, worlds := [], [WorldOf(st)];
    while |outs| < |reqs| && (outs == [] || !IsTrap(outs[|outs| - 1])) && InTerms(st, reqs[|outs|])
      invariant st.Valid()
      invariant |outs| <= |reqs| && |worlds| == |outs| + 1
      invariant forall i :: 0 <= i < |worlds| ==> OwnedOnce(worlds[i])
      invariant worlds[0] == old(WorldOf(st)) && worlds[|outs|] == WorldOf(st)
      invariant forall i :: 0 <= i < |outs| ==> May(worlds[i], reqs[i], outs[i], worlds[i + 1])
      decreases |reqs| - |outs|
    {
      var out := Perform(st, reqs[|outs|]);
      WorldIsOwned(st);
      outs, worlds := outs + [out], worlds + [WorldOf(st)];
    }
  }

  // ----- positions over a whole run -----

  predicate IsFile(w: World, fd: Fd) { fd in w.open && w.open[fd].Streams? && w.open[fd].stype.File? }

  /** The recorded position of the file at `fd` and its streams in the host agree. */
  predicate FileInSync(w: World, fd: Fd)
  {
    IsFile(w, fd) && Cursor.InSync(View(w.open[fd], w.others))
  }

  /** The call does not close or move `fd`, and what it does to the file there is safe. */
  predicate Gentle(w: World, req: Request, fd: Fd)
    requires IsFile(w, fd)
  {
    match req
    case Close(f) => f != fd
    case Renumber(from, to) => from != fd && to != fd
    case Read(f, _, reply) =>
      f == fd ==> Cursor.Safe(View(w.open[fd], w.others), Cursor.Reads(if reply.Success? then reply.value.0 else 0))
    case Write(f, _, reply) =>
      f == fd ==> Cursor.Safe(View(w.open[fd], w.others), Cursor.Writes(if reply.Success? then reply.value else 0))
    case SetFlags(f, append, _) => f == fd ==> Cursor.Safe(View(w.open[fd], w.others), Cursor.SetsAppend(append))
    case _ => true
  }

  /** A slot that keeps its descriptor and its handles keeps its positions. */
  lemma {:induction false} SameView(w: World, w': World, fd: Fd)
    requires OwnedOnce(w) && IsFile(w, fd) && fd in w'.open && w'.open[fd] == w.open[fd]
    requires forall h :: h in HandlesOf(w.open[fd]) && h in w.others ==> h in w'.others && w'.others[h] == w.others[h]
    ensures View(w'.open[fd], w'.others) == View(w.open[fd], w.others)
  {
    hide Owned;
    SlotIsLive(w.open, w.others, fd);
  }

  lemma {:induction false} OthersMoveKeepsView(w: World, w': World, f: Fd, fd: Fd, m: Cursor.Move)
    requires OwnedOnce(w) && OwnedOnce(w') && IsFile(w, fd) && f != fd
    requires SlotMakes(w.open, w.others, w'.open, w'.others, f, m)
    ensures IsFile(w', fd) && View(w'.open[fd], w'.others) == View(w.open[fd], w.others)
  {
    hide View, HandlesOf;
    assert fd in w.open - {f} && w'.open[fd] == (w'.open - {f})[fd] == (w.open - {f})[fd];
    forall h | h in HandlesOf(w.open[fd]) && h in w.others ensures h in w'.others && w'.others[h] == w.others[h] {
      assert HandlesOf(w.open[f]) !! HandlesOf(w.open[fd]) && HandlesOf(w'.open[f]) !! HandlesOf(w'.open[fd]);
      assert h in w.others - HandlesOf(w.open[f]);
      assert h in w'.others - HandlesOf(w'.open[f]);
    }
    SameView(w, w', fd);
  }

  lemma {:induction false} TransferStaysInSync(w: World, f: Fd, forInput: bool, first: Option<u32>,
                                               moved: Result<u32, ()>, result: Result<u32, Failure>, out: Outcome,
                                               w': World, fd: Fd)
    requires OwnedOnce(w) && OwnedOnce(w') && FileInSync(w, fd)
    requires MayTransfer(w, f, forInput, first, moved, result, out, w')
    requires f == fd ==>
               Cursor.Safe(View(w.open[fd], w.others), MoveFor(forInput, if moved.Success? then moved.value else 0))
    ensures FileInSync(w', fd)
  {
    hide OwnedOnce, View, StreamError, OnlySlotChanges, Cursor.Step, Cursor.Safe, Cursor.InSync;
    var m := MoveFor(forInput, if moved.Success? then moved.value else 0);
    if w' != w {
      if f == fd {
        assert fd in w'.open by { SlotStays(w, w', fd); }
        Cursor.StaysInSyncIff(View(w.open[fd], w.others), m);
      } else {
        OthersMoveKeepsView(w, w', f, fd, m);
      }
    }
  }

  /** The streams that a poll makes stand at the recorded position. */
  lemma {:induction false} GrownStaysInSync(w: World, w': World, fd: Fd)
    requires OwnedOnce(w) && FileInSync(w, fd) && P.Grown(w.open, w.others, w'.open, w'.others)
    ensures FileInSync(w', fd)
  {
    hide Owned;
    SlotIsLive(w.open, w.others, fd);
  }

  lemma {:induction false} SlotStays(w: World, w': World, fd: Fd)
    requires OnlySlotChanges(w.open, w.others, w'.open, w'.others, fd)
    ensures fd in w'.open
  {
  }

  /** Calls on the table of descriptors leave a file's positions alone. */
  lemma {:induction false} TableCallKeepsView(w: World, req: Request, out: Outcome, w': World, fd: Fd)
    requires req.Open? || req.Close? || req.Renumber? || req.List?
    requires OwnedOnce(w) && May(w, req, out, w') && IsFile(w, fd) && Gentle(w, req, fd)
    ensures IsFile(w', fd) && View(w'.open[fd], w'.others) == View(w.open[fd], w.others)
  {
    hide View, HandlesOf, Expected;
    match req {
      case Open(_, _, _, _, _) => SameView(w, w', fd);
      case Close(f) =>
        if f in w.open {
          assert HandlesOf(w.open[f]) !! HandlesOf(w.open[fd]);
        }
        SameView(w, w', fd);
      case Renumber(_, to) =>
        if to in w.open {
          assert HandlesOf(w.open[to]) !! HandlesOf(w.open[fd]);
        }
        SameView(w, w', fd);
      case List(_, _, _, _, _) =>
    }
  }

  /** One call leaves a file in step, whichever slot the call is for. */
  lemma {:induction false} CallStaysInSync(w: World, req: Request, out: Outcome, w': World, fd: Fd)
    requires OwnedOnce(w) && OwnedOnce(w') && May(w, req, out, w') && FileInSync(w, fd) && Gentle(w, req, fd)
    ensures FileInSync(w', fd)
  {
    hide MayTransfer, StreamError, SeekTarget, Expected, View, Cursor.InSync, Cursor.Safe, HandlesOf,
      P.Grown, P.OnlyGains, P.NoStrays, P.Events, P.Polled, P.FirstError, L.FlatEvents;
    match req {
      case Poll(_, _, _, _) => GrownStaysInSync(w, w', fd);
      case Read(f, lens, reply) =>
        TransferStaysInSync(w, f, true, FirstLen(lens), if reply.Success? then Success(reply.value.0) else Failure(()),
                            ReadResult(FirstLen(lens), reply), out, w', fd);
      case Write(f, lens, reply) =>
        TransferStaysInSync(w, f, false, FirstLen(lens), reply,
                            if reply.Success? then Success(reply.value) else Failure(Error(IO)), out, w', fd);
      case Open(_, _, _, _, _) | Close(_) | Renumber(_, _) | List(_, _, _, _, _) =>
        TableCallKeepsView(w, req, out, w', fd);
      case Seek(f, _, _, _) =>
        if f != fd {
          SameView(w, w', fd);
        } else if w' != w {
          NoStreamsInSync(w'.open[fd], w'.others);
        }
      case SetFlags(f, append, nonblock) =>
        if f != fd {
          SameView(w, w', fd);
        } else if w' != w {
          FlagsAreMove(w.open[fd], w.others, append, nonblock);
          Cursor.StaysInSyncIff(View(w.open[fd], w.others), Cursor.SetsAppend(append));
        }
    }
  }

  lemma {:induction false} NoStreamsInSync(d: Descriptor, live: map<Handle, Resource>)
    requires d.Streams? && d.stype.File? && d.input == None && d.output == None
    ensures Cursor.InSync(View(d, live))
  {
  }

  lemma {:induction false} FlagsAreMove(d: Descriptor, live: map<Handle, Resource>, append: bool, nonblock: bool)
    requires d.Streams? && d.stype.File?
    ensures View(d.(stype := d.stype.(append := append, blocking := !nonblock)), live)
            == Cursor.Step(View(d, live), Cursor.SetsAppend(append))
  {
  }

  /** Over a whole run that is gentle to the file at `fd`, its recorded position is where its streams
      stand, whatever the run does to other descriptors. */
  lemma {:induction false} RunStaysInSync(worlds: seq<World>, reqs: seq<Request>, outs: seq<Outcome>, fd: Fd)
    requires |worlds| == |outs| + 1 && |outs| <= |reqs|
    requires forall i :: 0 <= i < |worlds| ==> OwnedOnce(worlds[i])
    requires forall i :: 0 <= i < |outs| ==> May(worlds[i], reqs[i], outs[i], worlds[i + 1])
    requires FileInSync(worlds[0], fd)
    requires forall i :: 0 <= i < |outs| && IsFile(worlds[i], fd) ==> Gentle(worlds[i], reqs[i], fd)
    ensures forall i :: 0 <= i < |worlds| ==> FileInSync(worlds[i], fd)
  {
    hide May, OwnedOnce, Gentle, IsFile, FileInSync;
    for k := 0 to |outs|
      invariant forall i :: 0 <= i <= k ==> FileInSync(worlds[i], fd)
    {
      assert IsFile(worlds[k], fd) by { InSyncIsFile(worlds[k], fd); }
      CallStaysInSync(worlds[k], reqs[k], outs[k], worlds[k + 1], fd);
    }
  }

  lemma {:induction false} InSyncIsFile(w: World, fd: Fd)
    requires FileInSync(w, fd)
    ensures IsFile(w, fd)
  {
  }
}
