/** A client that lists a whole directory, page after page. */
module WholeListing {
  import opened Wrappers
  import opened Bytes
  import opened Wasi
  import opened Resources
  import opened HandleTable
  import opened Dirents
  import opened DirentReader
  import opened Directories
  import opened State
  import opened Readdir
  import opened ReaddirClient
  import D = Descriptors

  /** `Stuck` is a full page without one whole entry: the client has no cookie to go on from. `Adrift` is
      a page whose length the call did not give. */
  datatype Listed = Complete(entries: seq<DirEntry>) | Stuck | Halted(why: Failure) | Adrift

  /** What a client has seen once it has got to `cookie`. */
  function Shown(all: seq<DirEntry>, cookie: nat, bufLen: nat): seq<DirEntry>
    requires cookie <= |all|
  {
    if SparesDots(bufLen) || cookie < 2 then all[..cookie] else all[..2] + [DOTDOT] + all[2..cookie]
  }

  /** The entry that a listing from the start returns once more behind the dots, if it returns one: `..`
      when the buffer does not spare the dots, and otherwise the cached `.` when the first call replays it. */
  function Repeated(st: State, fd: Fd, bufLen: nat): (again: Option<DirEntry>)
    reads st, st.cache, st.cache.pathData
  {
    if !SparesDots(bufLen) then Some(DOTDOT)
    else if Replays(st.cache, fd, 0, bufLen) && st.cache.dirent.namlen <= st.cache.pathData.Length then
      Some(st.cache.Cached())
    else None
  }

  /** What a client lists, with what buffer, and which entry it is given twice. */
  datatype Plan = Plan(src: Source, bufLen: nat, again: Option<DirEntry>)
  {
    ghost predicate Good()
    {
      && src.point.None?
      && match again
         case None => SparesDots(bufLen)
         case Some(e) => if SparesDots(bufLen) then Replayable(e) && bufLen > DotBytes(0) else e == DOTDOT
    }

    /** The walk that comes to the repeated entry. */
    function Twice(): Source
      requires again.Some?
    {
      Source(src.dotInode, src.listing, Some(AtDots(again.value)))
    }
  }

  ghost predicate Replayable(e: DirEntry)
  {
    GoodEntry(e) && e.dirent.next == 1 && |e.name| <= DIRENT_CACHE
  }

  /** How a listing may end. */
  ghost predicate Outcome(plan: Plan, r: Listed)
  {
    var all, end := EntriesFrom(plan.src, 0), EndFrom(plan.src, 0);
    && (r.Halted? ==> end == Some(r.why))
    && (r.Complete? ==>
          match plan.again
          case None => r.entries == all
          case Some(e) => |r.entries| >= 3 && r.entries[2] == e)
    && ((if SparesDots(plan.bufLen) then plan.again.None? else !Overflows(plan.src, plan.bufLen)) ==>
          && (r.Complete? <==> end.None? && AllFit(all, plan.bufLen))
          && (r.Complete? ==> r.entries == Shown(all, |all|, plan.bufLen)))
  }

  // ----- where the client has got to -----

  /** Where a client that lists from the start has got to: before the first page with a buffer that does
      not spare the dots; before a page that goes on from a cached `..`; in step with the directory; in step
      with the walk that comes to a cached `.` again; or in step with neither. */
  datatype Phase = AtStart | OnDotDot | Steady | Doubled | Astray

  function Rank(phase: Phase): nat
  {
    match phase
    case AtStart => 2
    case OnDotDot | Doubled => 1
    case _ => 0
  }

  function FirstPhase(plan: Plan): Phase
  {
    if plan.again.None? then Steady else if SparesDots(plan.bufLen) then Doubled else AtStart
  }

  function PhaseAfter(phase: Phase, plan: Plan, cookie: nat, hit: bool): Phase
  {
    match phase
    case AtStart => OnDotDot
    case OnDotDot => if cookie == 1 then OnDotDot else if Overflows(plan.src, plan.bufLen) then Astray else Steady
    case Doubled => if hit then Doubled else Astray
    case _ => phase
  }

  /** The batch holds entries, and more are to come. */
  predicate GoesOn(b: Batch) { b.Dirs? && !b.eof && b.dirs != [] }

  function NextCookie(b: Batch): u64
    requires GoesOn(b)
  {
    b.dirs[|b.dirs| - 1].dirent.next
  }

  /** What the client is to ask for next and what it has seen. */
  ghost predicate On(phase: Phase, plan: Plan, cookie: nat, seen: seq<DirEntry>)
  {
    var all, n := EntriesFrom(plan.src, 0), plan.bufLen;
    && plan.Good()
    && match phase
       case AtStart => !SparesDots(n) && cookie == 0 && seen == []
       case OnDotDot =>
         && !SparesDots(n) && 1 <= cookie <= 2
         && seen == if cookie == 1 then [Dot(plan.src.dotInode)] else [Dot(plan.src.dotInode), DOTDOT]
       case Steady =>
         && (SparesDots(n) ==> plan.again.None?)
         && (cookie >= 2 || (SparesDots(n) && (cookie == 0 || n <= DotBytes(1))))
         && cookie <= |all| && cookie <= Count(plan.src) && BrokenBefore(plan.src.listing, None, cookie).None?
         && AllFit(all[..cookie], n) && seen == Shown(all, cookie, n)
       case Doubled =>
         && SparesDots(n) && plan.again.Some? && cookie != 1 && InStep(plan.Twice(), cookie, seen)
       case Astray =>
         && plan.again.Some? && (SparesDots(n) || Overflows(plan.src, n))
         && cookie >= 1 && |seen| >= 3 && seen[2] == plan.again.value
  }

  /** The client has seen the entries of the walk up to `cookie`, all readable. */
  ghost predicate InStep(src: Source, cookie: nat, seen: seq<DirEntry>)
  {
    && cookie <= Count(src) && cookie <= |EntriesFrom(src, 0)|
    && BrokenBefore(src.listing, src.point, cookie).None?
    && seen == EntriesFrom(src, 0)[..cookie]
  }

  /** The walk `src` from `cookie` on, as a call makes it that goes on from where the walk got to. */
  ghost predicate Resumes(walk: Source, src: Source, cookie: nat)
  {
    if cookie == 0 then walk == src else Reached(src, cookie) && walk == Continued(src, cookie)
  }

  /** What the client's next call finds in the cache. */
  ghost predicate Ready(phase: Phase, st: State, fd: Fd, plan: Plan, cookie: u64)
    reads st, st.host, st.descriptors, st.descriptors.table, st.cache, st.cache.pathData
  {
    match phase
    case AtStart => st.Valid()
    case OnDotDot => Stands(st, fd, cookie, plan.src.(point := Some(AtDots(DOTDOT))))
    case Doubled =>
      plan.again.Some? && exists walk :: Stands(st, fd, cookie, walk) && Resumes(walk, plan.Twice(), cookie)
    case _ => (st.Valid() || !Hit(st.cache, fd, cookie)) && !Replays(st.cache, fd, cookie, plan.bufLen)
  }

  /** The next call hits, and makes the walk `walk`. */
  ghost predicate Stands(st: State, fd: Fd, cookie: u64, walk: Source)
    reads st, st.host, st.cache, st.cache.pathData
  {
    && Hit(st.cache, fd, cookie) && walk.point.Some?
    && StandingOf(st.cache, st.host.entries) == Some((walk.listing, walk.point.value))
  }

  /** The walk of the client's next call. */
  ghost predicate RightWalk(phase: Phase, walk: Source, plan: Plan, cookie: nat)
  {
    match phase
    case AtStart => GoodSource(walk) && walk.dotInode == plan.src.dotInode && walk.listing == plan.src.listing
                    && ReturnedAfter(walk, 1) == 0
    case OnDotDot => walk == plan.src.(point := Some(AtDots(DOTDOT)))
    case Doubled => plan.again.Some? && Resumes(walk, plan.Twice(), cookie)
    case _ => Expected(walk, cookie, plan.bufLen) == Expected(plan.src, cookie, plan.bufLen)
  }

  lemma {:induction false} OnFromStart(plan: Plan)
    requires plan.Good()
    ensures On(FirstPhase(plan), plan, 0, [])
  {
    assert EntriesFrom(plan.src, 0)[..0] == [];
    if plan.again.Some? {
      assert EntriesFrom(plan.Twice(), 0)[..0] == [];
    }
  }

  lemma {:induction false} ReadyFromStart(st: State, fd: Fd, plan: Plan)
    requires st.Valid() && plan.src.point.None? && plan.again == Repeated(st, fd, plan.bufLen)
    requires DirectoryAt(st.Open(), st.host.entries, fd) == Some(plan.src.listing)
    ensures st.Sound() && plan.Good() && Ready(FirstPhase(plan), st, fd, plan, 0)
    ensures SparesDots(plan.bufLen) ==> (plan.again.Some? <==> Replays(st.cache, fd, 0, plan.bufLen))
  {
    hide StandsAfter, Owned, DirectoryAt, D.WellFormed, D.OpenSlots;
    if Replays(st.cache, fd, 0, plan.bufLen) {
      CoherentStanding(st, fd, 0);
      StandsAtStart(plan.src.listing, StandingOf(st.cache, st.host.entries).value.1);
      assert Stands(st, fd, 0, plan.Twice());
    }
  }

  lemma {:induction false} StandsAtStart(l: Listing, p: Point)
    requires p == PointAt(0, p.entry, p.returned) && StandsAfter(l, 0, p.entry, p.returned)
    ensures GoodEntry(p.entry) && p.entry.dirent.next == 1 && p.returned == 0 && p == AtDots(p.entry)
  {
  }

  lemma {:induction false} ReadyKeepsValid(phase: Phase, st: State, fd: Fd, plan: Plan, cookie: u64)
    requires Ready(phase, st, fd, plan, cookie)
    ensures phase.Steady? || phase.Astray? ==>
              (st.Valid() || !Hit(st.cache, fd, cookie)) && !Replays(st.cache, fd, cookie, plan.bufLen)
  {
  }

  lemma {:induction false} WalkIsRight(phase: Phase, st: State, fd: Fd, plan: Plan, cookie: u64, seen: seq<DirEntry>)
    returns (walk: Source)
    requires st.Sound() && |st.Others()| + 1 < MAX_ENTRIES
    requires DirectoryAt(st.Open(), st.host.entries, fd) == Some(plan.src.listing)
    requires On(phase, plan, cookie, seen) && Ready(phase, st, fd, plan, cookie)
    ensures WalkOf(st, fd, cookie, Success(plan.src.dotInode), Success(())) == Success(walk)
    ensures RightWalk(phase, walk, plan, cookie)
  {
    hide Expected, StandingOf, DirectoryAt, WalkOf, StandsAfter, State.Sound, State.Coherent, State.Others,
      EntriesFrom, Count, BrokenBefore, AllFit, Shown, Overflows, InStep;
    var ino := plan.src.dotInode;
    AtMostOneMore(st);
    WalkOfCall(st, fd, cookie, ino, plan.src.listing);
    if phase.Steady? || phase.Astray? {
      AnswerIsExact(st, fd, cookie, plan.bufLen, ino);
    } else if phase.AtStart? && Hit(st.cache, fd, cookie) {
      CoherentStanding(st, fd, cookie);
      StandsAtStart(plan.src.listing, StandingOf(st.cache, st.host.entries).value.1);
    } else if phase.Doubled? {
      var resumed :| Stands(st, fd, cookie, resumed) && Resumes(resumed, plan.Twice(), cookie);
      assert resumed == Source(ino, resumed.listing, resumed.point);
    }
    walk := WalkOf(st, fd, cookie, Success(ino), Success(())).value;
  }

  /** One page further. */
  lemma {:induction false} Turn(phase: Phase, walk: Source, plan: Plan, cookie: nat, seen: seq<DirEntry>, hit: bool)
    requires On(phase, plan, cookie, seen) && RightWalk(phase, walk, plan, cookie)
    requires var b := BatchOf(Expected(walk, cookie, plan.bufLen), plan.bufLen);
             phase.Doubled? && GoesOn(b) ==> if hit then NextCookie(b) != 1 else |seen + b.dirs| >= 3
    ensures Goes(phase, plan, cookie, seen, BatchOf(Expected(walk, cookie, plan.bufLen), plan.bufLen), hit)
  {
    hide BatchOf, Expected, EntriesFrom, EndFrom, Overflows, AllFit, Shown, BrokenBefore, Count, ItemAt, Goes, InStep;
    match phase
    case AtStart =>
      FirstYieldsDot(walk, plan.bufLen);
      DotGoes(plan);
    case OnDotDot =>
      if cookie == 1 {
        SecondYieldsDotDot(walk, plan.bufLen);
        DotDotGoes(plan);
      } else {
        ReplayGoes(plan, walk);
      }
    case Steady =>
      ReplyGivesBatch(plan.src, cookie, plan.bufLen);
      SteadyGoes(plan, cookie, seen, BatchOf(Expected(plan.src, cookie, plan.bufLen), plan.bufLen));
    case Doubled =>
      DoubledBatch(plan, walk, cookie, seen);
      DoubledGoes(plan, cookie, seen, BatchOf(Expected(walk, cookie, plan.bufLen), plan.bufLen), hit);
    case Astray =>
      AstrayGoes(plan, cookie, seen);
  }

  /** A batch ends the listing as it may end, or takes the client on. */
  ghost predicate Goes(phase: Phase, plan: Plan, cookie: nat, seen: seq<DirEntry>, b: Batch, hit: bool)
  {
    match b
    case Refused(why) => Outcome(plan, Halted(why))
    case Unset => Outcome(plan, Adrift)
    case Dirs(dirs, eof) =>
      if eof then Outcome(plan, Complete(seen + dirs))
      else if dirs == [] then Outcome(plan, Stuck)
      else
        var next, later := dirs[|dirs| - 1].dirent.next, PhaseAfter(phase, plan, cookie, hit);
        && On(later, plan, next, seen + dirs) && next <= Count(plan.src) + 2
        && (Rank(later) < Rank(phase) || (Rank(later) == Rank(phase) && cookie < next))
  }

  lemma {:induction false} DotGoes(plan: Plan)
    requires plan.Good() && !SparesDots(plan.bufLen)
    ensures forall hit :: Goes(AtStart, plan, 0, [], Dirs([Dot(plan.src.dotInode)], false), hit)
  {
  }

  lemma {:induction false} DotDotGoes(plan: Plan)
    requires plan.Good() && !SparesDots(plan.bufLen)
    ensures forall hit :: Goes(OnDotDot, plan, 1, [Dot(plan.src.dotInode)], Dirs([DOTDOT], false), hit)
  {
  }

  /** The dots are the first two entries. */
  lemma {:induction false} DotsThen(src: Source)
    ensures |EntriesFrom(src, 0)| >= 2 && EntriesFrom(src, 0)[..2] == [Dot(src.dotInode), DOTDOT]
    ensures EndFrom(src, 0) == EndFrom(src, 2)
    ensures EntriesFrom(src, 0)[2..] == EntriesFrom(src, 2)
  {
    EntriesStep(src, 0);
    EntriesStep(src, 1);
  }

  /** After the page with the replayed `..` the client is back in step, if it goes on at all. */
  lemma {:induction false} ReplayGoes(plan: Plan, walk: Source)
    requires plan.Good() && walk == plan.src.(point := Some(AtDots(DOTDOT))) && !SparesDots(plan.bufLen)
    ensures forall hit :: Goes(OnDotDot, plan, 2, [Dot(plan.src.dotInode), DOTDOT],
                               BatchOf(Expected(walk, 2, plan.bufLen), plan.bufLen), hit)
  {
    hide BatchOf, Expected, Remembered;
    ThirdYieldsDotDot(walk, plan.bufLen);
    DotsThen(plan.src);
    assert plan.src == walk.(point := None);
    assert |Encode(Dot(plan.src.dotInode))| == 25 && |Encode(DOTDOT)| == 26;
    assert AllFit([Dot(plan.src.dotInode), DOTDOT], plan.bufLen);
  }

  lemma {:induction false} SteadyGoes(plan: Plan, cookie: nat, seen: seq<DirEntry>, b: Batch)
    requires On(Steady, plan, cookie, seen)
    requires GoodBatch(EntriesFrom(plan.src, 0), EndFrom(plan.src, 0), cookie, plan.bufLen, b)
    ensures forall hit :: Goes(Steady, plan, cookie, seen, b, hit)
  {
    hide EntriesFrom, EndFrom, BrokenBefore, AllFit, Encode, ItemAt, Count, Overflows, Outcome, Shown, SparesDots;
    if GoesOn(b) {
      SteadyOn(plan, cookie, seen, b.dirs);
    } else {
      SteadyEnds(plan, cookie, seen, b);
    }
  }

  lemma {:induction false} SteadyOn(plan: Plan, cookie: nat, seen: seq<DirEntry>, dirs: seq<DirEntry>)
    requires On(Steady, plan, cookie, seen) && dirs != []
    requires GoodBatch(EntriesFrom(plan.src, 0), EndFrom(plan.src, 0), cookie, plan.bufLen, Dirs(dirs, false))
    ensures dirs[|dirs| - 1].dirent.next == cookie + |dirs| <= Count(plan.src)
    ensures On(Steady, plan, cookie + |dirs|, seen + dirs)
  {
    hide EntriesFrom, EndFrom, BrokenBefore, AllFit, Encode, ItemAt, Count, Shown;
    var all := EntriesFrom(plan.src, 0);
    BatchExtends(all, cookie, dirs, plan.bufLen);
    ShownExtends(all, cookie, dirs, plan.bufLen);
    NextIsPosition(plan.src, cookie + |dirs| - 1);
  }

  lemma {:induction false} SteadyEnds(plan: Plan, cookie: nat, seen: seq<DirEntry>, b: Batch)
    requires On(Steady, plan, cookie, seen) && !GoesOn(b)
    requires GoodBatch(EntriesFrom(plan.src, 0), EndFrom(plan.src, 0), cookie, plan.bufLen, b)
    ensures forall hit :: Goes(Steady, plan, cookie, seen, b, hit)
  {
    hide EntriesFrom, EndFrom, BrokenBefore, AllFit, Encode, ItemAt, Count, Overflows, Shown;
    if b.Dirs? && b.eof {
      ShownInFull(EntriesFrom(plan.src, 0), cookie, b.dirs, plan.bufLen);
    }
  }

  lemma {:induction false} ShownInFull(all: seq<DirEntry>, cookie: nat, dirs: seq<DirEntry>, bufLen: nat)
    requires cookie + |dirs| == |all| && dirs == all[cookie..cookie + |dirs|]
    requires SparesDots(bufLen) || cookie >= 2
    requires AllFit(all[..cookie], bufLen) && AllFit(dirs, bufLen)
    ensures Shown(all, cookie, bufLen) + dirs == Shown(all, |all|, bufLen) && AllFit(all, bufLen)
    ensures if SparesDots(bufLen) then Shown(all, |all|, bufLen) == all
            else |Shown(all, |all|, bufLen)| >= 3 && Shown(all, |all|, bufLen)[2] == DOTDOT
  {
    hide AllFit;
    BatchExtends(all, cookie, dirs, bufLen);
    ShownExtends(all, cookie, dirs, bufLen);
  }

  lemma {:induction false} ShownExtends(all: seq<DirEntry>, cookie: nat, dirs: seq<DirEntry>, bufLen: nat)
    requires cookie + |dirs| <= |all| && dirs == all[cookie..cookie + |dirs|]
    requires SparesDots(bufLen) || cookie >= 2
    ensures Shown(all, cookie, bufLen) + dirs == Shown(all, cookie + |dirs|, bufLen)
  {
    if SparesDots(bufLen) {
      BatchExtends(all, cookie, dirs, bufLen);
    } else {
      assert all[2..cookie] + dirs == all[2..cookie + |dirs|];
    }
  }

  lemma {:induction false} AstrayGoes(plan: Plan, cookie: nat, seen: seq<DirEntry>)
    requires On(Astray, plan, cookie, seen)
    ensures forall hit :: Goes(Astray, plan, cookie, seen,
                               BatchOf(Expected(plan.src, cookie, plan.bufLen), plan.bufLen), hit)
  {
    hide ParseAll, EntriesFrom, EndFrom, BrokenBefore, AllFit, Encode, Flat;
    var reply := Expected(plan.src, cookie, plan.bufLen);
    if reply.Failed? {
      FailureIsEnd(plan.src, cookie);
    } else if reply.Page? {
      PageYields(plan.src, cookie, plan.bufLen);
      var dirs := ParseAll(reply.bytes);
      if dirs != [] {
        NextIsPositionFrom(plan.src, cookie, |dirs| - 1);
      }
    }
  }

  // ----- a listing that begins with a replayed dot -----

  lemma {:induction false} TwiceBasics(plan: Plan)
    requires plan.Good() && plan.again.Some?
    ensures var twice := plan.Twice();
            && GoodSource(twice) && ItemAt(twice, 2) == Some(Entry(plan.again.value))
            && EndFrom(twice, 0) == EndFrom(plan.src, 0) && Count(twice) == Count(plan.src) + 1
            && |EntriesFrom(twice, 0)| >= 3 && EntriesFrom(twice, 0)[2] == plan.again.value
  {
    var twice := plan.Twice();
    DotsThen(twice);
    DotsThen(plan.src);
    EntriesStep(twice, 2);
    ReplayedTail(plan.src.dotInode, plan.src.listing, plan.again.value);
  }

  /** Whether a call goes on from the dots or further on, its page is the walk's own. */
  lemma {:induction false} ResumedIsExact(walk: Source, src: Source, cookie: nat, n: nat)
    requires Resumes(walk, src, cookie) && BrokenBefore(src.listing, src.point, cookie).None?
    ensures Expected(walk, cookie, n) == Expected(src, cookie, n)
    ensures walk.listing == src.listing && walk.dotInode == src.dotInode
    ensures Remembered(walk, cookie, n) == Remembered(src, cookie, n)
    ensures Remembered(src, cookie, n).Some? ==>
              var k := Remembered(src, cookie, n).value;
              ItemAt(walk, k) == ItemAt(src, k) && ReturnedAfter(walk, k) == ReturnedAfter(src, k)
  {
    if cookie > 0 {
      ContinuingIsExact(src, cookie, n);
      if Remembered(src, cookie, n).Some? {
        ContinuesAt(src, cookie, Remembered(src, cookie, n).value);
      }
    }
  }

  lemma {:induction false} DoubledBatch(plan: Plan, walk: Source, cookie: nat, seen: seq<DirEntry>)
    requires On(Doubled, plan, cookie, seen) && RightWalk(Doubled, walk, plan, cookie)
    ensures GoodBatch(EntriesFrom(plan.Twice(), 0), EndFrom(plan.Twice(), 0), cookie, plan.bufLen,
                      BatchOf(Expected(walk, cookie, plan.bufLen), plan.bufLen))
  {
    hide Expected, BatchOf, EntriesFrom, EndFrom, BrokenBefore, Count, GoodBatch;
    TwiceBasics(plan);
    ResumedIsExact(walk, plan.Twice(), cookie, plan.bufLen);
    ReplyGivesBatch(plan.Twice(), cookie, plan.bufLen);
  }

  /** Past the repeated entry, every cookie of the walk that comes to it is the position behind. */
  lemma {:induction false} NextInTwice(src: Source, from: nat, i: nat)
    requires src.point.Some? && src.point.value.at == 2 && i < |EntriesFrom(src, from)|
    requires BrokenBefore(src.listing, src.point, from).None?
    ensures from + i != 2 ==> EntriesFrom(src, from)[i].dirent.next == from + i + 1
    ensures from + i == 2 ==> EntriesFrom(src, from)[i] == src.point.value.entry
    ensures BrokenBefore(src.listing, src.point, from + i + 1).None? && from + i < Count(src)
    decreases i
  {
    ReadableExtends(src, from);
    EntriesStep(src, from);
    if i > 0 {
      NextInTwice(src, from + 1, i - 1);
    }
  }

  lemma {:induction false} DoubledOn(plan: Plan, cookie: nat, seen: seq<DirEntry>, dirs: seq<DirEntry>)
    requires On(Doubled, plan, cookie, seen) && dirs != []
    requires GoodBatch(EntriesFrom(plan.Twice(), 0), EndFrom(plan.Twice(), 0), cookie, plan.bufLen, Dirs(dirs, false))
    ensures var next := dirs[|dirs| - 1].dirent.next;
            && next == (if cookie + |dirs| == 3 then 1 else cookie + |dirs|) <= Count(plan.src) + 1
            && InStep(plan.Twice(), cookie + |dirs|, seen + dirs)
  {
    hide EntriesFrom, EndFrom, BrokenBefore, AllFit, Encode, ItemAt, Count, InStep;
    TwiceBasics(plan);
    var twice := plan.Twice();
    NothingBrokenAtStart(twice);
    NextInTwice(twice, 0, cookie + |dirs| - 1);
    InStepExtends(twice, cookie, seen, dirs);
  }

  lemma {:induction false} InStepExtends(src: Source, cookie: nat, seen: seq<DirEntry>, dirs: seq<DirEntry>)
    requires InStep(src, cookie, seen) && dirs != []
    requires cookie + |dirs| <= |EntriesFrom(src, 0)| && dirs == EntriesFrom(src, 0)[cookie..cookie + |dirs|]
    requires cookie + |dirs| <= Count(src) && BrokenBefore(src.listing, src.point, cookie + |dirs|).None?
    ensures InStep(src, cookie + |dirs|, seen + dirs)
    ensures dirs[|dirs| - 1] == EntriesFrom(src, 0)[cookie + |dirs| - 1]
  {
    hide EntriesFrom, BrokenBefore, Count;
  }

  /** A client in step with that walk that has seen three entries has seen the repeated one. */
  lemma {:induction false} InStepSeesTwice(plan: Plan, cookie: nat, seen: seq<DirEntry>)
    requires plan.Good() && plan.again.Some? && InStep(plan.Twice(), cookie, seen) && |seen| >= 3
    ensures seen[2] == plan.again.value
  {
    hide EntriesFrom, EndFrom, BrokenBefore, ItemAt, Count;
    TwiceBasics(plan);
  }

  lemma {:induction false} DoubledEnds(plan: Plan, cookie: nat, seen: seq<DirEntry>, dirs: seq<DirEntry>)
    requires On(Doubled, plan, cookie, seen)
    requires GoodBatch(EntriesFrom(plan.Twice(), 0), EndFrom(plan.Twice(), 0), cookie, plan.bufLen, Dirs(dirs, true))
    ensures Outcome(plan, Complete(seen + dirs))
  {
    hide EntriesFrom, EndFrom, BrokenBefore, AllFit, Encode, ItemAt, Count, Overflows, Shown;
    TwiceBasics(plan);
    BatchExtends(EntriesFrom(plan.Twice(), 0), cookie, dirs, plan.bufLen);
  }

  lemma {:induction false} DoubledGoes(plan: Plan, cookie: nat, seen: seq<DirEntry>, b: Batch, hit: bool)
    requires On(Doubled, plan, cookie, seen)
    requires GoodBatch(EntriesFrom(plan.Twice(), 0), EndFrom(plan.Twice(), 0), cookie, plan.bufLen, b)
    requires GoesOn(b) ==> if hit then NextCookie(b) != 1 else |seen + b.dirs| >= 3
    ensures Goes(Doubled, plan, cookie, seen, b, hit)
  {
    hide EntriesFrom, EndFrom, BrokenBefore, AllFit, Encode, ItemAt, Count, Overflows, Shown, InStep;
    TwiceBasics(plan);
    if GoesOn(b) {
      DoubledOn(plan, cookie, seen, b.dirs);
      if |seen + b.dirs| >= 3 {
        InStepSeesTwice(plan, cookie + |b.dirs|, seen + b.dirs);
      }
    } else if b.Dirs? && b.eof {
      DoubledEnds(plan, cookie, seen, b.dirs);
    } else if b.Refused? {
      assert EndFrom(plan.Twice(), 0) == Some(b.why);
    }
  }

  /** A page that is not full, or fails, leaves nothing in the cache. */
  lemma {:induction false} NotFilled(src: Source, k: nat, n: nat)
    requires |Flat(EntriesFrom(src, k))| < n
    ensures Filler(src, k, n).None?
    decreases n
  {
    hide ItemAt, Encode, EntriesFrom, Flat, Count;
    if ItemAt(src, k).Some? && ItemAt(src, k).value.Entry? {
      FlatStep(src, k);
      if |Encode(ItemAt(src, k).value.e)| < n {
        NotFilled(src, k + 1, n - |Encode(ItemAt(src, k).value.e)|);
      }
    }
  }

  lemma {:induction false} EndsLeaveNothing(src: Source, cookie: nat, n: nat)
    requires match BatchOf(Expected(src, cookie, n), n)
             case Dirs(_, eof) => eof
             case _ => true
    ensures Remembered(src, cookie, n).None?
  {
    hide ParseAll, Filler, EntriesFrom, EndFrom, ItemAt;
    if BrokenBefore(src.listing, src.point, cookie).None? {
      if cookie <= Count(src) {
        NotFilled(src, cookie, n);
      } else {
        NothingPastEnd(src, cookie, n);
      }
    }
  }

  lemma {:induction false} NothingPastEnd(src: Source, k: nat, n: nat)
    requires k >= Count(src)
    ensures Filler(src, k, n).None?
  {
  }

  lemma {:induction false} TwoWhole(es: seq<DirEntry>, n: nat)
    requires |es| >= 3 && |Encode(es[0])| == 25 && |Encode(es[1])| == 26 && Whole(es, n) == 2
    ensures |Encode(es[2])| > n - 51
  {
    hide Encode;
    WholeAfterFirst(es, n);
    WholeAfterFirst(es[1..], n - 25);
    WholeAfterFirst(es[1..][1..], n - 51);
    assert es[1..][1..][0] == es[2];
  }

  lemma {:induction false} FilledAtTwo(src: Source, n: nat)
    requires n > 51 && ItemAt(src, 2).Some? && ItemAt(src, 2).value.Entry?
    requires |Encode(ItemAt(src, 2).value.e)| >= n - 51
    ensures Filler(src, 0, n) == Some(2)
  {
    assert |Encode(Dot(src.dotInode))| == 25 && |Encode(DOTDOT)| == 26;
    assert Filler(src, 2, n - 51) == Some(2);
    assert Filler(src, 1, n - 25) == Some(2);
  }

  /** If the first page ends within the repeated entry, that is what it leaves in the cache. */
  lemma {:induction false} DoubledStops(plan: Plan)
    requires plan.Good() && plan.again.Some? && SparesDots(plan.bufLen)
    ensures var b := BatchOf(Expected(plan.Twice(), 0, plan.bufLen), plan.bufLen);
            b.Dirs? && !b.eof && |b.dirs| == 2 ==> Remembered(plan.Twice(), 0, plan.bufLen) == Some(2)
  {
    hide ParseAll, EntriesFrom, EndFrom, Encode, Flat, Whole, Filler, Count;
    TwiceBasics(plan);
    var twice, n := plan.Twice(), plan.bufLen;
    var b, es := BatchOf(Expected(twice, 0, n), n), EntriesFrom(twice, 0);
    if b.Dirs? && !b.eof && |b.dirs| == 2 {
      PageYields(twice, 0, n);
      DotsThen(twice);
      DotSizes(twice);
      TwoWhole(es, n);
      FilledAtTwo(twice, n);
    }
  }

  lemma {:induction false} DotSizes(src: Source)
    ensures |EntriesFrom(src, 0)| >= 2
    ensures |Encode(EntriesFrom(src, 0)[0])| == 25 && |Encode(EntriesFrom(src, 0)[1])| == 26
  {
    DotsThen(src);
    var es := EntriesFrom(src, 0);
    assert es[0] == es[..2][0] && es[1] == es[..2][1];
  }

  /** After a page the cache holds what the client's next call is to find there, and the state is valid
      if the listing ends. */
  lemma {:induction false} ReadyAgain(phase: Phase, st: State, fd: Fd, walk: Source, plan: Plan, cookie: u64,
                                      seen: seq<DirEntry>)
    requires st.Sound() && RightWalk(phase, walk, plan, cookie)
    requires On(phase, plan, cookie, seen) && Saved(st.host, st.cache, fd, Success(walk), cookie, plan.bufLen)
    requires phase.Steady? || phase.Astray? ==> st.Valid()
    requires st.cache.stream.None? ==> st.Valid()
    ensures var b := BatchOf(Expected(walk, cookie, plan.bufLen), plan.bufLen);
            if GoesOn(b) then
              var hit := Hit(st.cache, fd, NextCookie(b));
              && Ready(PhaseAfter(phase, plan, cookie, hit), st, fd, plan, NextCookie(b))
              && (phase.Doubled? ==> if hit then NextCookie(b) != 1 else |seen + b.dirs| >= 3)
            else st.Valid() || (b == Dirs([], false) && SparesDots(plan.bufLen) && plan.again.Some?)
  {
    hide BatchOf, Expected, Saved, State.Sound, State.Coherent, StandingOf, EntriesFrom, AllFit, Shown, Remembered,
      InStep;
    match phase
    case AtStart =>
      FirstYieldsDot(walk, plan.bufLen);
      SavedStands(st.host, st.cache, fd, walk, 0, plan.bufLen);
    case OnDotDot =>
      if cookie == 1 {
        SecondYieldsDotDot(walk, plan.bufLen);
        SavedStands(st.host, st.cache, fd, walk, 1, plan.bufLen);
      } else {
        ThirdYieldsDotDot(walk, plan.bufLen);
        SavedIsAt(st.host, st.cache, fd, walk, 2, plan.bufLen);
      }
    case Doubled =>
      DoubledAgain(st, fd, walk, plan, cookie, seen);
    case _ =>
      Turn(phase, walk, plan, cookie, seen, false);
  }

  lemma {:induction false} DoubledAgain(st: State, fd: Fd, walk: Source, plan: Plan, cookie: u64, seen: seq<DirEntry>)
    requires RightWalk(Doubled, walk, plan, cookie) && On(Doubled, plan, cookie, seen)
    requires Saved(st.host, st.cache, fd, Success(walk), cookie, plan.bufLen)
    ensures var b := BatchOf(Expected(walk, cookie, plan.bufLen), plan.bufLen);
            if GoesOn(b) then
              var hit := Hit(st.cache, fd, NextCookie(b));
              && (hit ==> Ready(Doubled, st, fd, plan, NextCookie(b)) && NextCookie(b) != 1)
              && (!hit ==> |seen + b.dirs| >= 3)
            else st.cache.stream.None? || b == Dirs([], false)
  {
    hide BatchOf, Expected, Saved, StandingOf, EntriesFrom, EndFrom, AllFit, Shown, Remembered, Count, BrokenBefore,
      ItemAt, Reached, Continued, ReturnedAfter;
    var b, twice, n := BatchOf(Expected(walk, cookie, plan.bufLen), plan.bufLen), plan.Twice(), plan.bufLen;
    ResumedIsExact(walk, twice, cookie, n);
    SavedIsAt(st.host, st.cache, fd, walk, cookie, n);
    if GoesOn(b) {
      if Hit(st.cache, fd, NextCookie(b)) {
        SavedStands(st.host, st.cache, fd, walk, cookie, n);
        DoubledResumes(plan, cookie, NextCookie(b));
        assert Stands(st, fd, NextCookie(b), Continued(twice, NextCookie(b)));
      } else if cookie == 0 {
        DoubledBatch(plan, walk, cookie, seen);
        DoubledStops(plan);
        NothingBrokenAtStart(twice);
        TwiceBasics(plan);
        NextInTwice(twice, 0, 1);
        if |b.dirs| == 2 {
          SavedStands(st.host, st.cache, fd, walk, cookie, n);
        }
      }
    } else if b != Dirs([], false) {
      EndsLeaveNothing(walk, cookie, n);
    }
  }

  /** What the walk leaves in the cache is where a later call goes on with it. */
  lemma {:induction false} DoubledResumes(plan: Plan, cookie: nat, k: u64)
    requires plan.Good() && plan.again.Some? && SparesDots(plan.bufLen) && cookie != 1
    requires BrokenBefore(plan.src.listing, plan.Twice().point, cookie).None?
    requires Remembered(plan.Twice(), cookie, plan.bufLen) == Some(k)
    ensures var twice := plan.Twice();
            && k >= 2 && Reached(twice, k) && k <= ReturnedAfter(twice, k) + 2
            && Continued(twice, k).point
               == Some(PointAt(k, ItemAt(twice, k).value.e, ReturnedAfter(twice, k)))
            && Continued(twice, k).listing == twice.listing
  {
    FillerAndDots(plan.Twice(), cookie, plan.bufLen);
  }

  lemma {:induction false} SavedIsAt(host: Table<Resource>, cache: DirentCache, fd: Fd, src: Source, cookie: u64,
                                     n: nat)
    requires Saved(host, cache, fd, Success(src), cookie, n)
    ensures Remembered(src, cookie, n) == if cache.stream.Some? then Some(cache.cookie) else None
  {
  }

  /** When every entry is readable and fits, the client sees just the directory exactly if it is given no
      dot twice. */
  lemma {:induction false} OutcomeDecides(plan: Plan, r: Listed)
    requires plan.Good() && Outcome(plan, r)
    ensures EndFrom(plan.src, 0).None? && AllFit(EntriesFrom(plan.src, 0), plan.bufLen) ==>
              (r == Complete(EntriesFrom(plan.src, 0)) <==> plan.again.None?)
  {
    hide EntriesFrom, EndFrom, AllFit, Encode;
    var all := EntriesFrom(plan.src, 0);
    if plan.again.Some? && r == Complete(all) {
      NextIsPosition(plan.src, 2);
    }
    assert SparesDots(plan.bufLen) ==> Shown(all, |all|, plan.bufLen) == all;
  }

  // ----- the listing itself -----

  /** Lists the directory open at `fd`: reads a page, keeps the entries that are whole on it, goes on
      at the last one's cookie, and stops at a page that is not full. It always ends. If its buffer spares
      the dots and its first call does not replay one, it completes exactly when every entry is readable
      and fits the buffer, and then it has seen every entry once, in order. Otherwise it is given a dot
      twice, and so never sees just the directory. */
  method List(st: State, fd: Fd, bufLen: nat, ino: u64) returns (r: Listed)
    requires st.Valid()
    requires DirectoryAt(st.Open(), st.host.entries, fd).Some?
    requires |st.Others()| + 1 < MAX_ENTRIES
    modifies st.host, st.cache, st.cache.pathData
    ensures st.Sound() && st.Others() == old(st.Others())
    ensures !r.Stuck? || !old(Replays(st.cache, fd, 0, bufLen)) ==> st.Valid()
    ensures var src := Source(ino, DirectoryAt(old(st.Open()), old(st.host.entries), fd).value, None);
            && Outcome(Plan(src, bufLen, old(Repeated(st, fd, bufLen))), r)
            && (EndFrom(src, 0).None? && AllFit(EntriesFrom(src, 0), bufLen) ==>
                  (r == Complete(EntriesFrom(src, 0))
                   <==> SparesDots(bufLen) && !old(Replays(st.cache, fd, 0, bufLen))))
  {
    hide On, Outcome, RightWalk, BatchOf, Expected, EntriesFrom, EndFrom, AllFit, Count, Overflows, SparesDots, Hit,
      Replays, Repeated, Saved, StandingOf, WalkOf, DirectoryAt, State.Sound, State.Coherent, State.Others, Plan.Good,
      Ready;
    ghost var l := DirectoryAt(st.Open(), st.host.entries, fd).value;
    ghost var plan := Plan(Source(ino, l, None), bufLen, Repeated(st, fd, bufLen));
    ghost var phase := FirstPhase(plan);
    var cookie: u64, seen := 0, [];
    ReadyFromStart(st, fd, plan);
    OnFromStart(plan);
    while true
      invariant st.Sound() && st.Others() == old(st.Others())
      invariant DirectoryAt(st.Open(), st.host.entries, fd) == Some(l)
      invariant On(phase, plan, cookie, seen) && cookie <= Count(plan.src) + 2
      invariant Ready(phase, st, fd, plan, cookie)
      decreases Rank(phase), Count(plan.src) + 2 - cookie
    {
      ghost var walk := WalkIsRight(phase, st, fd, plan, cookie, seen);
      ReadyKeepsValid(phase, st, fd, plan, cookie);
      var batch := ExecReaddir(st, fd, cookie, bufLen, ino, walk);
      ReadyAgain(phase, st, fd, walk, plan, cookie, seen);
      ghost var hit := GoesOn(batch) && Hit(st.cache, fd, NextCookie(batch));
      Turn(phase, walk, plan, cookie, seen, hit);
      if batch.Refused? {
        r := Halted(batch.why);
        break;
      }
      if batch.Unset? {
        r := Adrift;
        break;
      }
      seen := seen + batch.dirs;
      if batch.eof {
        r := Complete(seen);
        break;
      }
      if batch.dirs == [] {
        r := Stuck;
        break;
      }
      phase := PhaseAfter(phase, plan, cookie, hit);
      cookie := batch.dirs[|batch.dirs| - 1].dirent.next;
    }
    OutcomeDecides(plan, r);
  }
}
