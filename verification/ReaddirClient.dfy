/** What a client of `fd_readdir` gets from one page. */
module ReaddirClient {
  import opened Wrappers
  import opened Bytes
  import opened Wasi
  import opened HandleTable
  import opened Dirents
  import opened DirentReader
  import opened Directories
  import opened State
  import opened Readdir

  /** One page as the client takes it: the entries that are whole on it, and whether it was the last.
      `Unset` is a call that succeeds without giving a length. */
  datatype Batch = Dirs(dirs: seq<DirEntry>, eof: bool) | Refused(why: Failure) | Unset

  function BatchOf(reply: Reply, bufLen: nat): Batch
  {
    match reply
    case Page(bytes) => Dirs(ParseAll(bytes), |bytes| < bufLen)
    case Failed(why) => Refused(why)
    case PastEnd => Unset
  }

  ghost predicate AllFit(es: seq<DirEntry>, bufLen: nat)
  {
    forall i :: 0 <= i < |es| ==> |Encode(es[i])| <= bufLen
  }

  /** Every call that misses the cache, or from a valid state does not replay a dot, answers what reading
      the directory anew would. */
  lemma {:induction false} AnswerIsExact(st: State, fd: Fd, cookie: u64, n: nat, ino: u64)
    requires st.Valid() || !Hit(st.cache, fd, cookie)
    requires !Replays(st.cache, fd, cookie, n) && DirectoryAt(st.Open(), st.host.entries, fd).Some?
    requires |st.host.entries| < MAX_ENTRIES
    ensures var walk := WalkOf(st, fd, cookie, Success(ino), Success(()));
            && walk.Success?
            && Expected(walk.value, cookie, n)
               == Expected(Source(ino, DirectoryAt(st.Open(), st.host.entries, fd).value, None), cookie, n)
  {
    hide Expected, State.Valid, StandingOf, DirectoryAt, WalkOf, StandsAfter, PointAt;
    var l := DirectoryAt(st.Open(), st.host.entries, fd).value;
    WalkOfCall(st, fd, cookie, ino, l);
    if Hit(st.cache, fd, cookie) {
      CoherentStanding(st, fd, cookie);
      var p := StandingOf(st.cache, st.host.entries).value.1;
      HitIsExactIff(l, cookie, p.entry, p.returned, ino, n);
    }
  }

  /** The entries on a page, and what is left to list after it. */
  lemma {:induction false} OnePage(src: Source, cookie: nat, bufLen: nat, page: seq<byte>)
    requires GoodSource(src) && cookie <= Count(src) && BrokenBefore(src.listing, src.point, cookie).None?
    requires Expected(src, cookie, bufLen) == Page(page)
    ensures cookie <= |EntriesFrom(src, 0)|
    ensures var m := |ParseAll(page)|;
            && cookie + m <= |EntriesFrom(src, 0)|
            && ParseAll(page) == EntriesFrom(src, 0)[cookie..cookie + m]
            && AllFit(ParseAll(page), bufLen)
            && (|page| < bufLen ==> cookie + m == |EntriesFrom(src, 0)| && EndFrom(src, 0).None?)
            && (|page| >= bufLen && m == 0 ==> !AllFit(EntriesFrom(src, 0), bufLen))
            && (cookie == 0 && bufLen >= DotBytes(0) ==> m >= 2)
  {
    hide Encode, ParseAll, EntriesFrom, EndFrom, Flat;
    EntriesFromIsTail(src, cookie);
    EntriesAreGood(src, cookie);
    var es, n := EntriesFrom(src, cookie), Min(bufLen, |Flat(EntriesFrom(src, cookie))|);
    ParsePage(es, n);
    WholeFits(es, n);
    if |page| < bufLen {
      WholeOfAll(es, n);
    } else if bufLen > 0 && Whole(es, n) == 0 {
      assert es[0] == EntriesFrom(src, 0)[cookie];
    } else if bufLen == 0 {
      DotNeedsRoom(src);
    }
    if cookie == 0 && bufLen >= DotBytes(0) {
      DotsAreWhole(src, n);
    }
  }

  lemma {:induction false} DotNeedsRoom(src: Source)
    ensures !AllFit(EntriesFrom(src, 0), 0)
  {
    assert EntriesFrom(src, 0)[0] == Dot(src.dotInode);
  }

  /** A buffer that holds the dots holds them both whole. */
  lemma {:induction false} DotsAreWhole(src: Source, n: nat)
    ensures |Flat(EntriesFrom(src, 0))| >= DotBytes(0)
    ensures n >= DotBytes(0) ==> Whole(EntriesFrom(src, 0), n) >= 2
  {
    DotsComeFirst(src, 0);
    EntriesStep(src, 0);
    EntriesStep(src, 1);
    var es := EntriesFrom(src, 0);
    assert es[0] == Dot(src.dotInode) && es[1..][0] == DOTDOT;
    assert |Encode(es[0])| == 25 && |Encode(DOTDOT)| == 26;
    if n >= 51 {
      assert Whole(es, n) == 1 + Whole(es[1..], n - 25);
    }
  }

  lemma {:induction false} WholeFits(es: seq<DirEntry>, n: nat)
    requires n <= |Flat(es)|
    ensures AllFit(es[..Whole(es, n)], n)
    ensures n > 0 ==> es != [] && (Whole(es, n) == 0 ==> |Encode(es[0])| > n)
  {
    if es != [] && |Encode(es[0])| <= n {
      WholeFits(es[1..], n - |Encode(es[0])|);
      var m := Whole(es, n);
      assert forall i :: 0 < i < m ==> es[..m][i] == es[1..][..m - 1][i - 1];
    }
  }

  /** What the client gets from one call at `cookie`, where `all` are the entries and `end` says why
      they end early, if they do. */
  ghost predicate GoodBatch(all: seq<DirEntry>, end: Option<Failure>, cookie: nat, bufLen: nat, b: Batch)
  {
    match b
    case Unset => false
    case Refused(why) => end == Some(why)
    case Dirs(dirs, eof) =>
      && cookie + |dirs| <= |all|
      && dirs == all[cookie..cookie + |dirs|]
      && AllFit(dirs, bufLen)
      && (eof ==> cookie + |dirs| == |all| && end.None?)
      && (!eof && dirs == [] ==> !AllFit(all, bufLen))
      && (cookie == 0 && bufLen >= DotBytes(0) ==> |dirs| >= 2)
  }

  lemma {:induction false} ReplyGivesBatch(src: Source, cookie: nat, bufLen: nat)
    requires GoodSource(src) && cookie <= Count(src) && BrokenBefore(src.listing, src.point, cookie).None?
    ensures GoodBatch(EntriesFrom(src, 0), EndFrom(src, 0), cookie, bufLen,
                      BatchOf(Expected(src, cookie, bufLen), bufLen))
  {
    hide ParseAll, Flat, AllFit, EntriesFrom, EndFrom;
    EntriesFromIsTail(src, cookie);
    var reply := Expected(src, cookie, bufLen);
    if reply.Page? {
      OnePage(src, cookie, bufLen, reply.bytes);
    }
  }

  /** One page read into a fresh buffer, as the client takes it. */
  method ExecReaddir(st: State, fd: Fd, cookie: u64, bufLen: nat, ino: u64, ghost walk: Source) returns (b: Batch)
    requires st.Sound() && WalkOf(st, fd, cookie, Success(ino), Success(())) == Success(walk)
    modifies st.host, st.cache, st.cache.pathData
    ensures st.Sound() && st.Others() == old(st.Others())
    ensures DirectoryAt(st.Open(), st.host.entries, fd) == old(DirectoryAt(st.Open(), st.host.entries, fd))
    ensures Saved(st.host, st.cache, fd, Success(walk), cookie, bufLen)
    ensures b == BatchOf(Expected(walk, cookie, bufLen), bufLen)
    ensures old(st.Valid() && !Replays(st.cache, fd, cookie, bufLen)) ==> st.Valid()
    ensures !old(Hit(st.cache, fd, cookie)) || st.cache.stream.None? ==> st.Valid()
  {
    hide Expected, ParseAll, DirectoryAt, Saved, WalkOf, Hit, Replays, State.Valid, State.Sound, State.Others;
    var reply := Ask(st, fd, cookie, bufLen, ino, walk);
    if reply.Failed? {
      return Refused(reply.why);
    }
    if reply.PastEnd? {
      return Unset;
    }
    var reader := new ReadDir(reply.bytes);
    var dirs := reader.Collect();
    return Dirs(dirs, |reply.bytes| < bufLen);
  }

  /** Buffers whose pages never end within a dot that a listing then goes on from. */
  predicate SparesDots(bufLen: nat) { bufLen <= DotBytes(1) || bufLen >= DotBytes(0) }

  /** The one page on which a replayed `..` leaves room for a whole entry: 50 bytes, and a nameless one. */
  predicate Overflows(src: Source, bufLen: nat)
  {
    && bufLen == DotBytes(1) + DIRENT_SIZE
    && ItemAt(src, 2).Some? && ItemAt(src, 2).value.Entry? && ItemAt(src, 2).value.e.name == []
  }

  lemma {:induction false} BatchExtends(all: seq<DirEntry>, cookie: nat, dirs: seq<DirEntry>, bufLen: nat)
    requires cookie + |dirs| <= |all| && dirs == all[cookie..cookie + |dirs|]
    ensures all[..cookie] + dirs == all[..cookie + |dirs|]
    ensures AllFit(all[..cookie], bufLen) && AllFit(dirs, bufLen) ==> AllFit(all[..cookie + |dirs|], bufLen)
    ensures dirs != [] ==> dirs[|dirs| - 1] == all[cookie + |dirs| - 1]
    ensures cookie + |dirs| == |all| ==> all[..cookie + |dirs|] == all
    ensures AllFit([], bufLen)
  {
    assert forall i :: cookie <= i < cookie + |dirs| ==> all[i] == dirs[i - cookie];
  }

  lemma {:induction false} NothingBrokenAtStart(src: Source)
    ensures BrokenBefore(src.listing, src.point, 0).None?
  {
  }

  // ----- buffers that hold one dot and a piece of the other -----

  /** The entries a page yields, whatever walk it is a page of. */
  lemma {:induction false} PageYields(src: Source, cookie: nat, n: nat)
    requires GoodSource(src) && Expected(src, cookie, n).Page?
    ensures var es := EntriesFrom(src, cookie);
            ParseAll(Expected(src, cookie, n).bytes) == es[..Whole(es, Min(n, |Flat(es)|))]
  {
    hide ParseAll, Flat, Whole, EntriesFrom;
    EntriesAreGood(src, cookie);
    ParsePage(EntriesFrom(src, cookie), Min(n, |Flat(EntriesFrom(src, cookie))|));
  }

  /** From the start, or from a cached dot, such a page yields `.` and leaves `..` in the cache. */
  lemma {:induction false} FirstYieldsDot(src: Source, n: nat)
    requires GoodSource(src) && !SparesDots(n)
    ensures BatchOf(Expected(src, 0, n), n) == Dirs([Dot(src.dotInode)], false)
    ensures Remembered(src, 0, n) == Some(1)
  {
    hide ParseAll;
    DotsComeFirst(src, 0);
    EntriesStep(src, 0);
    EntriesStep(src, 1);
    var es := EntriesFrom(src, 0);
    assert es[0] == Dot(src.dotInode) && es[1..][0] == DOTDOT;
    assert |Encode(es[0])| == 25 && |Encode(DOTDOT)| == 26;
    assert Whole(es, n) == 1 + Whole(es[1..], n - 25) == 1;
    assert Filler(src, 1, n - 25) == Some(1);
    PageYields(src, 0, n);
  }

  /** Going on from a cached `..` yields `..`, and leaves a second `..` in the cache. */
  lemma {:induction false} SecondYieldsDotDot(hit: Source, n: nat)
    requires hit.point == Some(AtDots(DOTDOT)) && !SparesDots(n)
    ensures BatchOf(Expected(hit, 1, n), n) == Dirs([DOTDOT], false)
    ensures Remembered(hit, 1, n) == Some(2)
  {
    hide ParseAll;
    DotsComeFirst(hit, 1);
    FlatStep(hit, 2);
    EntriesStep(hit, 1);
    EntriesStep(hit, 2);
    var es := EntriesFrom(hit, 1);
    assert es[0] == DOTDOT && es[1..][0] == DOTDOT && |Encode(DOTDOT)| == 26;
    assert Whole(es, n) == 1 + Whole(es[1..], n - 26) == 1;
    assert Filler(hit, 2, n - 26) == Some(2);
    PageYields(hit, 1, n);
  }

  /** Going on from there yields `..` again, unless the directory's first entry cannot be read. If there
      is more to come, `..` is all the page yields, but for a nameless entry in 50 bytes; and whatever is
      left in the cache, the client's next call misses it. */
  lemma {:induction false} ThirdYieldsDotDot(hit: Source, n: nat)
    requires hit.point == Some(AtDots(DOTDOT)) && !SparesDots(n)
    ensures var plain := hit.(point := None);
            match BatchOf(Expected(hit, 2, n), n)
            case Unset => false
            case Refused(why) => ItemAt(plain, 2) == Some(Broken(why)) && Remembered(hit, 2, n).None?
            case Dirs(dirs, eof) =>
              && dirs != [] && dirs[0] == DOTDOT
              && (eof ==> dirs == [DOTDOT] && ItemAt(plain, 2).None? && Remembered(hit, 2, n).None?)
              && (!eof ==>
                    && ItemAt(plain, 2).Some? && ItemAt(plain, 2).value.Entry?
                    && if Overflows(plain, n) then |dirs| == 2 && dirs[1].dirent.next == 4 else dirs == [DOTDOT])
              && (Remembered(hit, 2, n).Some? ==> Remembered(hit, 2, n) == Some(3))
  {
    hide ParseAll, BatchOf, Expected, Remembered, Encode;
    AfterReplay(hit);
    if ItemAt(hit, 3).Some? && ItemAt(hit, 3).value.Entry? {
      ThirdIsFull(hit, n);
    } else {
      ThirdIsLast(hit, n);
    }
  }

  /** A walk from a cached `..` has the directory's first entry at position 3. */
  lemma {:induction false} AfterReplay(hit: Source)
    requires hit.point == Some(AtDots(DOTDOT))
    ensures var plain := hit.(point := None);
            match ItemAt(hit, 3)
            case Some(Entry(e)) =>
              && ItemAt(plain, 2).Some? && ItemAt(plain, 2).value.Entry?
              && e.name == ItemAt(plain, 2).value.e.name && e.dirent.next == 4
            case other => ItemAt(plain, 2) == other
    ensures ItemAt(hit, 2) == Some(Entry(DOTDOT)) && |Encode(DOTDOT)| == 26
  {
  }

  lemma {:induction false} ThirdIsLast(hit: Source, n: nat)
    requires hit.point == Some(AtDots(DOTDOT)) && n > 26
    requires ItemAt(hit, 2) == Some(Entry(DOTDOT)) && |Encode(DOTDOT)| == 26
    requires ItemAt(hit, 3).None? || ItemAt(hit, 3).value.Broken?
    ensures BatchOf(Expected(hit, 2, n), n)
            == if ItemAt(hit, 3).None? then Dirs([DOTDOT], true) else Refused(ItemAt(hit, 3).value.why)
    ensures Remembered(hit, 2, n).None?
  {
    hide ParseAll, ItemAt;
    FlatStep(hit, 2);
    EntriesStep(hit, 2);
    assert EntriesFrom(hit, 3) == [] && Filler(hit, 3, n - 26).None?;
    assert Flat(EntriesFrom(hit, 3)) == [];
    if Expected(hit, 2, n).Page? {
      WholeOfAll(EntriesFrom(hit, 2), 26);
      PageYields(hit, 2, n);
    }
  }

  lemma {:induction false} FilledAtThree(src: Source, n: nat)
    requires ItemAt(src, 2) == Some(Entry(DOTDOT)) && |Encode(DOTDOT)| == 26 < n <= 50
    requires ItemAt(src, 3).Some? && ItemAt(src, 3).value.Entry?
    ensures Filler(src, 2, n) == Some(3)
  {
    hide ItemAt, Encode;
    assert Filler(src, 3, n - 26) == Some(3);
  }

  lemma {:induction false} ThirdIsFull(hit: Source, n: nat)
    requires hit.point == Some(AtDots(DOTDOT)) && !SparesDots(n)
    requires ItemAt(hit, 2) == Some(Entry(DOTDOT)) && |Encode(DOTDOT)| == 26
    requires ItemAt(hit, 3).Some? && ItemAt(hit, 3).value.Entry?
    ensures var e := ItemAt(hit, 3).value.e;
            BatchOf(Expected(hit, 2, n), n) == Dirs(if n == 50 && e.name == [] then [DOTDOT, e] else [DOTDOT], false)
    ensures Remembered(hit, 2, n).Some? ==> Remembered(hit, 2, n) == Some(3)
  {
    hide ParseAll, ItemAt, Encode, Flat, Whole, Filler, EntriesFrom, EndFrom;
    var e, es, later := ItemAt(hit, 3).value.e, EntriesFrom(hit, 2), EntriesFrom(hit, 3);
    FlatStep(hit, 2);
    EntriesStep(hit, 2);
    FlatStep(hit, 3);
    EntriesStep(hit, 3);
    assert es[1..] == later && later[0] == e && |Encode(e)| == DIRENT_SIZE + |e.name|;
    FilledAtThree(hit, n);
    WholeAfterFirst(es, n);
    WholeAfterFirst(later, n - 26);
    if |Encode(e)| == n - 26 {
      WholeAfterFirst(later[1..], 0);
    }
    assert es[..1] == [DOTDOT] && es[..2] == [DOTDOT, e];
    PageYields(hit, 2, n);
  }

  lemma {:induction false} WholeAfterFirst(es: seq<DirEntry>, n: nat)
    ensures es != [] ==> Whole(es, n) == if |Encode(es[0])| > n then 0 else 1 + Whole(es[1..], n - |Encode(es[0])|)
    ensures n < DIRENT_SIZE ==> Whole(es, n) == 0
  {
  }
}
