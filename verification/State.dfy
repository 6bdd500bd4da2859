/** The adapter's state: the descriptor table, the directory-entry cache, and the host it calls. */
module State {
  import opened Wrappers
  import opened Bytes
  import opened Wasi
  import opened Resources
  import opened HandleTable
  import opened Dirents
  import opened Directories
  import D = Descriptors

  /** The entry that the last `fd_readdir` page cut off, and the stream that stands after it. */
  class DirentCache {
    var stream: Option<Handle>
    var forFd: Fd
    var cookie: u64
    var dirent: Dirent
    const pathData: array<byte>

    constructor ()
      ensures stream == None && fresh(pathData) && pathData.Length == DIRENT_CACHE
    {
      stream, forFd, cookie, dirent := None, 0, 0, Dirent(0, 0, 0, 0);
      pathData := new byte[DIRENT_CACHE];
    }

    /** The cached entry, its name taken from the path buffer. */
    function Cached(): DirEntry
      requires dirent.namlen <= pathData.Length
      reads this`dirent, pathData
    {
      DirEntry(dirent, pathData[..dirent.namlen])
    }
  }

  /** `entry` is the entry at `cookie` of `l`, every earlier one is readable, and a stream that has
      returned `returned` host entries goes on right after it. At cookie 0 and 1 only the entry's
      own cookie is known. */
  ghost predicate StandsAfter(l: Listing, cookie: nat, entry: DirEntry, returned: nat)
  {
    if cookie < 2 then returned == 0 && GoodEntry(entry) && entry.dirent.next == cookie + 1
    else
      && returned == cookie - 1
      && HostItem(l, None, cookie) == Some(Entry(entry))
      && BrokenBefore(l, None, cookie).None?
  }

  /** The point of a cache at `cookie`. */
  function PointAt(cookie: u64, entry: DirEntry, returned: nat): Point
    requires cookie <= returned + 2
  {
    Standing(if cookie < 2 then 2 else cookie, entry, returned)
  }

  /** A walk from the directory's start leaves the cached stream right after the cached entry. */
  lemma {:induction false} PlainWalkStandsAfter(src: Source, cookie: nat, n: nat)
    requires src.point.None? && Remembered(src, cookie, n).Some?
    ensures var k := Remembered(src, cookie, n).value;
            StandsAfter(src.listing, k, ItemAt(src, k).value.e, ReturnedAfter(src, k))
  {
    FillerIsReadable(src, cookie, n);
    ItemIsGood(src, Remembered(src, cookie, n).value);
  }

  /** Past the dots, a walk from a coherent cache goes on where a walk from the start would. */
  lemma {:induction false} CoherentWalkContinues(ino: u64, l: Listing, cookie: u64, entry: DirEntry, returned: nat)
    requires StandsAfter(l, cookie, entry, returned) && cookie >= 2
    ensures var plain := Source(ino, l, None);
            Reached(plain, cookie) && Continued(plain, cookie) == Source(ino, l, Some(PointAt(cookie, entry, returned)))
  {
  }

  /** A call on a coherent cache leaves its stream right after the cached entry again exactly when the
      cookie is past the dots or the page ends within them. */
  lemma {:induction false} CoherentWalkStandsAfterIff(ino: u64, l: Listing, cookie: u64, entry: DirEntry,
                                                      returned: nat, n: nat)
    requires StandsAfter(l, cookie, entry, returned)
    requires Remembered(Source(ino, l, Some(PointAt(cookie, entry, returned))), cookie, n).Some?
    ensures var src := Source(ino, l, Some(PointAt(cookie, entry, returned)));
            var k := Remembered(src, cookie, n).value;
            StandsAfter(l, k, ItemAt(src, k).value.e, ReturnedAfter(src, k)) <==> cookie >= 2 || n <= DotBytes(cookie)
  {
    var src := Source(ino, l, Some(PointAt(cookie, entry, returned)));
    var k := Remembered(src, cookie, n).value;
    if cookie >= 2 {
      var plain := Source(ino, l, None);
      CoherentWalkContinues(ino, l, cookie, entry, returned);
      ContinuingIsExact(plain, cookie, n);
      ContinuesAt(plain, cookie, k);
      PlainWalkStandsAfter(plain, cookie, n);
    } else {
      FillerAndDots(src, cookie, n);
      ItemIsGood(src, k);
    }
  }

  /** The directory a cached stream reads and the point where it stands there, if the stream is one the
      iterator can go on from. */
  function StandingOf(cache: DirentCache, live: map<Handle, Resource>): (at: Option<(Listing, Point)>)
    reads cache, cache.pathData
  {
    if && cache.stream.Some? && cache.stream.value in live && live[cache.stream.value].DirectoryStream?
       && cache.dirent.namlen <= cache.pathData.Length && cache.cookie <= live[cache.stream.value].returned + 2
    then
      var stream := live[cache.stream.value];
      Some((stream.listing, PointAt(cache.cookie, cache.Cached(), stream.returned)))
    else None
  }

  /** The adapter's `get_dir`. */
  function GetDir(open: map<Fd, Descriptor>, fd: Fd): (r: Result<Handle, Errno>)
  {
    if fd !in open || !open[fd].Streams? || !open[fd].stype.File? then Failure(BADF)
    else if open[fd].stype.kind == Directory then Success(open[fd].stype.fd)
    else Failure(NOTDIR)
  }

  /** A directory is what is open as one; another open file is none, and anything else is no file. */
  lemma {:induction false} GetDirIff(open: map<Fd, Descriptor>, fd: Fd, h: Handle)
    requires forall k :: k in open ==> open[k].Streams?
    ensures GetDir(open, fd) == Success(h) <==>
              fd in open && open[fd].stype.File? && open[fd].stype.kind == Directory && open[fd].stype.fd == h
    ensures GetDir(open, fd) == Failure(NOTDIR) <==>
              fd in open && open[fd].stype.File? && open[fd].stype.kind != Directory
    ensures GetDir(open, fd) == Failure(BADF) <==> fd !in open || open[fd].stype == Stdio
  {
  }

  /** The listing of the host directory that `get_dir` found, if it found one. */
  function ListingOf(dir: Result<Handle, Errno>, live: map<Handle, Resource>): (l: Option<Listing>)
  {
    if dir.Success? && dir.value in live && live[dir.value].HostDirectory? then Some(live[dir.value].listing) else None
  }

  /** The listing of the directory open at `fd`, if that is what `fd` is. */
  function DirectoryAt(open: map<Fd, Descriptor>, live: map<Handle, Resource>, fd: Fd): (l: Option<Listing>)
  {
    ListingOf(GetDir(open, fd), live)
  }

  class State {
    const host: Table<Resource>
    const descriptors: D.Descriptors
    const cache: DirentCache

    constructor (host: Table<Resource>, descriptors: D.Descriptors)
      requires host.Valid() && descriptors.Valid() && Owned(descriptors.Open(), host.entries)
      ensures Valid() && this.host == host && this.descriptors == descriptors && fresh(cache) && fresh(cache.pathData)
      ensures cache.stream == None
    {
      this.host, this.descriptors := host, descriptors;
      cache := new DirentCache();
    }

    ghost predicate Valid()
      reads this, host, descriptors, descriptors.table, cache, cache.pathData
    {
      && Sound()
      && Coherent()
    }

    /** Everything but what the cache means: the table is well formed and owns its handles, and a
        cached stream is live. */
    ghost predicate Sound()
      reads this, host, descriptors, descriptors.table, cache, cache.pathData
    {
      && host.Valid()
      && descriptors.Valid()
      && cache.pathData.Length == DIRENT_CACHE
      && Owned(descriptors.Open(), host.entries)
      && (cache.stream.Some? ==> StandingOf(cache, host.entries).Some?)
    }

    function Open(): (m: map<Fd, Descriptor>)
      reads this, descriptors, descriptors.table
      ensures forall k :: k in m ==> m[k].Streams?
    {
      descriptors.Open()
    }

    /** A present cache belongs to the directory now open at its descriptor, holds the entry at its
        cookie, and its stream is live and stands just after that entry. */
    ghost predicate Coherent()
      reads this, host, descriptors, descriptors.table, cache, cache.pathData
    {
      cache.stream.Some? ==>
        && cache.stream.value in host.entries
        && host.entries[cache.stream.value].DirectoryStream?
        && DirectoryAt(Open(), host.entries, cache.forFd) == Some(host.entries[cache.stream.value].listing)
        && cache.dirent.namlen <= DIRENT_CACHE <= cache.pathData.Length
        && StandsAfter(host.entries[cache.stream.value].listing, cache.cookie, cache.Cached(),
                       host.entries[cache.stream.value].returned)
    }

    /** The host's resources apart from the cached directory stream. */
    function Others(): map<Handle, Resource>
      reads this, host, cache
    {
      host.entries - SetOf(cache.stream)
    }
  }

  lemma {:induction false} CachedIsLive(st: State)
    requires st.Valid()
    ensures st.cache.stream.Some? ==>
              st.cache.stream.value in st.host.entries && st.host.entries[st.cache.stream.value].DirectoryStream?
  {
    hide StandsAfter, Owned;
  }

  lemma {:induction false} AtMostOneMore(st: State)
    ensures |st.host.entries| <= |st.Others()| + 1
  {
    assert st.host.entries.Keys <= st.Others().Keys + SetOf(st.cache.stream);
    assert st.Others().Keys == st.host.entries.Keys - SetOf(st.cache.stream);
  }
}
