/** `fd_readdir`: one page of a directory, continued from the cache where that is possible. */
module Readdir {
  import opened Wrappers
  import opened Bytes
  import opened Wasi
  import opened Resources
  import opened HandleTable
  import opened Dirents
  import opened Directories
  import opened State
  import D = Descriptors

  /** What the caller sees: `bufused`, or success with `bufused` left alone, or a failure. */
  datatype Status = Used(n: nat) | Untouched | Stopped(why: Failure)

  /** The reply that a status and the buffer's contents amount to. */
  function Observed(s: Status, buf: seq<byte>): (r: Reply)
    requires s.Used? ==> s.n <= |buf|
  {
    match s
    case Used(n) => Page(buf[..n])
    case Untouched => PastEnd
    case Stopped(why) => Failed(why)
  }

  /** Nothing in the host changed but how far the directory stream `s` has got. */
  ghost predicate OnlyAdvances(before: map<Handle, Resource>, after: map<Handle, Resource>, s: Handle)
  {
    && before.Keys == after.Keys
    && before - {s} == after - {s}
    && s in after && after[s].DirectoryStream?
  }

  /** Iterates over a directory from the host's stream, with `.` and `..` put back in front; the
      first host entry may come from the cache instead. */
  class DirectoryEntryIterator {
    const host: Table<Resource>
    const cache: DirentCache
    const stream: Handle
    const dotInode: u64
    var useCache: bool
    var cookie: nat

    constructor (host: Table<Resource>, cache: DirentCache, stream: Handle, dotInode: u64, useCache: bool, cookie: nat)
      ensures this.host == host && this.cache == cache && this.stream == stream && this.dotInode == dotInode
      ensures this.useCache == useCache && this.cookie == cookie
    {
      this.host, this.cache, this.stream, this.dotInode := host, cache, stream, dotInode;
      this.useCache, this.cookie := useCache, cookie;
    }

    /** The iterator stands at position `cookie` of the walk `src`. */
    ghost predicate At(src: Source)
      reads this, host, cache, cache.pathData
    {
      && stream in host.entries
      && host.entries[stream].DirectoryStream?
      && host.entries[stream].listing == src.listing
      && dotInode == src.dotInode
      && cookie <= Count(src)
      && cache.pathData.Length == DIRENT_CACHE
      && (useCache ==> cache.dirent.namlen <= DIRENT_CACHE)
      && var returned := host.entries[stream].returned;
         match src.point
         case None => !useCache && returned == if cookie < 2 then 0 else cookie - 2
         case Some(p) =>
           if useCache then
             && (cookie == p.at || (cookie < 2 && p.at == 2))
             && returned == p.returned && p.entry == cache.Cached()
           else
             p.at < cookie && returned == p.returned + cookie - p.at - 1
    }

    method Next(ghost src: Source) returns (r: Option<Item>)
      requires host.Valid() && At(src)
      modifies this, host
      ensures host.Valid()
      ensures r == ItemAt(src, old(cookie))
      ensures cookie == old(cookie) + 1
      ensures r.Some? && r.value.Entry? ==> At(src)
      ensures useCache == (old(useCache) && old(cookie) < 2)
      ensures OnlyAdvances(old(host.entries), host.entries, stream)
    {
      var current := cookie;
      cookie := cookie + 1;
      if current == 0 {
        return Some(Entry(Dot(dotInode)));
      }
      if current == 1 {
        return Some(Entry(DOTDOT));
      }
      if useCache {
        useCache := false;
        return Some(Entry(cache.Cached()));
      }
      var resource := host.entries[stream];
      if resource.returned < |resource.listing| {
        host.Update(stream, resource.(returned := resource.returned + 1));
        return Some(Convert(resource.listing[resource.returned], cookie));
      }
      return None;
    }
  }

  /** Reads past the entries before `cookie`, as a call without a usable cache does. */
  method SkipTo(it: DirectoryEntryIterator, cookie: u64, ghost src: Source) returns (stop: Option<Status>)
    requires it.host.Valid() && it.At(src) && it.cookie == 0 && src.point.None?
    modifies it, it.host
    ensures it.host.Valid()
    ensures OnlyAdvances(old(it.host.entries), it.host.entries, it.stream)
    ensures stop.None? ==> it.At(src) && it.cookie == cookie && BrokenBefore(src.listing, None, cookie).None?
    ensures stop.Some? ==> BrokenBefore(src.listing, None, cookie).Some? || cookie > Count(src)
    ensures stop.Some? ==> !stop.value.Used? && forall n: nat :: Observed(stop.value, []) == Expected(src, cookie, n)
  {
    for i := 0 to cookie
      invariant it.host.Valid() && it.At(src) && it.cookie == i && BrokenBefore(src.listing, None, i).None?
      invariant OnlyAdvances(old(it.host.entries), it.host.entries, it.stream)
    {
      var item := it.Next(src);
      match item {
        case None =>
          BrokenBeforeSettles(src, i, cookie);
          return Some(Untouched);
        case Some(Broken(why)) =>
          BrokenBeforeSticks(src, i, cookie);
          return Some(Stopped(why));
        case Some(Entry(_)) =>
          ReadableExtends(src, i);
      }
    }
    return None;
  }

  /** Saves the entry just written, with the stream that stands after it. */
  method Save(cache: DirentCache, fd: Fd, cookie: u64, stream: Handle, e: DirEntry)
    requires cache.pathData.Length == DIRENT_CACHE && |e.name| <= DIRENT_CACHE && GoodEntry(e)
    modifies cache, cache.pathData
    ensures cache.stream == Some(stream) && cache.forFd == fd && cache.cookie == cookie
    ensures cache.dirent == e.dirent && cache.Cached() == e
  {
    cache.stream, cache.forFd, cache.cookie, cache.dirent := Some(stream), fd, cookie, e.dirent;
    CopyInto(cache.pathData, 0, e.name);
    assert cache.pathData[..|e.name|] == e.name;
  }

  /** Copies one entry to `off`, cutting it off where the buffer ends. */
  method PutEntry(buf: array<byte>, off: nat, e: DirEntry) returns (end: nat)
    requires off <= buf.Length
    modifies buf
    ensures end == Min(buf.Length, off + |Encode(e)|)
    ensures buf[..end] == old(buf[..off]) + Encode(e)[..end - off]
    ensures buf[end..] == old(buf[end..])
  {
    var bytes := EncodeDirent(e.dirent);
    var n := Min(buf.Length - off, |bytes|);
    CopyInto(buf, off, bytes[..n]);
    var m := Min(buf.Length - off - n, |e.name|);
    CopyInto(buf, off + n, e.name[..m]);
    end := off + n + m;
    assert Encode(e)[..end - off] == bytes[..n] + e.name[..m];
    assert buf[..end] == old(buf[..off]) + (bytes[..n] + e.name[..m]);
  }

  /** `written` is the start of a page of `n` bytes of `all`, with `rest` still to come if the page
      is not full. */
  ghost predicate PageSoFar(all: seq<byte>, rest: seq<byte>, written: seq<byte>, n: nat)
  {
    && |written| <= n
    && written <= all
    && (|written| < n ==> all == written + rest)
  }

  lemma {:induction false} PageStarts(all: seq<byte>, n: nat)
    ensures PageSoFar(all, all, [], n)
  {
  }

  lemma {:induction false} PageGrows(all: seq<byte>, next: seq<byte>, rest: seq<byte>, written: seq<byte>, n: nat)
    requires PageSoFar(all, next + rest, written, n) && |written| < n
    ensures PageSoFar(all, rest, written + next[..Min(n - |written|, |next|)], n)
  {
    assert written + (next + rest) == written + next + rest;
  }

  lemma {:induction false} IteratorStarts(it: DirectoryEntryIterator, src: Source)
    requires it.At(src)
    ensures it.cookie <= Count(src) && OnlyAdvances(it.host.entries, it.host.entries, it.stream)
  {
  }

  /** Once the iterator has returned an entry, its stream has returned as many host entries as the walk
      says. */
  lemma {:induction false} StandsAfterNext(it: DirectoryEntryIterator, src: Source)
    requires it.At(src) && it.cookie >= 1
    ensures it.host.entries[it.stream].returned == ReturnedAfter(src, it.cookie - 1)
  {
  }

  lemma {:induction false} PageDone(all: seq<byte>, end: Option<Failure>, rest: seq<byte>, written: seq<byte>, n: nat)
    requires PageSoFar(all, rest, written, n) && (|written| == n || (rest == [] && end.None?))
    ensures PageOf(all, end, n) == Page(written)
  {
  }

  lemma {:induction false} PageFails(all: seq<byte>, why: Failure, written: seq<byte>, n: nat)
    requires PageSoFar(all, [], written, n) && |written| < n
    ensures PageOf(all, Some(why), n) == Failed(why)
  {
  }

  /** What the item at `k` says about the walk from `k` on. */
  lemma {:induction false} WalkStep(src: Source, k: nat, n: nat)
    requires GoodSource(src) && BrokenBefore(src.listing, src.point, k).None?
    ensures match ItemAt(src, k)
            case None => Flat(EntriesFrom(src, k)) == [] && EndFrom(src, k) == None && Filler(src, k, n) == None
            case Some(Broken(why)) =>
              Flat(EntriesFrom(src, k)) == [] && EndFrom(src, k) == Some(why) && Filler(src, k, n) == None
            case Some(Entry(e)) =>
              && Flat(EntriesFrom(src, k)) == Encode(e) + Flat(EntriesFrom(src, k + 1))
              && EndFrom(src, k) == EndFrom(src, k + 1)
              && BrokenBefore(src.listing, src.point, k + 1).None?
              && GoodEntry(e)
              && Filler(src, k, n) == if n == 0 then None else if |Encode(e)| >= n then Some(k)
                                      else Filler(src, k + 1, n - |Encode(e)|)
  {
    if ItemAt(src, k).Some? && ItemAt(src, k).value.Entry? {
      FlatStep(src, k);
      ReadableExtends(src, k);
      ItemIsGood(src, k);
    }
  }

  /** One turn of the page loop: the next entry, if there is one, goes to `off`. */
  method WriteNext(it: DirectoryEntryIterator, buf: array<byte>, off: nat, ghost src: Source, ghost all: seq<byte>,
                   ghost rest: seq<byte>)
    returns (item: Option<Item>, end: nat)
    requires it.host.Valid() && it.At(src) && off < buf.Length && buf != it.cache.pathData
    requires var here := ItemAt(src, it.cookie);
             here.Some? && here.value.Entry? ==> PageSoFar(all, Encode(here.value.e) + rest, buf[..off], buf.Length)
    modifies it, it.host, buf
    ensures it.host.Valid() && OnlyAdvances(old(it.host.entries), it.host.entries, it.stream)
    ensures it.cookie == old(it.cookie) + 1 && it.useCache == (old(it.useCache) && old(it.cookie) < 2)
    ensures item == ItemAt(src, old(it.cookie))
    ensures off <= end <= buf.Length && buf[end..] == old(buf[end..])
    ensures if item.Some? && item.value.Entry?
            then it.At(src) && it.cookie <= Count(src) && end == Min(buf.Length, off + |Encode(item.value.e)|)
              && PageSoFar(all, rest, buf[..end], buf.Length)
            else end == off && buf[..off] == old(buf[..off])
  {
    item := it.Next(src);
    end := off;
    if item.Some? && item.value.Entry? {
      PageGrows(all, Encode(item.value.e), rest, buf[..off], buf.Length);
      end := PutEntry(buf, off, item.value.e);
    }
  }

  /** The cache holds the entry at position `k` of the walk, for `fd`, and its stream stands where the
      walk stands there. */
  ghost predicate CacheHolds(host: Table<Resource>, cache: DirentCache, fd: Fd, src: Source, k: nat)
    reads host, cache, cache.pathData
  {
    && cache.stream.Some? && cache.stream.value in host.entries
    && host.entries[cache.stream.value] == DirectoryStream(src.listing, ReturnedAfter(src, k))
    && cache.forFd == fd && cache.cookie == k
    && cache.dirent.namlen <= DIRENT_CACHE <= cache.pathData.Length
    && ItemAt(src, k) == Some(Entry(cache.Cached()))
  }

  /** Saves the entry `e` that the iterator just returned. */
  method SaveLast(it: DirectoryEntryIterator, fd: Fd, e: DirEntry, ghost src: Source)
    requires it.At(src) && it.cookie >= 1
    requires ItemAt(src, it.cookie - 1) == Some(Entry(e)) && GoodEntry(e) && |e.name| <= DIRENT_CACHE
    modifies it.cache, it.cache.pathData
    ensures CacheHolds(it.host, it.cache, fd, src, it.cookie - 1)
    ensures it.cache.stream == Some(it.stream)
  {
    StandsAfterNext(it, src);
    Save(it.cache, fd, it.cookie - 1, it.stream, e);
  }

  /** Writes entries until the buffer is full or they end; `last` is the entry that filled it. */
  method WriteEntries(it: DirectoryEntryIterator, buf: array<byte>, ghost src: Source)
    returns (status: Status, last: Option<DirEntry>)
    requires it.host.Valid() && it.At(src) && GoodSource(src) && buf != it.cache.pathData
    requires BrokenBefore(src.listing, src.point, it.cookie).None?
    modifies buf, it, it.host
    ensures it.host.Valid() && OnlyAdvances(old(it.host.entries), it.host.entries, it.stream)
    ensures status.Used? ==> status.n <= buf.Length && buf[status.n..] == old(buf[status.n..])
    ensures Observed(status, buf[..])
            == PageOf(Flat(EntriesFrom(src, old(it.cookie))), EndFrom(src, old(it.cookie)), buf.Length)
    ensures last.Some? ==>
              && it.At(src) && old(it.cookie) < it.cookie
              && ItemAt(src, it.cookie - 1) == Some(Entry(last.value)) && GoodEntry(last.value)
              && BrokenBefore(src.listing, src.point, it.cookie).None?
    ensures Filler(src, old(it.cookie), buf.Length) == if last.Some? then Some(it.cookie - 1) else None
  {
    hide Encode, EntriesFrom, EndFrom, Flat, ItemAt, BrokenBefore, PageOf, PageSoFar, Filler,
      GoodSource, GoodEntry, DirectoryEntryIterator.At;
    var off: nat := 0;
    last := None;
    ghost var first := it.cookie;
    ghost var all := Flat(EntriesFrom(src, first));
    ghost var rest := all;
    IteratorStarts(it, src);
    WalkStep(src, first, 0);
    PageStarts(all, buf.Length);
    assert buf[..off] == [];
    while off < buf.Length
      invariant off <= buf.Length && buf[off..] == old(buf[off..])
      invariant it.host.Valid() && it.At(src) && first <= it.cookie <= Count(src)
      invariant OnlyAdvances(old(it.host.entries), it.host.entries, it.stream)
      invariant BrokenBefore(src.listing, src.point, it.cookie).None?
      invariant EndFrom(src, first) == EndFrom(src, it.cookie)
      invariant rest == Flat(EntriesFrom(src, it.cookie)) && PageSoFar(all, rest, buf[..off], buf.Length)
      invariant off < buf.Length ==>
                  last == None && Filler(src, first, buf.Length) == Filler(src, it.cookie, buf.Length - off)
      invariant last.Some? ==>
                  && first < it.cookie
                  && ItemAt(src, it.cookie - 1) == Some(Entry(last.value)) && GoodEntry(last.value)
                  && Filler(src, first, buf.Length) == Some(it.cookie - 1)
      invariant off == buf.Length > 0 ==> last.Some?
      decreases Count(src) + 1 - it.cookie
    {
      ghost var k, written := it.cookie, buf[..off];
      WalkStep(src, k, buf.Length - off);
      var item, end := WriteNext(it, buf, off, src, all, Flat(EntriesFrom(src, k + 1)));
      match item {
        case None =>
          PageDone(all, EndFrom(src, first), [], written, buf.Length);
          assert buf[..][..off] == written;
          return Used(off), None;
        case Some(Broken(why)) =>
          PageFails(all, why, written, buf.Length);
          return Stopped(why), None;
        case Some(Entry(e)) =>
          off, rest := end, Flat(EntriesFrom(src, it.cookie));
          if off == buf.Length {
            last := Some(e);
          }
      }
    }
    PageDone(all, EndFrom(src, first), rest, buf[..off], buf.Length);
    assert buf[..][..off] == buf[..off];
    return Used(off), last;
  }

  /** Writes a page. An entry that fills the buffer goes into the cache with the stream, unless its
      name is too long for it. */
  method FillPage(it: DirectoryEntryIterator, fd: Fd, buf: array<byte>, ghost src: Source) returns (status: Status)
    requires it.host.Valid() && it.cache.stream == None && it.At(src) && GoodSource(src)
    requires BrokenBefore(src.listing, src.point, it.cookie).None?
    requires buf != it.cache.pathData
    modifies buf, it, it.host, it.cache, it.cache.pathData
    ensures it.host.Valid() && OnlyAdvances(old(it.host.entries), it.host.entries, it.stream)
    ensures status.Used? ==> status.n <= buf.Length && buf[status.n..] == old(buf[status.n..])
    ensures Observed(status, buf[..])
            == PageOf(Flat(EntriesFrom(src, old(it.cookie))), EndFrom(src, old(it.cookie)), buf.Length)
    ensures it.cache.stream.Some? ==>
              it.cache.stream == Some(it.stream) && CacheHolds(it.host, it.cache, fd, src, it.cache.cookie)
    ensures Remembered(src, old(it.cookie), buf.Length) == if it.cache.stream.Some? then Some(it.cache.cookie) else None
  {
    hide PageOf, Flat, EntriesFrom, EndFrom, ItemAt, Filler, BrokenBefore, CacheHolds, GoodSource,
      DirectoryEntryIterator.At;
    var last;
    status, last := WriteEntries(it, buf, src);
    if last.Some? && |last.value.name| <= DIRENT_CACHE {
      SaveLast(it, fd, last.value, src);
    }
  }

  // ----- the call -----

  /** The cache is for this descriptor and this cookie. */
  predicate Hit(cache: DirentCache, fd: Fd, cookie: u64)
    reads cache
  {
    cache.stream.Some? && cache.forFd == fd && cache.cookie == cookie
  }

  /** A call that hits a cache filled at cookie 0 or 1, with a buffer that outlasts the dots. */
  predicate Replays(cache: DirentCache, fd: Fd, cookie: u64, n: nat)
    reads cache
  {
    Hit(cache, fd, cookie) && cookie < 2 && n > DotBytes(cookie)
  }

  /** The walk a call makes, given what `get_dir` found and the host's replies to `stat` and
      `read_directory`; `cached` is where the cached stream stands if the call hits the cache. A hit goes
      on from there; at cookie 0 and 1 the iterator returns `.` and `..` first without using the cached
      entry up, and so replays it. */
  function Walked(dir: Result<Handle, Errno>, live: map<Handle, Resource>, cached: Option<(Listing, Point)>,
                  statReply: Result<u64, Errno>, openReply: Result<(), Errno>)
    : (src: Result<Source, Failure>)
  {
    var l := ListingOf(dir, live);
    if dir.Failure? then Failure(Error(dir.error))
    else if statReply.Failure? then Failure(Error(statReply.error))
    else if cached.Some? then Success(Source(statReply.value, cached.value.0, Some(cached.value.1)))
    else if openReply.Failure? then Failure(Error(openReply.error))
    else if l.None? || |live| >= MAX_ENTRIES then Failure(Trap)
    else Success(Source(statReply.value, l.value, None))
  }

  function Answer(src: Result<Source, Failure>, cookie: u64, n: nat): (r: Reply)
  {
    if src.Failure? then Failed(src.error) else Expected(src.value, cookie, n)
  }

  /** The cookie that the call leaves in the cache, if it leaves anything there. */
  function Kept(src: Result<Source, Failure>, cookie: u64, n: nat): (at: Option<nat>)
  {
    if src.Failure? then None else Remembered(src.value, cookie, n)
  }

  /** The cache after a call that made the walk `src`: it holds the position that the call got to. */
  ghost predicate Saved(host: Table<Resource>, cache: DirentCache, fd: Fd, src: Result<Source, Failure>, cookie: u64,
                        n: nat)
    reads host, cache, cache.pathData
  {
    && Kept(src, cookie, n) == (if cache.stream.Some? then Some(cache.cookie) else None)
    && (cache.stream.Some? ==> src.Success? && CacheHolds(host, cache, fd, src.value, cache.cookie))
  }

  /** A call that ends before it walks the directory fails and leaves the cache empty. */
  lemma {:induction false} EarlyStop(host: Table<Resource>, cache: DirentCache, fd: Fd, why: Failure, cookie: u64,
                                     buf: seq<byte>)
    requires cache.stream == None
    ensures Observed(Stopped(why), buf) == Answer(Failure(why), cookie, |buf|)
    ensures Saved(host, cache, fd, Failure(why), cookie, |buf|)
  {
  }

  /** Drops the iterator's stream unless the cache took it. */
  method Release(host: Table<Resource>, cache: DirentCache, stream: Handle)
    requires host.Valid() && stream in host.entries && host.entries[stream].DirectoryStream?
    requires cache.stream.Some? ==> cache.stream == Some(stream)
    modifies host
    ensures host.Valid()
    ensures host.entries - SetOf(cache.stream) == old(host.entries) - {stream}
    ensures cache.stream.Some? ==> host.entries == old(host.entries)
  {
    if cache.stream.None? {
      var dropped := host.Delete(stream, IsDirectoryStream);
    }
  }

  /** `stream` reads the directory `cached.0` and stands, with the cache's entry, at `cached.1`. */
  ghost predicate StandsAt(live: map<Handle, Resource>, cache: DirentCache, stream: Handle, cached: (Listing, Point))
    reads cache`cookie, cache`dirent, cache.pathData
  {
    && stream in live
    && live[stream] == DirectoryStream(cached.0, cached.1.returned)
    && cache.dirent.namlen <= DIRENT_CACHE == cache.pathData.Length
    && cache.cookie <= cached.1.returned + 2
    && cached.1 == PointAt(cache.cookie, cache.Cached(), cached.1.returned)
  }

  lemma {:induction false} CachedStandsAt(cache: DirentCache, live: map<Handle, Resource>)
    requires StandingOf(cache, live).Some? && cache.pathData.Length == DIRENT_CACHE
    ensures cache.stream.Some? && cache.stream.value in live && live[cache.stream.value].DirectoryStream?
    ensures StandsAt(live, cache, cache.stream.value, StandingOf(cache, live).value)
  {
  }

  /** Goes on from the cached entry and its stream. */
  method Resume(host: Table<Resource>, cache: DirentCache, fd: Fd, buf: array<byte>, stream: Handle, ino: u64,
                ghost cached: (Listing, Point))
    returns (status: Status)
    requires host.Valid() && cache.stream == None && buf != cache.pathData
    requires StandsAt(host.entries, cache, stream, cached)
    modifies buf, host, cache, cache.pathData
    ensures host.Valid() && host.entries - SetOf(cache.stream) == old(host.entries) - {stream}
    ensures status.Used? ==> status.n <= buf.Length && buf[status.n..] == old(buf[status.n..])
    ensures var src := Source(ino, cached.0, Some(cached.1));
            && Observed(status, buf[..]) == Answer(Success(src), old(cache.cookie), buf.Length)
            && Saved(host, cache, fd, Success(src), old(cache.cookie), buf.Length)
  {
    ghost var src := Source(ino, cached.0, Some(cached.1));
    NothingBrokenBefore(cached.0, cached.1, cache.cookie);
    var it := new DirectoryEntryIterator(host, cache, stream, ino, true, cache.cookie);
    status := FillPage(it, fd, buf, src);
    Release(host, cache, stream);
  }

  /** Reads the directory from its start, past the entries before the cookie. */
  method Restart(host: Table<Resource>, cache: DirentCache, fd: Fd, buf: array<byte>, cookie: u64, stream: Handle,
                 ino: u64, ghost l: Listing)
    returns (status: Status)
    requires host.Valid() && cache.stream == None && buf != cache.pathData
    requires stream in host.entries && host.entries[stream] == DirectoryStream(l, 0)
    requires cache.pathData.Length == DIRENT_CACHE
    modifies buf, host, cache, cache.pathData
    ensures host.Valid() && host.entries - SetOf(cache.stream) == old(host.entries) - {stream}
    ensures status.Used? ==> status.n <= buf.Length && buf[status.n..] == old(buf[status.n..])
    ensures Observed(status, buf[..]) == Answer(Success(Source(ino, l, None)), cookie, buf.Length)
    ensures Saved(host, cache, fd, Success(Source(ino, l, None)), cookie, buf.Length)
  {
    var it := new DirectoryEntryIterator(host, cache, stream, ino, false, 0);
    ghost var src := Source(ino, l, None);
    var stop := SkipTo(it, cookie, src);
    if stop.Some? {
      status := stop.value;
      assert Observed(status, []) == Expected(src, cookie, buf.Length);
      assert Remembered(src, cookie, buf.Length) == None;
    } else {
      status := FillPage(it, fd, buf, src);
    }
    Release(host, cache, stream);
  }

  lemma {:induction false} NothingTaken(live: map<Handle, Resource>)
    ensures live - SetOf(None) == live
  {
  }

  lemma {:induction false} NewThenGone(live: map<Handle, Resource>, h: Handle, res: Resource)
    requires h !in live
    ensures live[h := res] - {h} == live
  {
  }

  lemma {:induction false} WalkedAnew(dir: Handle, live: map<Handle, Resource>, ino: u64, openReply: Result<(), Errno>)
    requires dir in live && live[dir].HostDirectory?
    ensures Walked(Success(dir), live, None, Success(ino), openReply)
            == if openReply.Failure? then Failure(Error(openReply.error))
               else if |live| >= MAX_ENTRIES then Failure(Trap)
               else Success(Source(ino, live[dir].listing, None))
  {
  }

  /** Opens the directory anew and reads it from its start. */
  method ReadAfresh(host: Table<Resource>, cache: DirentCache, fd: Fd, dir: Handle, buf: array<byte>, cookie: u64,
                    ino: u64, openReply: Result<(), Errno>)
    returns (status: Status)
    requires host.Valid() && cache.stream == None && buf != cache.pathData && cache.pathData.Length == DIRENT_CACHE
    requires dir in host.entries && host.entries[dir].HostDirectory?
    modifies buf, host, cache, cache.pathData
    ensures host.Valid() && host.entries - SetOf(cache.stream) == old(host.entries)
    ensures status.Used? ==> status.n <= buf.Length && buf[status.n..] == old(buf[status.n..])
    ensures var src := Walked(Success(dir), old(host.entries), None, Success(ino), openReply);
            && Observed(status, buf[..]) == Answer(src, cookie, buf.Length)
            && Saved(host, cache, fd, src, cookie, buf.Length)
  {
    WalkedAnew(dir, host.entries, ino, openReply);
    NothingTaken(host.entries);
    hide Answer, Saved, Observed, Walked, SetOf;
    ghost var live := host.entries;
    var listing := host.entries[dir].listing;
    if openReply.Failure? {
      EarlyStop(host, cache, fd, Error(openReply.error), cookie, buf[..]);
      return Stopped(Error(openReply.error));
    }
    var pushed := host.Push(DirectoryStream(listing, 0));
    if pushed.Failure? {
      EarlyStop(host, cache, fd, Trap, cookie, buf[..]);
      return Stopped(Trap);
    }
    NewThenGone(live, pushed.value, DirectoryStream(listing, 0));
    status := Restart(host, cache, fd, buf, cookie, pushed.value, ino, listing);
  }

  lemma {:induction false} WalkedOn(dir: Result<Handle, Errno>, live: map<Handle, Resource>,
                                    cached: Option<(Listing, Point)>, statReply: Result<u64, Errno>,
                                    openReply: Result<(), Errno>)
    ensures var src := Walked(dir, live, cached, statReply, openReply);
            if dir.Failure? || statReply.Failure? then
              src == Failure(Error(if dir.Failure? then dir.error else statReply.error))
            else if cached.Some? then src == Success(Source(statReply.value, cached.value.0, Some(cached.value.1)))
            else src == Walked(Success(dir.value), live, None, Success(statReply.value), openReply)
  {
  }

  /** One call once the cache has been taken out of the state: `stream` is its stream if it fits, and
      `cached` where that stands. */
  method ReadPage(host: Table<Resource>, cache: DirentCache, fd: Fd, dir: Result<Handle, Errno>, buf: array<byte>,
                  cookie: u64, stream: Option<Handle>, ghost cached: Option<(Listing, Point)>,
                  statReply: Result<u64, Errno>, openReply: Result<(), Errno>)
    returns (status: Status)
    requires host.Valid() && cache.stream == None && buf != cache.pathData && cache.pathData.Length == DIRENT_CACHE
    requires dir.Success? ==> ListingOf(dir, host.entries).Some?
    requires stream.Some? <==> cached.Some?
    requires stream.Some? ==> cache.cookie == cookie && StandsAt(host.entries, cache, stream.value, cached.value)
    modifies buf, host, cache, cache.pathData
    ensures host.Valid() && host.entries - SetOf(cache.stream) == old(host.entries) - SetOf(stream)
    ensures status.Used? ==> status.n <= buf.Length && buf[status.n..] == old(buf[status.n..])
    ensures var src := Walked(dir, old(host.entries), cached, statReply, openReply);
            && Observed(status, buf[..]) == Answer(src, cookie, buf.Length)
            && Saved(host, cache, fd, src, cookie, buf.Length)
  {
    WalkedOn(dir, host.entries, cached, statReply, openReply);
    NothingTaken(host.entries);
    assert stream.Some? ==> SetOf(stream) == {stream.value};
    hide Answer, Saved, Observed, PointAt, Walked, SetOf;
    if dir.Failure? || statReply.Failure? {
      var why := Error(if dir.Failure? then dir.error else statReply.error);
      D.DropHandle(stream, IsDirectoryStream, host);
      NothingTaken(host.entries);
      EarlyStop(host, cache, fd, why, cookie, buf[..]);
      return Stopped(why);
    }
    if stream.Some? {
      status := Resume(host, cache, fd, buf, stream.value, statReply.value, cached.value);
    } else {
      status := ReadAfresh(host, cache, fd, dir.value, buf, cookie, statReply.value, openReply);
    }
  }

  lemma {:induction false} SavedIsLive(host: Table<Resource>, cache: DirentCache, fd: Fd, src: Result<Source, Failure>,
                                       cookie: u64, n: nat)
    requires Saved(host, cache, fd, src, cookie, n)
    ensures cache.stream.Some? ==>
              cache.stream.value in host.entries && host.entries[cache.stream.value].DirectoryStream?
  {
  }

  /** Dropping a cached stream that did not fit leaves the host as it was but for the new one. */
  lemma {:induction false} StaleStreamGoes(before: map<Handle, Resource>, middle: map<Handle, Resource>,
                                           prev: Option<Handle>, hit: bool, cached: Option<Handle>)
    requires prev.Some? ==> prev.value in before && before[prev.value].DirectoryStream?
    requires middle - SetOf(cached) == before - SetOf(if hit then prev else None)
    requires cached.Some? ==> cached.value in middle && middle[cached.value].DirectoryStream?
    ensures var stale := if hit then None else prev;
            var after := middle - SetOf(stale);
            && (stale.Some? ==> stale.value in middle && middle[stale.value].DirectoryStream? && stale != cached)
            && after - SetOf(cached) == before - SetOf(prev)
            && KeepsOwnable(before, after)
  {
    var stale := if hit then None else prev;
    var after := middle - SetOf(stale);
    if stale.Some? {
      assert stale.value in before - SetOf(None);
      assert stale.value in middle - SetOf(cached);
    }
    forall h | h in before && !before[h].DirectoryStream? ensures h in after && after[h] == before[h] {
      assert h in middle - SetOf(cached);
    }
    assert after - SetOf(cached) == middle - SetOf(cached) - SetOf(stale);
  }

  /** Drops a cached stream that did not fit the call, once the page has been read. */
  method DropStale(host: Table<Resource>, cache: DirentCache, stale: Option<Handle>,
                   ghost fd: Fd, ghost src: Result<Source, Failure>, ghost cookie: u64, ghost n: nat)
    requires host.Valid() && Saved(host, cache, fd, src, cookie, n)
    requires stale.Some? ==>
               && stale.value in host.entries && host.entries[stale.value].DirectoryStream?
               && stale != cache.stream
    modifies host
    ensures host.Valid() && Saved(host, cache, fd, src, cookie, n)
    ensures host.entries == old(host.entries) - SetOf(stale)
  {
    hide ReturnedAfter, Kept;
    D.DropHandle(stale, IsDirectoryStream, host);
  }

  /** Takes the cached stream, reads a page, and drops the stream if it did not fit the call. */
  method TakeAndRead(host: Table<Resource>, cache: DirentCache, fd: Fd, dir: Result<Handle, Errno>, buf: array<byte>,
                     cookie: u64, statReply: Result<u64, Errno>, openReply: Result<(), Errno>)
    returns (status: Status)
    requires host.Valid() && buf != cache.pathData && cache.pathData.Length == DIRENT_CACHE
    requires dir.Success? ==> ListingOf(dir, host.entries).Some?
    requires cache.stream.Some? ==> StandingOf(cache, host.entries).Some?
    modifies buf, host, cache, cache.pathData
    ensures host.Valid() && host.entries - SetOf(cache.stream) == old(host.entries - SetOf(cache.stream))
    ensures KeepsOwnable(old(host.entries), host.entries)
    ensures status.Used? ==> status.n <= buf.Length && buf[status.n..] == old(buf[status.n..])
    ensures var cached := old(if Hit(cache, fd, cookie) then StandingOf(cache, host.entries) else None);
            var src := Walked(dir, old(host.entries), cached, statReply, openReply);
            && Observed(status, buf[..]) == Answer(src, cookie, buf.Length)
            && Saved(host, cache, fd, src, cookie, buf.Length)
  {
    hide Answer, Saved, Walked, KeepsOwnable, ListingOf, Observed, StandingOf, StandsAt, PointAt;
    ghost var live := host.entries;
    ghost var cached := if Hit(cache, fd, cookie) then StandingOf(cache, live) else None;
    ghost var src := Walked(dir, live, cached, statReply, openReply);
    if cache.stream.Some? {
      CachedStandsAt(cache, live);
    }
    var prev := cache.stream;
    cache.stream := None;
    var hit := cache.forFd == fd && cache.cookie == cookie;
    var stream, stale := if hit then prev else None, if hit then None else prev;
    status := ReadPage(host, cache, fd, dir, buf, cookie, stream, cached, statReply, openReply);
    SavedIsLive(host, cache, fd, src, cookie, buf.Length);
    StaleStreamGoes(live, host.entries, prev, hit, cache.stream);
    DropStale(host, cache, stale, fd, src, cookie, buf.Length);
  }

  /** The walk that a call on `st` makes. */
  ghost function WalkOf(st: State, fd: Fd, cookie: u64, statReply: Result<u64, Errno>, openReply: Result<(), Errno>)
    : (src: Result<Source, Failure>)
    reads st, st.host, st.descriptors, st.descriptors.table, st.cache, st.cache.pathData
  {
    Walked(GetDir(st.Open(), fd), st.host.entries,
           if Hit(st.cache, fd, cookie) then StandingOf(st.cache, st.host.entries) else None, statReply, openReply)
  }

  /** Whatever walk a call makes, it leaves a cache that the iterator can go on from. */
  lemma {:induction false} SavedIsHeld(host: Table<Resource>, cache: DirentCache, fd: Fd, dir: Result<Handle, Errno>,
                                       live: map<Handle, Resource>, cached: Option<(Listing, Point)>, cookie: u64,
                                       statReply: Result<u64, Errno>, openReply: Result<(), Errno>, n: nat)
    requires Saved(host, cache, fd, Walked(dir, live, cached, statReply, openReply), cookie, n)
    requires cached.Some? ==> cached.value.1.at == if cookie < 2 then 2 else cookie
    ensures cache.stream.Some? ==>
              StandingOf(cache, host.entries).Some? && Walked(dir, live, cached, statReply, openReply).Success?
  {
  }

  lemma {:induction false} PointOfHit(cache: DirentCache, live: map<Handle, Resource>, fd: Fd, cookie: u64)
    requires Hit(cache, fd, cookie)
    ensures StandingOf(cache, live).Some? ==> StandingOf(cache, live).value.1.at == if cookie < 2 then 2 else cookie
  {
  }

  /** What coherence comes down to for the cache that a walk leaves. */
  lemma {:induction false} SavedIsCoherentIff(st: State, fd: Fd, src: Source, cookie: u64, n: nat)
    requires st.Sound() && Saved(st.host, st.cache, fd, Success(src), cookie, n) && st.cache.stream.Some?
    ensures Remembered(src, cookie, n) == Some(st.cache.cookie)
    ensures var k := st.cache.cookie;
            st.Coherent() <==>
              && DirectoryAt(st.Open(), st.host.entries, fd) == Some(src.listing)
              && StandsAfter(src.listing, k, ItemAt(src, k).value.e, ReturnedAfter(src, k))
  {
    hide StandsAfter, Owned, DirectoryAt, ItemAt, ReturnedAfter, Remembered, D.WellFormed, D.OpenSlots;
  }

  /** From a coherent cache, or none, a call leaves a coherent one exactly when it does not replay a dot. */
  lemma {:induction false} WalkIsCoherentIff(dir: Result<Handle, Errno>, live: map<Handle, Resource>, cookie: u64,
                                             cached: Option<(Listing, Point)>, statReply: Result<u64, Errno>,
                                             openReply: Result<(), Errno>, n: nat)
    requires cached.Some? ==>
               && ListingOf(dir, live) == Some(cached.value.0)
               && cookie <= cached.value.1.returned + 2
               && cached.value.1 == PointAt(cookie, cached.value.1.entry, cached.value.1.returned)
               && StandsAfter(cached.value.0, cookie, cached.value.1.entry, cached.value.1.returned)
    requires var src := Walked(dir, live, cached, statReply, openReply);
             src.Success? && Remembered(src.value, cookie, n).Some?
    ensures var src := Walked(dir, live, cached, statReply, openReply).value;
            var k := Remembered(src, cookie, n).value;
            && ListingOf(dir, live) == Some(src.listing)
            && (StandsAfter(src.listing, k, ItemAt(src, k).value.e, ReturnedAfter(src, k))
                <==> cached.None? || cookie >= 2 || n <= DotBytes(cookie))
  {
    hide StandsAfter, ListingOf, Remembered, PointAt, ItemAt;
    if cached.Some? {
      var p := cached.value.1;
      CoherentWalkStandsAfterIff(statReply.value, cached.value.0, cookie, p.entry, p.returned, n);
    } else {
      PlainWalkStandsAfter(Walked(dir, live, cached, statReply, openReply).value, cookie, n);
    }
  }

  /** What a coherent cache says of a call that hits it. */
  lemma {:induction false} CoherentStanding(st: State, fd: Fd, cookie: u64)
    requires st.Valid() && Hit(st.cache, fd, cookie)
    ensures StandingOf(st.cache, st.host.entries).Some?
    ensures var (l, p) := StandingOf(st.cache, st.host.entries).value;
            && DirectoryAt(st.Open(), st.host.entries, fd) == Some(l)
            && cookie <= p.returned + 2 && p == PointAt(cookie, p.entry, p.returned)
            && StandsAfter(l, cookie, p.entry, p.returned)
  {
    hide StandsAfter, Owned, DirectoryAt, D.WellFormed, D.OpenSlots;
  }

  /** Reads one page of the directory open at `fd`, whatever the cache holds.
      The page is that of the walk the call makes: from the directory's start, or on from the cached
      entry and its stream. Afterwards the cache holds the position of that walk which filled the page,
      and nothing if none did or its name is too long; apart from the cached stream the host's resources
      are what they were. A state that was valid is valid again exactly when the call did not replay a
      cached `.` or `..`, or leaves the cache empty; a call that misses the cache, or leaves it empty,
      makes any state valid. */
  method FdReaddir(st: State, fd: Fd, buf: array<byte>, cookie: u64,
                   statReply: Result<u64, Errno>, openReply: Result<(), Errno>)
    returns (status: Status)
    requires st.Sound() && buf != st.cache.pathData
    modifies buf, st.host, st.cache, st.cache.pathData
    ensures st.Sound() && st.Others() == old(st.Others())
    ensures status.Used? ==> status.n <= buf.Length && buf[status.n..] == old(buf[status.n..])
    ensures var src := old(WalkOf(st, fd, cookie, statReply, openReply));
            && Observed(status, buf[..]) == Answer(src, cookie, buf.Length)
            && Saved(st.host, st.cache, fd, src, cookie, buf.Length)
    ensures old(st.Valid()) ==>
              (st.Valid() <==> !old(Replays(st.cache, fd, cookie, buf.Length)) || st.cache.stream.None?)
    ensures !old(Hit(st.cache, fd, cookie)) || st.cache.stream.None? ==> st.Valid()
  {
    hide Answer, Walked, StandsAfter, Saved, Owned, StandingOf, ListingOf, GetDir, D.WellFormed, D.OpenSlots;
    ghost var open, live, src := st.Open(), st.host.entries, WalkOf(st, fd, cookie, statReply, openReply);
    ghost var valid, hit := st.Valid(), Hit(st.cache, fd, cookie);
    var dir := GetDir(st.Open(), fd);
    GetDirIsLive(open, live, fd);
    DirectoryIsKept(st, fd);
    if valid && hit {
      CoherentStanding(st, fd, cookie);
    }
    ghost var cached := if hit then StandingOf(st.cache, live) else None;
    if hit {
      PointOfHit(st.cache, live, fd, cookie);
    }
    status := TakeAndRead(st.host, st.cache, fd, dir, buf, cookie, statReply, openReply);
    OwnedAcross(open, live, st.host.entries);
    SavedIsHeld(st.host, st.cache, fd, dir, live, cached, cookie, statReply, openReply, buf.Length);
    DirectoryIsKept(st, fd);
    if (valid || !hit) && st.cache.stream.Some? {
      SavedIsCoherentIff(st, fd, src.value, cookie, buf.Length);
      WalkIsCoherentIff(dir, live, cookie, cached, statReply, openReply, buf.Length);
    }
  }

  lemma {:induction false} GetDirIsLive(open: map<Fd, Descriptor>, live: map<Handle, Resource>, fd: Fd)
    requires Owned(open, live)
    ensures GetDir(open, fd).Success? ==> DirectoryAt(open, live, fd).Some?
  {
    if fd in open {
      assert LiveIn(open[fd], live);
    }
  }

  /** From a coherent cache, a call that hits gives the page that reading the directory anew would give
      exactly when the cached entry is a host entry, or the buffer ends within the dots, or it has room
      for everything up to an unreadable entry. */
  lemma {:induction false} HitIsExactIff(l: Listing, cookie: u64, cached: DirEntry, returned: nat, ino: u64, n: nat)
    requires StandsAfter(l, cookie, cached, returned)
    ensures var hit, anew := Source(ino, l, Some(PointAt(cookie, cached, returned))), Source(ino, l, None);
            Expected(hit, cookie, n) == Expected(anew, cookie, n)
            <==> cookie >= 2 || n <= DotBytes(cookie) || OutlastsListing(anew, cookie, cached, n)
  {
    hide Expected;
    if cookie < 2 {
      ReplayIsHarmlessIff(ino, l, cached, cookie, n);
    } else {
      CoherentWalkContinues(ino, l, cookie, cached, returned);
      ContinuingIsExact(Source(ino, l, None), cookie, n);
    }
  }

  /** The open directory is not the cached stream, so it is among the other resources. */
  lemma {:induction false} DirectoryIsKept(st: State, fd: Fd)
    requires st.Sound()
    ensures DirectoryAt(st.Open(), st.host.entries, fd) == DirectoryAt(st.Open(), st.Others(), fd)
  {
    hide StandsAfter, Owned;
  }

  /** What the next call that hits finds in a cache holding position `k` of a walk. */
  lemma {:induction false} SavedStands(host: Table<Resource>, cache: DirentCache, fd: Fd, src: Source, cookie: u64,
                                       n: nat)
    requires Saved(host, cache, fd, Success(src), cookie, n) && Remembered(src, cookie, n).Some?
    ensures var k := Remembered(src, cookie, n).value;
            && Hit(cache, fd, cache.cookie) && cache.cookie == k
            && (k <= ReturnedAfter(src, k) + 2 ==>
                  StandingOf(cache, host.entries)
                  == Some((src.listing, PointAt(k, ItemAt(src, k).value.e, ReturnedAfter(src, k)))))
  {
  }

  /** The first 25 bytes of a directory are `.`, which a 25-byte page leaves in the cache. */
  lemma {:induction false} DotPage(src: Source)
    requires src.point.None?
    ensures Expected(src, 0, 25) == Page(Encode(Dot(src.dotInode))) && Remembered(src, 0, 25) == Some(0)
  {
    DotStep(src);
    var dot := Encode(Dot(src.dotInode));
    assert |dot| == 25;
    assert Flat(EntriesFrom(src, 0))[..25] == dot;
  }

  /** From a cached `.` the walk comes to it again at position 2, and a 52-byte page leaves it there. */
  lemma {:induction false} DotReplays(ino: u64, l: Listing)
    ensures var hit, dot := Source(ino, l, Some(AtDots(Dot(ino)))), Encode(Dot(ino));
            && Expected(hit, 0, 52) == Page(dot + Encode(DOTDOT) + dot[..1]) && Remembered(hit, 0, 52) == Some(2)
            && Expected(hit, 2, 25) == Page(dot)
    ensures Expected(Source(ino, l, Some(AtDots(Dot(ino)))), 0, 52) != Expected(Source(ino, l, None), 0, 52)
    ensures Expected(Source(ino, l, Some(AtDots(Dot(ino)))), 2, 25) != Expected(Source(ino, l, None), 2, 25)
  {
    var hit, dot, rest := Source(ino, l, Some(AtDots(Dot(ino)))), Encode(Dot(ino)),
      Flat(EntriesFrom(Source(ino, l, None), 2));
    assert |dot| == 25 && |Encode(DOTDOT)| == 26;
    DotsComeFirst(hit, 0);
    FlatStep(hit, 2);
    var all := Flat(EntriesFrom(hit, 0));
    assert all[..52] == dot + Encode(DOTDOT) + dot[..1];
    assert Flat(EntriesFrom(hit, 2))[..25] == dot;
    DotFills(hit);
    ReplayIsHarmlessIff(ino, l, Dot(ino), 0, 52);
    FirstByte(Dot(ino));
    FirstByteAt(Source(ino, l, None), 2);
  }

  lemma {:induction false} DotFills(hit: Source)
    requires hit.point.Some? && hit.point.value == AtDots(Dot(hit.dotInode))
    ensures Filler(hit, 0, 52) == Some(2)
  {
    assert |Encode(Dot(hit.dotInode))| == 25 && |Encode(DOTDOT)| == 26;
    assert Filler(hit, 2, 1) == Some(2);
    assert Filler(hit, 1, 27) == Some(2);
  }

  /** One call with a fresh buffer of `n` bytes that makes the walk `src`. */
  method Ask(st: State, fd: Fd, cookie: u64, n: nat, ino: u64, ghost src: Source) returns (reply: Reply)
    requires st.Sound() && WalkOf(st, fd, cookie, Success(ino), Success(())) == Success(src)
    modifies st.host, st.cache, st.cache.pathData
    ensures st.Sound() && st.Others() == old(st.Others()) && reply == Expected(src, cookie, n)
    ensures DirectoryAt(st.Open(), st.host.entries, fd) == old(DirectoryAt(st.Open(), st.host.entries, fd))
    ensures Saved(st.host, st.cache, fd, Success(src), cookie, n)
    ensures old(st.Valid()) ==> (st.Valid() <==> !old(Replays(st.cache, fd, cookie, n)) || st.cache.stream.None?)
    ensures !old(Hit(st.cache, fd, cookie)) || st.cache.stream.None? ==> st.Valid()
  {
    hide State.Coherent, State.Others, Replays, Hit, Saved, Observed, Expected, State.Sound, WalkOf, DirectoryAt;
    var buf := new byte[n](_ => 0);
    DirectoryIsKept(st, fd);
    var status := FdReaddir(st, fd, buf, cookie, Success(ino), Success(()));
    DirectoryIsKept(st, fd);
    reply := Observed(status, buf[..]);
  }

  /** The walk of a call that misses the cache, and of one that hits it. */
  lemma {:induction false} WalkOfCall(st: State, fd: Fd, cookie: u64, ino: u64, l: Listing)
    requires DirectoryAt(st.Open(), st.host.entries, fd) == Some(l)
    ensures !Hit(st.cache, fd, cookie) && |st.host.entries| < MAX_ENTRIES ==>
              WalkOf(st, fd, cookie, Success(ino), Success(())) == Success(Source(ino, l, None))
    ensures Hit(st.cache, fd, cookie) && StandingOf(st.cache, st.host.entries).Some? ==>
              var (from, point) := StandingOf(st.cache, st.host.entries).value;
              WalkOf(st, fd, cookie, Success(ino), Success(())) == Success(Source(ino, from, Some(point)))
  {
    hide StandingOf;
  }

  /** The replay is reachable: a client whose 25-byte buffer is full, and who then asks from the start again
      with a larger one, is to get `.` a second time behind `..`. */
  method SmallBufferLeavesDot(st: State, fd: Fd, ino: u64, ghost l: Listing)
    requires st.Valid() && st.cache.stream == None && |st.host.entries| < MAX_ENTRIES
    requires DirectoryAt(st.Open(), st.host.entries, fd) == Some(l)
    modifies st.host, st.cache, st.cache.pathData
    ensures st.Valid() && DirectoryAt(st.Open(), st.host.entries, fd) == Some(l)
    ensures WalkOf(st, fd, 0, Success(ino), Success(())) == Success(Source(ino, l, Some(AtDots(Dot(ino)))))
    ensures Answer(WalkOf(st, fd, 0, Success(ino), Success(())), 0, 52)
            == Page(Encode(Dot(ino)) + Encode(DOTDOT) + Encode(Dot(ino))[..1])
            != Expected(Source(ino, l, None), 0, 52)
    ensures Replays(st.cache, fd, 0, 52)
  {
    hide Saved, StandsAfter, StandingOf, Expected, Remembered, Owned, Encode, WalkOf, DirectoryAt, State.Sound,
      State.Coherent;
    ghost var anew := Source(ino, l, None);
    DotPage(anew);
    DotReplays(ino, l);
    WalkOfCall(st, fd, 0, ino, l);
    var first := Ask(st, fd, 0, 25, ino, anew);
    SavedStands(st.host, st.cache, fd, anew, 0, 25);
    WalkOfCall(st, fd, 0, ino, l);
  }

  /** And it outlives the call: the state is no longer valid, and asking on from the replayed page gives `.`
      a third time, with a cookie that leads back to the start. */
  method GrownBufferReplaysDot(st: State, fd: Fd, ino: u64, ghost l: Listing) returns (reply: Reply)
    requires st.Valid() && st.cache.stream == None && |st.host.entries| < MAX_ENTRIES
    requires DirectoryAt(st.Open(), st.host.entries, fd) == Some(l)
    modifies st.host, st.cache, st.cache.pathData
    ensures reply == Page(Encode(Dot(ino)) + Encode(DOTDOT) + Encode(Dot(ino))[..1])
    ensures st.Sound() && !st.Valid() && DirectoryAt(st.Open(), st.host.entries, fd) == Some(l)
    ensures Answer(WalkOf(st, fd, 2, Success(ino), Success(())), 2, 25)
            == Page(Encode(Dot(ino)))
            != Expected(Source(ino, l, None), 2, 25)
  {
    hide Saved, StandsAfter, StandingOf, Expected, Remembered, Owned, Encode, WalkOf, DirectoryAt, Replays,
      State.Sound, State.Coherent;
    ghost var hit := Source(ino, l, Some(AtDots(Dot(ino))));
    DotReplays(ino, l);
    SmallBufferLeavesDot(st, fd, ino, l);
    reply := Ask(st, fd, 0, 52, ino, hit);
    SavedStands(st.host, st.cache, fd, hit, 0, 52);
    WalkOfCall(st, fd, 2, ino, l);
  }
}
