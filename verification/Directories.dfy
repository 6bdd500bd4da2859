/** Directory listings as the host returns them, the entries preview 1 programs see in them, and
    what one `fd_readdir` call is to return. */
module Directories {
  import opened Wrappers
  import opened Bytes
  import opened Wasi
  import opened Dirents

  /** The longest name the adapter's path buffer takes; a longer one traps. */
  const PATH_MAX: nat := 4096

  const DOT: byte := '.' as int

  datatype HostEntry = HostEntry(inode: Option<u64>, kind: DescriptorType, name: seq<byte>)

  /** What successive `read_directory_entry` calls on one directory return, in order. The bound
      keeps every cookie below 2^64. */
  type Listing = l: seq<Result<HostEntry, Errno>> | |l| + 4 < TWO_64

  datatype Item = Entry(e: DirEntry) | Broken(why: Failure)

  /** Where a cached stream stands in a walk: `entry` comes at position `at`, and the stream, which has
      returned `returned` host entries, goes on from there. The bounds keep every cookie below 2^64. */
  datatype Standing = Standing(at: nat, entry: DirEntry, returned: nat)

  type Point = p: Standing | 2 <= p.at <= p.returned + 2 && p.at < TWO_64
    witness Standing(2, DirEntry(Dirent(0, 0, 0, 0), []), 0)

  /** A directory as `fd_readdir` walks it, from its start or from the point where a cached stream
      stands. */
  datatype Source = Source(dotInode: u64, listing: Listing, point: Option<Point>)

  function FileType(kind: DescriptorType): byte
  {
    match kind
    case BlockDevice => 1
    case CharacterDevice => 2
    case Directory => 3
    case RegularFile => 4
    case SymbolicLink => 7
    case Fifo | Socket | Unknown => 0
  }

  /** One host entry as a preview 1 entry; a socket has no preview 1 type yet and traps. */
  function Convert(h: Result<HostEntry, Errno>, next: u64): Item
  {
    match h
    case Failure(e) => Broken(Error(e))
    case Success(x) =>
      if |x.name| > PATH_MAX || x.kind.Socket? then Broken(Trap)
      else
        var ino := if x.inode.Some? then x.inode.value else 0;
        Entry(DirEntry(Dirent(next, ino, |x.name|, FileType(x.kind)), x.name))
  }

  /** The entry at position `k`, counting `.` as 0 and `..` as 1, if there is one. A walk from a point
      past the dots does not visit the positions before the point. */
  function HostItem(l: Listing, point: Option<Point>, k: nat): Option<Item>
    requires k >= 2
  {
    if point.Some? && k <= point.value.at then Some(Entry(point.value.entry))
    else
      var i := if point.Some? then point.value.returned + k - point.value.at - 1 else k - 2;
      if i < |l| then Some(Convert(l[i], k + 1)) else None
  }

  function Dot(ino: u64): DirEntry { DirEntry(Dirent(1, ino, 1, FileType(Directory)), [DOT]) }

  const DOTDOT: DirEntry := DirEntry(Dirent(2, 0, 2, FileType(Directory)), [DOT, DOT])

  function ItemAt(src: Source, k: nat): Option<Item>
  {
    if k == 0 then Some(Entry(Dot(src.dotInode)))
    else if k == 1 then Some(Entry(DOTDOT))
    else HostItem(src.listing, src.point, k)
  }

  /** How many positions the walk has. */
  function Count(src: Source): nat
  {
    match src.point
    case None => |src.listing| + 2
    case Some(p) => p.at + 1 + if p.returned < |src.listing| then |src.listing| - p.returned else 0
  }

  /** How many host entries the walk's stream has returned once it got to position `k`. */
  function ReturnedAfter(src: Source, k: nat): nat
  {
    match src.point
    case None => if k < 2 then 0 else k - 1
    case Some(p) => if k <= p.at then p.returned else p.returned + k - p.at
  }

  ghost predicate GoodSource(src: Source) { src.point.Some? ==> GoodEntry(src.point.value.entry) }

  /** The entries from position `k` on, up to the first one that cannot be read. */
  function EntriesFrom(src: Source, k: nat): (es: seq<DirEntry>)
    decreases Count(src) - k
  {
    match ItemAt(src, k)
    case Some(Entry(e)) => [e] + EntriesFrom(src, k + 1)
    case _ => []
  }

  /** Why the entries from `k` on end early, if they do. */
  function EndFrom(src: Source, k: nat): Option<Failure>
    decreases Count(src) - k
  {
    match ItemAt(src, k)
    case Some(Entry(_)) => EndFrom(src, k + 1)
    case Some(Broken(why)) => Some(why)
    case None => None
  }

  /** The first unreadable position below `k`, as what it fails with. */
  function BrokenBefore(l: Listing, point: Option<Point>, k: nat): Option<Failure>
  {
    if k <= 2 then None
    else
      var earlier := BrokenBefore(l, point, k - 1);
      if earlier.Some? then earlier
      else
        match HostItem(l, point, k - 1)
        case Some(Broken(why)) => Some(why)
        case _ => None
  }

  // ----- what one call returns -----

  /** `Page` carries the bytes written; `PastEnd` is success without `bufused` being written. */
  datatype Reply = Page(bytes: seq<byte>) | PastEnd | Failed(why: Failure)

  /** The first `n` bytes of `all`, unless the call runs into an unreadable entry before that. */
  function PageOf(all: seq<byte>, end: Option<Failure>, n: nat): (r: Reply)
  {
    if |all| < n && end.Some? then Failed(end.value) else Page(all[..Min(n, |all|)])
  }

  /** What `fd_readdir` is to return for a cookie and a buffer of `n` bytes: the first `n` bytes of
      the entries' encodings from that cookie on. An entry that cannot be read fails the call if it
      lies before the cookie or before the buffer is full. */
  function Expected(src: Source, cookie: nat, n: nat): (r: Reply)
  {
    var earlier := BrokenBefore(src.listing, src.point, cookie);
    if earlier.Some? then Failed(earlier.value)
    else if cookie > Count(src) then PastEnd
    else PageOf(Flat(EntriesFrom(src, cookie)), EndFrom(src, cookie), n)
  }

  /** The longest name the adapter's cache stores. */
  const DIRENT_CACHE: nat := 256

  /** The position of the entry that fills a page of `n` bytes begun at `k`. */
  function Filler(src: Source, k: nat, n: nat): (at: Option<nat>)
    ensures at.Some? ==> at.value >= k && ItemAt(src, at.value).Some? && ItemAt(src, at.value).value.Entry?
    decreases Count(src) - k
  {
    match ItemAt(src, k)
    case Some(Entry(e)) =>
      if n == 0 then None else if |Encode(e)| >= n then Some(k) else Filler(src, k + 1, n - |Encode(e)|)
    case _ => None
  }

  /** The position that a call leaves in the cache: the entry that filled its page, if the call got
      to it and its name is short enough. */
  function Remembered(src: Source, cookie: nat, n: nat): (at: Option<nat>)
  {
    if BrokenBefore(src.listing, src.point, cookie).Some? then None
    else
      var at := Filler(src, cookie, n);
      if at.Some? && |ItemAt(src, at.value).value.e.name| <= DIRENT_CACHE then at else None
  }

  /** A buffer that outlasts the dots is never filled by one of them; one that does not, is. */
  lemma {:induction false} FillerAndDots(src: Source, first: nat, n: nat)
    requires Filler(src, first, n).Some?
    ensures n > DotBytes(0) ==> Filler(src, first, n).value >= 2
    ensures first < 2 ==> (Filler(src, first, n).value >= 2 <==> n > DotBytes(first))
  {
    if first == 0 {
      assert |Encode(Dot(src.dotInode))| == 25 && |Encode(DOTDOT)| == 26;
    } else if first == 1 {
      assert |Encode(DOTDOT)| == 26;
    }
  }

  // ----- how the walk unfolds -----

  /** Past the end there is nothing left to fail. */
  lemma {:induction false} BrokenBeforeSettles(src: Source, at: nat, k: nat)
    requires Count(src) <= at <= k
    ensures BrokenBefore(src.listing, src.point, k) == BrokenBefore(src.listing, src.point, at)
  {
    if at < k {
      BrokenBeforeSettles(src, at, k - 1);
    }
  }

  /** A position that cannot be read stays the first one for every later cookie. */
  lemma {:induction false} BrokenBeforeSticks(src: Source, at: nat, k: nat)
    requires 2 <= at < k && BrokenBefore(src.listing, src.point, at).None?
    requires HostItem(src.listing, src.point, at).Some? && HostItem(src.listing, src.point, at).value.Broken?
    ensures BrokenBefore(src.listing, src.point, k) == Some(HostItem(src.listing, src.point, at).value.why)
  {
    if at + 1 < k {
      BrokenBeforeSticks(src, at, k - 1);
    }
  }

  lemma {:induction false} ItemIsGood(src: Source, k: nat)
    requires GoodSource(src) && ItemAt(src, k).Some? && ItemAt(src, k).value.Entry?
    ensures GoodEntry(ItemAt(src, k).value.e)
    ensures k == 0 ==> |Encode(ItemAt(src, k).value.e)| == 25
    ensures k == 1 ==> |Encode(ItemAt(src, k).value.e)| == 26
  {
  }

  lemma {:induction false} EntriesAreGood(src: Source, k: nat)
    requires GoodSource(src)
    ensures GoodEntries(EntriesFrom(src, k))
    decreases Count(src) - k
  {
    match ItemAt(src, k)
    case Some(Entry(e)) => EntriesAreGood(src, k + 1);
    case _ =>
  }

  /** With nothing unreadable before `k`, the entries from `k` are the tail of all entries. */
  lemma {:induction false} EntriesFromIsTail(src: Source, k: nat)
    requires k <= Count(src) && BrokenBefore(src.listing, src.point, k).None?
    ensures k <= |EntriesFrom(src, 0)|
    ensures EntriesFrom(src, 0)[k..] == EntriesFrom(src, k)
    ensures EndFrom(src, 0) == EndFrom(src, k)
  {
    if k > 0 {
      Readable(src, k - 1);
      EntriesFromIsTail(src, k - 1);
      var all, here := EntriesFrom(src, 0), EntriesFrom(src, k - 1);
      EntriesStep(src, k - 1);
      assert all[k..] == here[1..];
    }
  }

  /** A position that a later cookie finds readable holds an entry. */
  lemma {:induction false} Readable(src: Source, k: nat)
    requires k < Count(src) && BrokenBefore(src.listing, src.point, k + 1).None?
    ensures BrokenBefore(src.listing, src.point, k).None?
    ensures ItemAt(src, k).Some? && ItemAt(src, k).value.Entry?
  {
  }

  lemma {:induction false} EntriesStep(src: Source, k: nat)
    requires ItemAt(src, k).Some? && ItemAt(src, k).value.Entry?
    ensures EntriesFrom(src, k) == [ItemAt(src, k).value.e] + EntriesFrom(src, k + 1)
    ensures EntriesFrom(src, k)[1..] == EntriesFrom(src, k + 1)
    ensures EndFrom(src, k) == EndFrom(src, k + 1)
  {
  }

  lemma {:induction false} FlatStep(src: Source, k: nat)
    requires ItemAt(src, k).Some? && ItemAt(src, k).value.Entry?
    ensures Flat(EntriesFrom(src, k)) == Encode(ItemAt(src, k).value.e) + Flat(EntriesFrom(src, k + 1))
    ensures EndFrom(src, k) == EndFrom(src, k + 1)
  {
    assert EntriesFrom(src, k)[1..] == EntriesFrom(src, k + 1);
  }

  /** An entry read without failure extends the readable prefix. */
  lemma {:induction false} ReadableExtends(src: Source, k: nat)
    requires BrokenBefore(src.listing, src.point, k).None?
    requires ItemAt(src, k).Some? && ItemAt(src, k).value.Entry?
    ensures BrokenBefore(src.listing, src.point, k + 1).None?
  {
  }

  /** Every cookie is the position of the next entry. */
  lemma {:induction false} NextIsPosition(src: Source, k: nat)
    requires src.point.None? && k < |EntriesFrom(src, 0)|
    ensures EntriesFrom(src, 0)[k].dirent.next == k + 1
    ensures BrokenBefore(src.listing, src.point, k + 1).None? && k < Count(src)
  {
    NextIsPositionFrom(src, 0, k);
  }

  lemma {:induction false} NextIsPositionFrom(src: Source, from: nat, i: nat)
    requires src.point.None? && i < |EntriesFrom(src, from)|
    requires BrokenBefore(src.listing, src.point, from).None?
    ensures EntriesFrom(src, from)[i].dirent.next == from + i + 1
    ensures BrokenBefore(src.listing, src.point, from + i + 1).None? && from + i < Count(src)
    decreases i
  {
    ReadableExtends(src, from);
    if i > 0 {
      NextIsPositionFrom(src, from + 1, i - 1);
    }
  }

  /** Every entry before the one that fills a page is readable. */
  lemma {:induction false} FillerIsReadable(src: Source, k: nat, n: nat)
    requires BrokenBefore(src.listing, src.point, k).None? && Filler(src, k, n).Some?
    ensures BrokenBefore(src.listing, src.point, Filler(src, k, n).value).None?
    decreases Count(src) - k
  {
    var e := ItemAt(src, k).value.e;
    if |Encode(e)| < n {
      ReadableExtends(src, k);
      FillerIsReadable(src, k + 1, n - |Encode(e)|);
    }
  }

  /** The entry that fills a page is the first one that reaches its end. */
  lemma {:induction false} FillerIsExact(src: Source, k: nat, n: nat)
    ensures var es := EntriesFrom(src, k);
            match Filler(src, k, n)
            case None => n == 0 || |Flat(es)| < n
            case Some(at) => at - k < |es| && |Flat(es[..at - k])| < n <= |Flat(es[..at - k + 1])|
    decreases n
  {
    hide ItemAt, EntriesFrom, Encode, Count;
    if n > 0 && ItemAt(src, k).Some? && ItemAt(src, k).value.Entry? {
      var es, e := EntriesFrom(src, k), ItemAt(src, k).value.e;
      EntriesStep(src, k);
      if |Encode(e)| < n {
        FillerIsExact(src, k + 1, n - |Encode(e)|);
        if Filler(src, k, n).Some? {
          FlatOfMore(es, Filler(src, k, n).value - k);
          FlatOfMore(es, Filler(src, k, n).value - k + 1);
        }
      } else {
        FlatOfMore(es, 1);
      }
    } else if n > 0 {
      NoEntries(src, k);
    }
  }

  lemma {:induction false} NoEntries(src: Source, k: nat)
    requires ItemAt(src, k).None? || ItemAt(src, k).value.Broken?
    ensures EntriesFrom(src, k) == []
  {
  }

  lemma {:induction false} FlatOfMore(es: seq<DirEntry>, i: nat)
    requires 0 < i <= |es|
    ensures |Flat(es[..i])| == |Encode(es[0])| + |Flat(es[1..][..i - 1])|
  {
    assert es[..i][1..] == es[1..][..i - 1];
  }

  // ----- a walk in the host's own terms -----

  /** Kinds that preview 1 knows have types of their own. */
  lemma {:induction false} FileTypeTells(a: DescriptorType, b: DescriptorType)
    ensures FileType(a) == FileType(b) <==> a == b || (a in {Fifo, Socket, Unknown} && b in {Fifo, Socket, Unknown})
    ensures FileType(a) == 0 <==> a in {Fifo, Socket, Unknown}
    ensures FileType(Directory) == 3 && FileType(RegularFile) == 4
  {
  }

  /** The entries are `.`, `..`, and then the host's own in order, each with its own name, inode and type,
      up to the first that cannot be read; that one says why they end. */
  lemma {:induction false} EntriesAreTheHosts(src: Source)
    requires src.point.None?
    ensures var es, l := EntriesFrom(src, 0), src.listing;
            && 2 <= |es| <= |l| + 2
            && es[0] == DirEntry(Dirent(1, src.dotInode, 1, FileType(Directory)), ['.' as int])
            && es[1] == DirEntry(Dirent(2, 0, 2, FileType(Directory)), ['.' as int, '.' as int])
            && (forall i :: 0 <= i < |es| - 2 ==>
                  && l[i].Success? && |l[i].value.name| <= PATH_MAX && l[i].value.kind != Socket
                  && es[i + 2].name == l[i].value.name && es[i + 2].dirent.namlen == |l[i].value.name|
                  && es[i + 2].dirent.next == i + 3
                  && es[i + 2].dirent.ino == (if l[i].value.inode.Some? then l[i].value.inode.value else 0)
                  && es[i + 2].dirent.ftype == FileType(l[i].value.kind))
    ensures var m, l := |EntriesFrom(src, 0)|, src.listing;
            match EndFrom(src, 0)
            case None => m == |l| + 2
            case Some(why) =>
              && m < |l| + 2
              && match l[m - 2]
                 case Failure(e) => why == Error(e)
                 case Success(h) => why == Trap && (|h.name| > PATH_MAX || h.kind == Socket)
  {
    EntriesStep(src, 0);
    EntriesStep(src, 1);
    HostEntriesFrom(src, 2);
    var es, rest, l := EntriesFrom(src, 0), EntriesFrom(src, 2), src.listing;
    forall i | 0 <= i < |es| - 2 ensures IsHosts(es[i + 2], l[i], i + 3) {
      assert es[i + 2] == rest[i] && IsHosts(rest[i], l[2 - 2 + i], 2 + i + 1);
    }
  }

  ghost predicate IsHosts(e: DirEntry, h: Result<HostEntry, Errno>, next: nat)
  {
    && h.Success? && |h.value.name| <= PATH_MAX && h.value.kind != Socket
    && e.name == h.value.name && e.dirent.namlen == |h.value.name| && e.dirent.next == next
    && e.dirent.ino == (if h.value.inode.Some? then h.value.inode.value else 0)
    && e.dirent.ftype == FileType(h.value.kind)
  }

  lemma {:induction false} HostEntriesFrom(src: Source, k: nat)
    requires src.point.None? && 2 <= k <= |src.listing| + 2
    ensures var es, l := EntriesFrom(src, k), src.listing;
            && k + |es| <= |l| + 2
            && forall i :: 0 <= i < |es| ==> IsHosts(es[i], l[k - 2 + i], k + i + 1)
    ensures var m, l := k + |EntriesFrom(src, k)|, src.listing;
            match EndFrom(src, k)
            case None => m == |l| + 2
            case Some(why) =>
              && m < |l| + 2
              && match l[m - 2]
                 case Failure(e) => why == Error(e)
                 case Success(h) => why == Trap && (|h.name| > PATH_MAX || h.kind == Socket)
    decreases |src.listing| + 2 - k
  {
    hide FileType;
    if k < |src.listing| + 2 && ItemAt(src, k).value.Entry? {
      HostEntriesFrom(src, k + 1);
      EntriesStep(src, k);
      var es, rest, l := EntriesFrom(src, k), EntriesFrom(src, k + 1), src.listing;
      forall i | 0 <= i < |es| ensures IsHosts(es[i], l[k - 2 + i], k + i + 1) {
        if i > 0 {
          assert es[i] == rest[i - 1] && IsHosts(rest[i - 1], l[k - 1 + (i - 1)], k + 1 + (i - 1) + 1);
        }
      }
    }
  }

  /** What fails a call is what ends the entries. */
  lemma {:induction false} FailureIsEnd(src: Source, cookie: nat)
    ensures BrokenBefore(src.listing, src.point, cookie).Some? ==>
              EndFrom(src, 0) == BrokenBefore(src.listing, src.point, cookie)
    ensures BrokenBefore(src.listing, src.point, cookie).None? && cookie <= Count(src) ==>
              EndFrom(src, 0) == EndFrom(src, cookie)
  {
    if BrokenBefore(src.listing, src.point, cookie).Some? {
      FailureIsEnd(src, cookie - 1);
      if BrokenBefore(src.listing, src.point, cookie - 1).None? && cookie - 1 > Count(src) {
        BrokenBeforeSettles(src, Count(src), cookie);
      }
    } else if cookie <= Count(src) {
      EntriesFromIsTail(src, cookie);
    }
  }

  /** The page of a call that reads the directory from its start: of the entries' encodings from the
      cookie on as much as fits, unless an unreadable entry comes first. */
  lemma {:induction false} PageIsOfTheEntries(src: Source, cookie: nat, n: nat)
    requires src.point.None?
    ensures var es, end := EntriesFrom(src, 0), EndFrom(src, 0);
            Expected(src, cookie, n)
            == if cookie > |es| then if end.Some? then Failed(end.value) else PastEnd
               else
                 var bytes := Flat(es[cookie..]);
                 if n <= |bytes| then Page(bytes[..n]) else if end.Some? then Failed(end.value) else Page(bytes)
  {
    hide Flat, Encode, EntriesFrom, EndFrom;
    var es := EntriesFrom(src, 0);
    FailureIsEnd(src, cookie);
    EntriesAreTheHosts(src);
    if BrokenBefore(src.listing, None, cookie).Some? {
      if cookie <= |es| {
        NextIsPosition(src, cookie - 1);
      }
    } else if cookie <= Count(src) {
      EntriesFromIsTail(src, cookie);
    } else {
      BrokenBeforeSettles(src, Count(src), cookie);
      EntriesFromIsTail(src, Count(src));
      NothingAtEnd(src);
    }
  }

  lemma {:induction false} NothingAtEnd(src: Source)
    ensures EntriesFrom(src, Count(src)) == [] && EndFrom(src, Count(src)).None?
  {
  }

  lemma {:induction false} FlatGrows(es: seq<DirEntry>, i: nat, j: nat)
    requires i <= j <= |es|
    ensures |Flat(es[..i])| <= |Flat(es[..j])|
    ensures i < j ==> |Flat(es[..i])| < |Flat(es[..j])|
    decreases i
  {
    if i > 0 {
      FlatOfMore(es, i);
      FlatOfMore(es, j);
      FlatGrows(es[1..], i - 1, j - 1);
    } else if j > 0 {
      FlatOfMore(es, j);
    }
  }

  /** What a call that reads the directory from its start leaves in the cache: the entry that its page ends
      in or with, if it got there and the name has at most 256 bytes. */
  lemma {:induction false} RememberedIff(src: Source, cookie: nat, n: nat, k: nat)
    requires src.point.None?
    ensures var es := EntriesFrom(src, 0);
            Remembered(src, cookie, n) == Some(k) <==>
              && cookie <= k < |es| && |es[k].name| <= 256
              && |Flat(es[cookie..][..k - cookie])| < n <= |Flat(es[cookie..][..k - cookie + 1])|
  {
    hide Flat, Encode, EntriesFrom, EndFrom, Filler, BrokenBefore;
    var es := EntriesFrom(src, 0);
    EntriesAreTheHosts(src);
    FillerIsExact(src, cookie, n);
    if BrokenBefore(src.listing, None, cookie).Some? {
      if cookie < |es| {
        NextIsPosition(src, cookie);
        BrokenEarlier(src, cookie);
      }
    } else if cookie <= Count(src) {
      EntriesFromIsTail(src, cookie);
      var tail, at := es[cookie..], Filler(src, cookie, n);
      if cookie <= k < |es| {
        FlatGrows(tail, k - cookie + 1, |tail|);
        assert tail[..|tail|] == tail;
        if at.Some? {
          if at.value < k {
            FlatGrows(tail, at.value - cookie + 1, k - cookie);
          } else if k < at.value {
            FlatGrows(tail, k - cookie + 1, at.value - cookie);
          }
        }
      }
      if at.Some? {
        FilledByEntry(src, cookie, at.value);
      }
    } else {
      NothingFrom(src, cookie);
    }
  }

  lemma {:induction false} BrokenEarlier(src: Source, k: nat)
    ensures BrokenBefore(src.listing, src.point, k + 1).None? ==> BrokenBefore(src.listing, src.point, k).None?
  {
  }

  /** The entry at a position is the one that the walk has there. */
  lemma {:induction false} FilledByEntry(src: Source, from: nat, at: nat)
    requires from <= at < from + |EntriesFrom(src, from)|
    ensures ItemAt(src, at) == Some(Entry(EntriesFrom(src, from)[at - from]))
    decreases at - from
  {
    hide ItemAt;
    if ItemAt(src, from).Some? && ItemAt(src, from).value.Entry? {
      EntriesStep(src, from);
      if from < at {
        FilledByEntry(src, from + 1, at);
      }
    } else {
      NoEntries(src, from);
    }
  }

  lemma {:induction false} NothingFrom(src: Source, k: nat)
    requires k > Count(src)
    ensures EntriesFrom(src, k) == []
  {
  }

  // ----- going on from where a walk got to -----

  /** Position `k` of the walk holds an entry, and is past the dots and not before the walk's point. */
  ghost predicate Reached(src: Source, k: nat)
  {
    2 <= k && (src.point.Some? ==> src.point.value.at <= k) && ItemAt(src, k).Some? && ItemAt(src, k).value.Entry?
  }

  /** The walk from position `k` on, made from the entry there and a stream that stands after it. */
  ghost function Continued(src: Source, k: nat): (next: Source)
    requires Reached(src, k)
  {
    Source(src.dotInode, src.listing, Some(Standing(k, ItemAt(src, k).value.e, ReturnedAfter(src, k))))
  }

  lemma {:induction false} ContinuesAt(src: Source, k: nat, j: nat)
    requires Reached(src, k) && k <= j
    ensures ItemAt(Continued(src, k), j) == ItemAt(src, j)
    ensures ReturnedAfter(Continued(src, k), j) == ReturnedAfter(src, j)
    ensures BrokenBefore(src.listing, Continued(src, k).point, k).None?
  {
    if k > 2 {
      NothingBrokenBefore(src.listing, Continued(src, k).point.value, k);
    }
  }

  lemma {:induction false} NothingBrokenBefore(l: Listing, p: Point, k: nat)
    requires k <= p.at
    ensures BrokenBefore(l, Some(p), k).None?
  {
    if k > 2 {
      NothingBrokenBefore(l, p, k - 1);
    }
  }

  lemma {:induction false} ContinuesFrom(src: Source, k: nat, j: nat, n: nat)
    requires Reached(src, k) && k <= j
    ensures EntriesFrom(Continued(src, k), j) == EntriesFrom(src, j) && EndFrom(Continued(src, k), j) == EndFrom(src, j)
    ensures Filler(Continued(src, k), j, n) == Filler(src, j, n)
    decreases Count(src) - j
  {
    hide Continued;
    ContinuesAt(src, k, j);
    if ItemAt(src, j).Some? && ItemAt(src, j).value.Entry? {
      var m := |Encode(ItemAt(src, j).value.e)|;
      ContinuesFrom(src, k, j + 1, if m < n then n - m else 0);
    }
  }

  lemma {:induction false} WithinCount(src: Source, k: nat)
    requires Reached(src, k)
    ensures k <= Count(src) && k <= Count(Continued(src, k))
    ensures Continued(src, k).listing == src.listing
  {
  }

  /** Going on from where a walk got to gives the page that the walk itself would give there, and
      gets to the same position. */
  lemma {:induction false} ContinuingIsExact(src: Source, k: nat, n: nat)
    requires Reached(src, k) && BrokenBefore(src.listing, src.point, k).None?
    ensures Expected(Continued(src, k), k, n) == Expected(src, k, n)
    ensures Remembered(Continued(src, k), k, n) == Remembered(src, k, n)
    ensures Remembered(src, k, n).Some? ==>
              var at := Remembered(src, k, n).value; ReturnedAfter(Continued(src, k), at) == ReturnedAfter(src, at)
  {
    WithinCount(src, k);
    hide Continued, EntriesFrom, EndFrom, Count, Flat, PageOf, Filler, ItemAt, ReturnedAfter, BrokenBefore, Reached;
    ContinuesFrom(src, k, k, n);
    ContinuesAt(src, k, k);
    if Filler(src, k, n).Some? {
      ContinuesAt(src, k, Filler(src, k, n).value);
    }
  }

  // ----- when the replayed walk still gives the right page -----

  /** A cache filled at cookie 0 or 1: the cached entry comes back at position 2, and the listing
      after it. */
  function AtDots(cached: DirEntry): Point { Standing(2, cached, 0) }

  /** The bytes of `.` and `..` that are still to come at cookie 0 or 1. */
  function Dots(ino: u64, cookie: nat): (s: seq<byte>)
    ensures |s| == DotBytes(cookie)
  {
    if cookie == 0 then Encode(Dot(ino)) + Encode(DOTDOT) else Encode(DOTDOT)
  }

  function DotBytes(cookie: nat): nat { if cookie == 0 then 51 else 26 }

  lemma {:induction false} DotDotStep(src: Source)
    ensures Flat(EntriesFrom(src, 1)) == Encode(DOTDOT) + Flat(EntriesFrom(src, 2))
    ensures EndFrom(src, 1) == EndFrom(src, 2)
  {
    FlatStep(src, 1);
  }

  lemma {:induction false} DotStep(src: Source)
    ensures Flat(EntriesFrom(src, 0)) == Encode(Dot(src.dotInode)) + Flat(EntriesFrom(src, 1))
    ensures EndFrom(src, 0) == EndFrom(src, 1)
  {
    FlatStep(src, 0);
  }

  lemma {:induction false} DotsComeFirst(src: Source, cookie: nat)
    requires cookie < 2
    ensures Flat(EntriesFrom(src, cookie)) == Dots(src.dotInode, cookie) + Flat(EntriesFrom(src, 2))
    ensures EndFrom(src, cookie) == EndFrom(src, 2)
  {
    DotDotStep(src);
    DotStep(src);
    var dot, dotdot, rest := Encode(Dot(src.dotInode)), Encode(DOTDOT), Flat(EntriesFrom(src, 2));
    assert dot + (dotdot + rest) == dot + dotdot + rest;
  }

  lemma {:induction false} PagesDifferPastDots(dots: seq<byte>, right: seq<byte>, wrong: seq<byte>,
                                               end: Option<Failure>, n: nat)
    requires |wrong| > |right|
    requires right == [] || right[0] != wrong[0]
    ensures PageOf(dots + wrong, end, n) == PageOf(dots + right, end, n)
            <==> n <= |dots| || (end.Some? && n > |dots| + |wrong|)
  {
    if n > |dots| {
      assert (dots + wrong)[|dots|] == wrong[0];
      if right != [] {
        assert (dots + right)[|dots|] == right[0];
      }
    } else {
      assert (dots + wrong)[..n] == dots[..n] == (dots + right)[..n];
    }
  }

  /** The buffer has room for the dots, the replayed entry and everything up to an unreadable entry, so
      that both walks run into it. */
  predicate OutlastsListing(src: Source, cookie: nat, cached: DirEntry, n: nat)
  {
    EndFrom(src, 2).Some? && n > DotBytes(cookie) + |Encode(cached)| + |Flat(EntriesFrom(src, 2))|
  }

  /** A cache filled at cookie 0 or 1 gives the right page exactly when the buffer ends within the
      dots, or has room for everything up to an unreadable entry. */
  lemma {:induction false} ReplayIsHarmlessIff(ino: u64, l: Listing, cached: DirEntry, cookie: nat, n: nat)
    requires cookie < 2 && cached.dirent.next == cookie + 1
    ensures Expected(Source(ino, l, Some(AtDots(cached))), cookie, n) == Expected(Source(ino, l, None), cookie, n)
            <==> n <= DotBytes(cookie) || OutlastsListing(Source(ino, l, None), cookie, cached, n)
  {
    var replay, plain := Source(ino, l, Some(AtDots(cached))), Source(ino, l, None);
    DotsComeFirst(replay, cookie);
    DotsComeFirst(plain, cookie);
    ReplayedTail(ino, l, cached);
    PagesDifferPastDots(Dots(ino, cookie), Flat(EntriesFrom(plain, 2)), Flat(EntriesFrom(replay, 2)),
                        EndFrom(plain, 2), n);
  }

  /** From position 2 on the replayed walk is longer and starts with another cookie. */
  lemma {:induction false} ReplayedTail(ino: u64, l: Listing, cached: DirEntry)
    requires cached.dirent.next < 3
    ensures var right := Flat(EntriesFrom(Source(ino, l, None), 2));
            var wrong := Flat(EntriesFrom(Source(ino, l, Some(AtDots(cached))), 2));
            |wrong| == |Encode(cached)| + |right| && (right == [] || right[0] != wrong[0])
    ensures EndFrom(Source(ino, l, Some(AtDots(cached))), 2) == EndFrom(Source(ino, l, None), 2)
  {
    hide EntriesFrom, EndFrom, Encode, Flat;
    ReplayShifts(ino, l, cached, 2);
    FlatStep(Source(ino, l, Some(AtDots(cached))), 2);
    FirstByte(cached);
    FirstByteAt(Source(ino, l, None), 2);
  }

  lemma {:induction false} FirstByte(e: DirEntry)
    ensures Encode(e)[0] == e.dirent.next % 256
  {
    assert LittleEndian(8, e.dirent.next)[0] == e.dirent.next % 256;
  }

  lemma {:induction false} FirstByteAt(src: Source, k: nat)
    requires k == 2 && src.point.None?
    ensures Flat(EntriesFrom(src, k)) == [] || Flat(EntriesFrom(src, k))[0] == 3
  {
    match ItemAt(src, k)
    case Some(Entry(e)) =>
      FlatStep(src, k);
      FirstByte(e);
    case _ =>
  }

  /** The replayed walk returns the same host entries one position later. */
  lemma {:induction false} ReplayShifts(ino: u64, l: Listing, cached: DirEntry, k: nat)
    requires k >= 2
    ensures EndFrom(Source(ino, l, Some(AtDots(cached))), k + 1) == EndFrom(Source(ino, l, None), k)
    ensures |Flat(EntriesFrom(Source(ino, l, Some(AtDots(cached))), k + 1))|
            == |Flat(EntriesFrom(Source(ino, l, None), k))|
    decreases |l| + 2 - k
  {
    var replay, plain := Source(ino, l, Some(AtDots(cached))), Source(ino, l, None);
    if k - 2 < |l| && Convert(l[k - 2], k + 1).Entry? {
      ReplayShifts(ino, l, cached, k + 1);
      assert ItemAt(plain, k) == Some(Convert(l[k - 2], k + 1));
      assert ItemAt(replay, k + 1) == Some(Convert(l[k - 2], k + 2));
      FlatStep(plain, k);
      FlatStep(replay, k + 1);
    }
  }
}
