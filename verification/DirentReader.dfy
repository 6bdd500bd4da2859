/** The client's side of `fd_readdir`: taking the entries back out of a page. */
module DirentReader {
  import opened Wrappers
  import opened Bytes
  import opened Dirents

  /** The entry at the start of `s` and what follows it; none if `s` cuts it off. */
  function ParseNext(s: seq<byte>): (r: Option<(DirEntry, seq<byte>)>)
    ensures r.Some? ==> |r.value.1| < |s|
  {
    if |s| < DIRENT_SIZE then None
    else
      var d := DecodeDirent(s);
      if |s| < DIRENT_SIZE + d.namlen then None
      else Some((DirEntry(d, s[DIRENT_SIZE..DIRENT_SIZE + d.namlen]), s[DIRENT_SIZE + d.namlen..]))
  }

  function ParseAll(s: seq<byte>): (es: seq<DirEntry>)
    decreases |s|
  {
    match ParseNext(s)
    case None => []
    case Some((e, rest)) => [e] + ParseAll(rest)
  }

  /** Reads a page entry by entry, advancing over it. */
  class ReadDir {
    var buf: seq<byte>

    constructor (buf: seq<byte>)
      ensures this.buf == buf
    {
      this.buf := buf;
    }

    method Next() returns (e: Option<DirEntry>)
      modifies this
      ensures match ParseNext(old(buf))
              case None => e == None && buf == old(buf)
              case Some((first, rest)) => e == Some(first) && buf == rest
    {
      if |buf| < DIRENT_SIZE {
        return None;
      }
      var d := DecodeDirent(buf);
      if |buf| < DIRENT_SIZE + d.namlen {
        return None;
      }
      e := Some(DirEntry(d, buf[DIRENT_SIZE..DIRENT_SIZE + d.namlen]));
      buf := buf[DIRENT_SIZE + d.namlen..];
    }

    method Collect() returns (es: seq<DirEntry>)
      modifies this
      ensures es == ParseAll(old(buf))
    {
      hide ParseAll, ParseNext;
      es := [];
      while true
        invariant es + ParseAll(buf) == ParseAll(old(buf))
        decreases |buf|
      {
        ParseAllStep(buf);
        ghost var before := buf;
        var e := Next();
        if e.None? {
          break;
        }
        assert ParseAll(before) == [e.value] + ParseAll(buf);
        assert es + ([e.value] + ParseAll(buf)) == es + [e.value] + ParseAll(buf);
        es := es + [e.value];
      }
    }
  }

  lemma {:induction false} ParseAllStep(s: seq<byte>)
    ensures match ParseNext(s)
            case None => ParseAll(s) == []
            case Some((e, rest)) => ParseAll(s) == [e] + ParseAll(rest) && |rest| < |s|
  {
  }

  /** How many of `es` lie whole within the first `n` bytes of their encoding. */
  function Whole(es: seq<DirEntry>, n: nat): (m: nat)
    ensures m <= |es|
  {
    if es == [] || |Encode(es[0])| > n then 0 else 1 + Whole(es[1..], n - |Encode(es[0])|)
  }

  /** `Whole` counts as many entries as fit, and not one more. */
  lemma {:induction false} WholeIsExact(es: seq<DirEntry>, n: nat)
    ensures |Flat(es[..Whole(es, n)])| <= n
    ensures Whole(es, n) < |es| ==> |Flat(es[..Whole(es, n) + 1])| > n
  {
    if es != [] && |Encode(es[0])| <= n {
      WholeIsExact(es[1..], n - |Encode(es[0])|);
      var m := Whole(es, n);
      assert es[..m][1..] == es[1..][..m - 1];
      if m < |es| {
        assert es[..m + 1][1..] == es[1..][..m];
      }
    } else if es != [] {
      assert es[..1][1..] == [];
    }
  }

  /** A page that holds all the bytes holds all the entries. */
  lemma {:induction false} WholeOfAll(es: seq<DirEntry>, n: nat)
    requires n >= |Flat(es)|
    ensures Whole(es, n) == |es|
  {
    if es != [] {
      WholeOfAll(es[1..], n - |Encode(es[0])|);
    }
  }

  lemma {:induction false} ParseWhole(e: DirEntry, rest: seq<byte>)
    requires GoodEntry(e)
    ensures ParseNext(Encode(e) + rest) == Some((e, rest))
  {
    var s := Encode(e) + rest;
    assert s == EncodeDirent(e.dirent) + (e.name + rest);
    DirentRoundTrip(e.dirent, e.name + rest);
    assert s[DIRENT_SIZE..DIRENT_SIZE + |e.name|] == e.name;
  }

  lemma {:induction false} ParseCut(e: DirEntry, n: nat)
    requires GoodEntry(e) && n < |Encode(e)|
    ensures ParseNext(Encode(e)[..n]) == None
  {
    if n >= DIRENT_SIZE {
      var name := e.name[..n - DIRENT_SIZE];
      assert Encode(e)[..n] == EncodeDirent(e.dirent) + name;
      DirentRoundTrip(e.dirent, name);
    }
  }

  /** Reading a cut-off encoding gives back exactly the entries it holds whole: the cut-off one is
      discarded and none is misread. */
  lemma {:induction false} ParsePage(es: seq<DirEntry>, n: nat)
    requires GoodEntries(es) && n <= |Flat(es)|
    ensures ParseAll(Flat(es)[..n]) == es[..Whole(es, n)]
  {
    hide ParseNext, Encode;
    if es != [] {
      var e, later := es[0], es[1..];
      assert GoodEntry(e) && GoodEntries(later);
      if n < |Encode(e)| {
        ParseCut(e, n);
        assert Flat(es)[..n] == Encode(e)[..n];
      } else {
        var rest := Flat(later)[..n - |Encode(e)|];
        ParseWhole(e, rest);
        assert Flat(es)[..n] == Encode(e) + rest;
        ParseAllStep(Encode(e) + rest);
        ParsePage(later, n - |Encode(e)|);
        assert es[..Whole(es, n)] == [e] + later[..Whole(later, n - |Encode(e)|)];
      }
    }
  }
}
