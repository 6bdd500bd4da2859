/** The byte layout of a preview 1 `dirent` record and of a sequence of directory entries. */
module Dirents {
  import opened Bytes

  const DIRENT_SIZE: nat := 24

  datatype Dirent = Dirent(next: u64, ino: u64, namlen: u32, ftype: byte)

  datatype DirEntry = DirEntry(dirent: Dirent, name: seq<byte>)

  ghost predicate GoodEntry(e: DirEntry) { e.dirent.namlen == |e.name| }

  ghost predicate GoodEntries(es: seq<DirEntry>) { forall i :: 0 <= i < |es| ==> GoodEntry(es[i]) }

  /** `repr(C)`: next at 0, ino at 8, namlen at 16, type at 20, three bytes of padding. */
  function EncodeDirent(d: Dirent): (s: seq<byte>)
    ensures |s| == DIRENT_SIZE
  {
    LittleEndian(8, d.next) + LittleEndian(8, d.ino) + LittleEndian(4, d.namlen) + [d.ftype, 0, 0, 0]
  }

  function DecodeDirent(s: seq<byte>): (d: Dirent)
    requires |s| >= DIRENT_SIZE
  {
    assert Capacity(8) == TWO_64 && Capacity(4) == TWO_32;
    Dirent(FromLittleEndian(s[..8]), FromLittleEndian(s[8..16]), FromLittleEndian(s[16..20]), s[20])
  }

  lemma {:induction false} DirentRoundTrip(d: Dirent, rest: seq<byte>)
    ensures DecodeDirent(EncodeDirent(d) + rest) == d
  {
    var s := EncodeDirent(d) + rest;
    assert s[..8] == LittleEndian(8, d.next);
    assert s[8..16] == LittleEndian(8, d.ino);
    assert s[16..20] == LittleEndian(4, d.namlen);
    U64RoundTrip(d.next);
    U64RoundTrip(d.ino);
    U32RoundTrip(d.namlen);
  }

  /** Where each field of a record lies. */
  lemma {:induction false} DirentLayout(d: Dirent, i: nat)
    ensures i < 8 ==> EncodeDirent(d)[i] == d.next / Capacity(i) % 256
    ensures i < 8 ==> EncodeDirent(d)[8 + i] == d.ino / Capacity(i) % 256
    ensures i < 4 ==> EncodeDirent(d)[16 + i] == d.namlen / Capacity(i) % 256
    ensures EncodeDirent(d)[20] == d.ftype
  {
    if i < 8 {
      LittleEndianAt(8, d.next, i);
      LittleEndianAt(8, d.ino, i);
    }
    if i < 4 {
      LittleEndianAt(4, d.namlen, i);
    }
  }

  function Encode(e: DirEntry): (s: seq<byte>)
    ensures |s| == DIRENT_SIZE + |e.name|
  {
    EncodeDirent(e.dirent) + e.name
  }

  /** The entries' encodings, one after the other. */
  function Flat(es: seq<DirEntry>): seq<byte>
  {
    if es == [] then [] else Encode(es[0]) + Flat(es[1..])
  }
}
