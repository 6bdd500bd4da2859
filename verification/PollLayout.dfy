/** The one buffer that `poll_oneoff` uses three ways: pollable handles from the front, ready bytes
    at the very end, and the events over the front again. */
module PollLayout {
  import opened Bytes
  import opened Resources

  const EVENT_SIZE: nat := 32
  const HANDLE_SIZE: nat := 4

  datatype Event = Event(userdata: u64, error: u16, etype: byte, nbytes: u64, flags: u16)

  /** `repr(C)`: userdata at 0, error at 8, type at 10, nbytes at 16, flags at 24, padding between. */
  function EncodeEvent(e: Event): (s: seq<byte>)
    ensures |s| == EVENT_SIZE
  {
    LittleEndian(8, e.userdata) + LittleEndian(2, e.error) + [e.etype, 0, 0, 0, 0, 0]
    + LittleEndian(8, e.nbytes) + LittleEndian(2, e.flags) + [0, 0, 0, 0, 0, 0]
  }

  function DecodeEvent(s: seq<byte>): (e: Event)
    requires |s| == EVENT_SIZE
  {
    assert Capacity(8) == TWO_64 && Capacity(2) == 0x1_0000;
    Event(FromLittleEndian(s[..8]), FromLittleEndian(s[8..10]), s[10],
          FromLittleEndian(s[16..24]), FromLittleEndian(s[24..26]))
  }

  /** Where each field of an event lies. */
  lemma {:induction false} EventLayout(e: Event, i: nat)
    ensures i < 8 ==> EncodeEvent(e)[i] == e.userdata / Capacity(i) % 256
    ensures i < 2 ==> EncodeEvent(e)[8 + i] == e.error / Capacity(i) % 256
    ensures EncodeEvent(e)[10] == e.etype
    ensures i < 8 ==> EncodeEvent(e)[16 + i] == e.nbytes / Capacity(i) % 256
    ensures i < 2 ==> EncodeEvent(e)[24 + i] == e.flags / Capacity(i) % 256
  {
    hide LittleEndian;
    if i < 8 {
      LittleEndianAt(8, e.userdata, i);
      LittleEndianAt(8, e.nbytes, i);
    }
    if i < 2 {
      LittleEndianAt(2, e.error, i);
      LittleEndianAt(2, e.flags, i);
    }
  }

  lemma {:induction false} EventRoundTrip(e: Event)
    ensures DecodeEvent(EncodeEvent(e)) == e
  {
    var s := EncodeEvent(e);
    assert s[..8] == LittleEndian(8, e.userdata);
    assert s[8..10] == LittleEndian(2, e.error);
    assert s[16..24] == LittleEndian(8, e.nbytes);
    assert s[24..26] == LittleEndian(2, e.flags);
    U64RoundTrip(e.userdata);
    U16RoundTrip(e.error);
    U64RoundTrip(e.nbytes);
    U16RoundTrip(e.flags);
  }

  function FlatEvents(es: seq<Event>): (s: seq<byte>)
    ensures |s| == EVENT_SIZE * |es|
  {
    if es == [] then [] else FlatEvents(es[..|es| - 1]) + EncodeEvent(es[|es| - 1])
  }

  /** Event `j` of a flat buffer decodes to what was put there. */
  lemma {:induction false} EventAt(es: seq<Event>, j: nat)
    requires j < |es|
    ensures DecodeEvent(FlatEvents(es)[EVENT_SIZE * j..EVENT_SIZE * j + EVENT_SIZE]) == es[j]
  {
    var init := es[..|es| - 1];
    if j == |es| - 1 {
      assert FlatEvents(es)[EVENT_SIZE * j..EVENT_SIZE * j + EVENT_SIZE] == EncodeEvent(es[j]);
      EventRoundTrip(es[j]);
    } else {
      EventAt(init, j);
      assert FlatEvents(es)[EVENT_SIZE * j..EVENT_SIZE * j + EVENT_SIZE]
          == FlatEvents(init)[EVENT_SIZE * j..EVENT_SIZE * j + EVENT_SIZE];
    }
  }

  /** The handles laid out from the front. */
  function FlatHandles(hs: seq<Handle>): (s: seq<byte>)
    ensures |s| == HANDLE_SIZE * |hs|
  {
    if hs == [] then [] else FlatHandles(hs[..|hs| - 1]) + LittleEndian(4, hs[|hs| - 1])
  }

  function HandleAt(s: seq<byte>, i: nat): (h: Handle)
    requires HANDLE_SIZE * i + HANDLE_SIZE <= |s|
  {
    assert Capacity(4) == TWO_32;
    FromLittleEndian(s[HANDLE_SIZE * i..HANDLE_SIZE * i + HANDLE_SIZE])
  }

  /** Whatever follows them, the handles read back as they were stored. */
  lemma {:induction false} HandlesReadBack(hs: seq<Handle>, s: seq<byte>, i: nat)
    requires FlatHandles(hs) <= s && i < |hs|
    ensures HandleAt(s, i) == hs[i]
  {
    var init := hs[..|hs| - 1];
    if i == |hs| - 1 {
      assert s[HANDLE_SIZE * i..HANDLE_SIZE * i + HANDLE_SIZE] == LittleEndian(4, hs[i]);
      U32RoundTrip(hs[i]);
    } else {
      assert FlatHandles(init) <= s;
      HandlesReadBack(init, s, i);
    }
  }

  /** Where the ready bytes of `n` subscriptions start. */
  function ReadyAt(n: nat): nat { EVENT_SIZE * n - n }

  /** The handles end before the ready bytes begin, and the event written for the `count`-th ready
      subscription ends before the ready byte of any subscription after the `i`-th. The second bound
      cannot be had for less: with a subscription more the event would reach the byte. */
  lemma {:induction false} RegionsAreApart(n: nat, count: nat, i: nat)
    requires count <= i
    ensures HANDLE_SIZE * n <= ReadyAt(n)
    ensures EVENT_SIZE * (i + 1) <= ReadyAt(n) + i + 1 <==> i < n
    ensures i < n ==> EVENT_SIZE * (count + 1) <= ReadyAt(n) + i + 1
  {
  }
}
