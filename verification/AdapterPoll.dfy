/** The adapter's `poll_oneoff`: subscriptions become pollables, ready bytes become events. */
module AdapterPoll {
  import opened Wrappers
  import opened Bytes
  import opened Wasi
  import opened Resources
  import opened HandleTable
  import opened State
  import opened Streams
  import opened PollLayout
  import Clocks
  import Sched
  import D = Descriptors

  datatype ClockId = Realtime | Monotonic | OtherClock

  datatype Subscription = Subscription(userdata: u64, kind: Kind)

  datatype Kind =
    | Clock(id: ClockId, timeout: u64, absolute: bool)
    | FdRead(fd: Fd)
    | FdWrite(fd: Fd)
    | UnknownTag

  // ----- subscriptions as pollables -----

  /** What a subscription fails with before anything is polled, if it does. */
  function SubscribeError(kind: Kind, open: map<Fd, Descriptor>, now: Clocks.Datetime): (e: Option<Errno>)
  {
    match kind
    case Clock(Realtime, timeout, absolute) =>
      if absolute && Clocks.RelativeTimeout(timeout, now).Failure? then Some(Clocks.RelativeTimeout(timeout, now).error)
      else None
    case Clock(Monotonic, _, _) => None
    case Clock(OtherClock, _, _) => Some(INVAL)
    case FdRead(fd) => StreamError(open, fd, true)
    case FdWrite(fd) => StreamError(open, fd, false)
    case UnknownTag => Some(INVAL)
  }

  /** `entry` waits for what the subscription asks for: its timeout, or its descriptor's stream. */
  ghost predicate WaitsFor(kind: Kind, open: map<Fd, Descriptor>, now: Clocks.Datetime, entry: PollEntry)
  {
    match kind
    case Clock(Realtime, timeout, absolute) =>
      && entry.OnClock? && !entry.absolute
      && Success(entry.when) == if absolute then Clocks.RelativeTimeout(timeout, now) else Success(timeout)
    case Clock(Monotonic, timeout, absolute) => entry == OnClock(timeout, absolute)
    case FdRead(fd) => fd in open && open[fd].Streams? && entry.OnRead? && open[fd].input == Some(entry.stream)
    case FdWrite(fd) => fd in open && open[fd].Streams? && entry.OnWrite? && open[fd].output == Some(entry.stream)
    case _ => false
  }

  predicate IsPlainFile(t: StreamType) { t.File? && t.kind != Directory }

  /** Slots of files may gain streams, and nothing else changes. */
  ghost predicate OnlyGainsStreams(open: map<Fd, Descriptor>, open': map<Fd, Descriptor>)
  {
    && open'.Keys == open.Keys
    && forall k :: k in open && open[k].Streams? ==>
         && open'[k].Streams? && open'[k].stype == open[k].stype
         && (open[k].input.Some? || !IsPlainFile(open[k].stype) ==> open'[k].input == open[k].input)
         && (open[k].output.Some? || !IsPlainFile(open[k].stype) ==> open'[k].output == open[k].output)
  }

  /** Nothing live went away or changed, and the only new pollables are `new_`. */
  ghost predicate OnlyGains(live: map<Handle, Resource>, live': map<Handle, Resource>, new_: set<Handle>)
  {
    && KeepsAll(live, live')
    && (forall h :: h in live' && live'[h].Pollable? && h !in new_ ==> h in live)
    && new_ !! live.Keys
  }

  /** `h` is a new stream, made as a first read or write on the file makes it. */
  ghost predicate Made(t: StreamType, forInput: bool, h: Handle, live: map<Handle, Resource>,
                       live': map<Handle, Resource>)
  {
    t.File? && h !in live && h in live' && live'[h] == FreshStream(t, forInput)
  }

  /** The streams that slots gained were made for them, and nothing that was there went away. */
  ghost predicate Grown(open: map<Fd, Descriptor>, live: map<Handle, Resource>, open': map<Fd, Descriptor>,
                        live': map<Handle, Resource>)
  {
    && OnlyGainsStreams(open, open')
    && KeepsAll(live, live')
    && forall k :: k in open && open[k].Streams? ==>
         && (open'[k].input != open[k].input ==>
               open'[k].input.Some? && Made(open[k].stype, true, open'[k].input.value, live, live'))
         && (open'[k].output != open[k].output ==>
               open'[k].output.Some? && Made(open[k].stype, false, open'[k].output.value, live, live'))
  }

  /** What is new, apart from `new_`, belongs to a slot. */
  ghost predicate NoStrays(open': map<Fd, Descriptor>, live: map<Handle, Resource>, live': map<Handle, Resource>,
                           new_: set<Handle>)
  {
    forall h :: h in live' && h !in live && h !in new_ ==> InASlot(open', h)
  }

  ghost predicate InASlot(open: map<Fd, Descriptor>, h: Handle) { exists k :: k in open && h in HandlesOf(open[k]) }

  lemma {:induction false} GrownTwice(open0: map<Fd, Descriptor>, live0: map<Handle, Resource>,
                                      open: map<Fd, Descriptor>, live: map<Handle, Resource>,
                                      open': map<Fd, Descriptor>, live': map<Handle, Resource>)
    requires Grown(open0, live0, open, live) && Grown(open, live, open', live')
    requires forall k :: k in open0 ==> open0[k].Streams?
    ensures Grown(open0, live0, open', live')
  {
    hide FreshStream;
  }

  lemma {:induction false} StraysCompose(live0: map<Handle, Resource>, open: map<Fd, Descriptor>,
                                         live: map<Handle, Resource>, open': map<Fd, Descriptor>,
                                         live': map<Handle, Resource>, a: set<Handle>, b: set<Handle>)
    requires OnlyGainsStreams(open, open') && (forall k :: k in open ==> open[k].Streams?)
    requires NoStrays(open, live0, live, a) && NoStrays(open', live, live', b) && KeepsAll(live0, live)
    ensures NoStrays(open', live0, live', a + b)
  {
    forall h | h in live' && h !in live0 && h !in a + b ensures InASlot(open', h) {
      if h in live {
        assert InASlot(open, h);
        var k :| k in open && h in HandlesOf(open[k]);
        assert h in HandlesOf(open'[k]);
      }
    }
  }

  lemma {:induction false} GainsCompose(live: map<Handle, Resource>, live1: map<Handle, Resource>,
                                        live2: map<Handle, Resource>, a: set<Handle>, b: set<Handle>)
    requires OnlyGains(live, live1, a) && OnlyGains(live1, live2, b)
    ensures OnlyGains(live, live2, a + b)
  {
  }

  lemma {:induction false} StillWaitsFor(kind: Kind, open: map<Fd, Descriptor>, open': map<Fd, Descriptor>,
                                         now: Clocks.Datetime, entry: PollEntry)
    requires OnlyGainsStreams(open, open') && WaitsFor(kind, open, now, entry)
    ensures WaitsFor(kind, open', now, entry)
  {
  }

  /** Gaining streams neither cures nor causes a subscription error. */
  lemma {:induction false} SameError(kind: Kind, open: map<Fd, Descriptor>, open': map<Fd, Descriptor>,
                                     now: Clocks.Datetime)
    requires OnlyGainsStreams(open, open') && forall k :: k in open ==> open[k].Streams?
    ensures SubscribeError(kind, open', now) == SubscribeError(kind, open, now)
  {
  }

  /** A stream made for a slot. */
  lemma {:induction false} StreamGained(open: map<Fd, Descriptor>, live: map<Handle, Resource>, fd: Fd, forInput: bool,
                                        h: Handle)
    requires fd in open && open[fd].Streams? && StreamError(open, fd, forInput) == None
    requires StreamOf(open[fd], forInput) == None && h !in live
    ensures var open', live' := open[fd := WithStream(open[fd], forInput, h)],
            live[h := FreshStream(open[fd].stype, forInput)];
            && Grown(open, live, open', live') && OnlyGains(live, live', {}) && NoStrays(open', live, live', {})
  {
    var open' := open[fd := WithStream(open[fd], forInput, h)];
    assert h in HandlesOf(open'[fd]);
    assert InASlot(open', h);
  }

  lemma {:induction false} NothingMade(open: map<Fd, Descriptor>, live: map<Handle, Resource>)
    ensures Grown(open, live, open, live) && OnlyGains(live, live, {}) && NoStrays(open, live, live, {})
  {
  }

  /** What making the pollable of one subscription does. */
  ghost predicate Subscribed(open: map<Fd, Descriptor>, live: map<Handle, Resource>,
                             open': map<Fd, Descriptor>, live': map<Handle, Resource>,
                             kind: Kind, now: Clocks.Datetime, h: Handle)
  {
    && Grown(open, live, open', live')
    && OnlyGains(live, live', {h})
    && NoStrays(open', live, live', {h})
    && h in live' && live'[h].Pollable? && WaitsFor(kind, open', now, live'[h].entry)
    && |live'| <= |live| + 2
  }

  /** The entry that waits on a slot's stream, which is made if there is none. */
  method StreamEntry(st: State, fd: Fd, forInput: bool) returns (r: Result<PollEntry, Failure>)
    requires st.Valid()
    modifies st.host, st.descriptors.table
    ensures st.Valid()
    ensures match StreamError(old(st.Open()), fd, forInput)
            case Some(e) => r == Failure(Error(e))
            case None => r == Failure(Trap) || r.Success?
    ensures r.Failure? ==> st.Open() == old(st.Open()) && st.host.entries == old(st.host.entries)
    ensures r == Failure(Trap) ==> |old(st.host.entries)| >= MAX_ENTRIES
    ensures r.Success? ==>
              && Grown(old(st.Open()), old(st.host.entries), st.Open(), st.host.entries)
              && OnlyGains(old(st.host.entries), st.host.entries, {})
              && NoStrays(st.Open(), old(st.host.entries), st.host.entries, {})
              && |st.host.entries| <= |old(st.host.entries)| + 1
              && fd in st.Open() && StreamOf(st.Open()[fd], forInput).Some?
              && r.value == var h := StreamOf(st.Open()[fd], forInput).value; if forInput then OnRead(h) else OnWrite(h)
  {
    hide StandsAfter, StandingOf, Owned, DirectoryAt, LiveIn, Grown, OnlyGains, NoStrays, FreshStream, D.WellFormed,
      D.OpenSlots;
    ghost var open, live := st.Open(), st.host.entries;
    NothingMade(open, live);
    var stream := GetStream(st, fd, forInput);
    if stream.Failure? {
      return Failure(stream.error);
    }
    if StreamOf(open[fd], forInput) == None {
      StreamGained(open, live, fd, forInput, stream.value);
    }
    return Success(if forInput then OnRead(stream.value) else OnWrite(stream.value));
  }

  /** The pollable entry of one subscription. */
  method MakeEntry(st: State, kind: Kind, now: Clocks.Datetime) returns (r: Result<PollEntry, Failure>)
    requires st.Valid()
    modifies st.host, st.descriptors.table
    ensures st.Valid()
    ensures match SubscribeError(kind, old(st.Open()), now)
            case Some(e) => r == Failure(Error(e))
            case None => r == Failure(Trap) || r.Success?
    ensures r.Failure? ==> st.Open() == old(st.Open()) && st.host.entries == old(st.host.entries)
    ensures r == Failure(Trap) ==> |old(st.host.entries)| >= MAX_ENTRIES
    ensures r.Success? ==>
              && Grown(old(st.Open()), old(st.host.entries), st.Open(), st.host.entries)
              && OnlyGains(old(st.host.entries), st.host.entries, {})
              && NoStrays(st.Open(), old(st.host.entries), st.host.entries, {})
              && |st.host.entries| <= |old(st.host.entries)| + 1
              && WaitsFor(kind, st.Open(), now, r.value)
  {
    hide State.Valid, StreamError, Clocks.RelativeTimeout, Grown, OnlyGains, NoStrays;
    NothingMade(st.Open(), st.host.entries);
    match kind {
      case Clock(Realtime, timeout, absolute) =>
        var left := if absolute then Clocks.RelativeTimeout(timeout, now) else Success(timeout);
        r := if left.Success? then Success(OnClock(left.value, false)) else Failure(Error(left.error));
      case Clock(Monotonic, timeout, absolute) =>
        r := Success(OnClock(timeout, absolute));
      case FdRead(fd) =>
        r := StreamEntry(st, fd, true);
      case FdWrite(fd) =>
        r := StreamEntry(st, fd, false);
      case _ =>
        r := Failure(Error(INVAL));
    }
  }

  /** Makes the pollable for one subscription, and the stream that it waits on if there is none. */
  method Subscribe(st: State, kind: Kind, now: Clocks.Datetime) returns (r: Result<Handle, Failure>)
    requires st.Valid()
    modifies st.host, st.descriptors.table
    ensures st.Valid()
    ensures match SubscribeError(kind, old(st.Open()), now)
            case Some(e) => r == Failure(Error(e))
            case None => r == Failure(Trap) || r.Success?
    ensures r.Success? ==>
              Subscribed(old(st.Open()), old(st.host.entries), st.Open(), st.host.entries, kind, now, r.value)
    ensures r.Failure? && r.error.Error? ==> st.Open() == old(st.Open()) && st.host.entries == old(st.host.entries)
    ensures r == Failure(Trap) ==>
              |old(st.host.entries)| + 2 > MAX_ENTRIES
                && Grown(old(st.Open()), old(st.host.entries), st.Open(), st.host.entries)
  {
    hide State.Valid, SubscribeError, WaitsFor, OnlyGainsStreams, Grown, NoStrays, OnlyGains;
    ghost var open, live := st.Open(), st.host.entries;
    NothingMade(open, live);
    var entry := MakeEntry(st, kind, now);
    if entry.Failure? {
      return Failure(entry.error);
    }
    ghost var live1 := st.host.entries;
    r := PushPollable(st, entry.value);
    if r.Success? {
      PollableMade(open, live, st.Open(), live1, r.value, entry.value);
    }
  }

  lemma {:induction false} PollableMade(open: map<Fd, Descriptor>, live: map<Handle, Resource>,
                                        open': map<Fd, Descriptor>, live': map<Handle, Resource>, h: Handle,
                                        entry: PollEntry)
    requires Grown(open, live, open', live') && OnlyGains(live, live', {}) && NoStrays(open', live, live', {})
    requires h !in live'
    ensures var now := live'[h := Pollable(entry)];
            Grown(open, live, open', now) && OnlyGains(live, now, {h}) && NoStrays(open', live, now, {h})
  {
    hide FreshStream, InASlot;
  }

  /** Adds a pollable to the host. */
  method PushPollable(st: State, entry: PollEntry) returns (r: Result<Handle, Failure>)
    requires st.Valid()
    modifies st.host
    ensures st.Valid()
    ensures r == Failure(Trap) || r.Success?
    ensures r.Failure? <==> |old(st.host.entries)| >= MAX_ENTRIES
    ensures r.Failure? ==> st.host.entries == old(st.host.entries)
    ensures r.Success? ==>
              r.value !in old(st.host.entries) && st.host.entries == old(st.host.entries)[r.value := Pollable(entry)]
  {
    hide StandsAfter, Owned, LiveIn, D.WellFormed, D.OpenSlots;
    ghost var live := st.host.entries;
    var pushed := st.host.Push(Pollable(entry));
    if pushed.Failure? {
      return Failure(Trap);
    }
    OwnedAcross(st.Open(), live, st.host.entries);
    return Success(pushed.value);
  }

  /** What can be subscribed to: every clock that is there unless its timeout has passed too far, and open
      descriptors that have the stream or, being files, can make it. */
  lemma {:induction false} SubscribeErrorIs(kind: Kind, open: map<Fd, Descriptor>, now: Clocks.Datetime)
    requires now.nanoseconds < Clocks.NANOS && forall k :: k in open ==> open[k].Streams?
    ensures SubscribeError(kind, open, now).None? <==>
              match kind
              case Clock(Monotonic, _, _) => true
              case Clock(Realtime, timeout, absolute) =>
                absolute ==> timeout >= Clocks.Exact(now)
                             || timeout + TWO_64 * Clocks.NANOS < TWO_64 + Clocks.Exact(now)
              case FdRead(fd) => fd in open && (open[fd].input.Some? || IsPlainFile(open[fd].stype))
              case FdWrite(fd) => fd in open && (open[fd].output.Some? || IsPlainFile(open[fd].stype))
              case _ => false
    ensures SubscribeError(kind, open, now).Some? ==>
              SubscribeError(kind, open, now).value
              == if kind.FdRead? || kind.FdWrite? then BADF
                 else if kind.Clock? && kind.id.Realtime? then OVERFLOW else INVAL
  {
    if kind.Clock? && kind.id.Realtime? && kind.absolute {
      Clocks.RelativeTimeoutIs(kind.timeout, now);
    }
  }

  /** From a subscription to the host's wait: a relative timeout is waited for, an absolute one is what the
      clock it is for shows after the wait, unless it had passed before. */
  lemma {:induction false} ClockWaitIsRight(id: ClockId, timeout: u64, absolute: bool, open: map<Fd, Descriptor>,
                                            wall: Clocks.Datetime, steady: u64, entry: PollEntry)
    requires WaitsFor(Clock(id, timeout, absolute), open, wall, entry)
    requires wall.nanoseconds < Clocks.NANOS && wall.seconds < TWO_63
    ensures entry.OnClock?
    ensures var wait := Sched.RelativeDeadline(steady, entry.when, entry.absolute);
            if !absolute then wait == timeout
            else if id.Realtime? then Clocks.Exact(wall) + wait == timeout
            else (wait > 0 ==> steady + wait == timeout) && (wait == 0 <==> timeout <= steady)
  {
    if id.Realtime? && absolute {
      Clocks.TimeoutIsRightInRange(timeout, wall);
    }
  }

  /** What waits for a descriptor waits for its own stream, in the direction that was asked for. */
  lemma {:induction false} StreamWaitIsRight(kind: Kind, open: map<Fd, Descriptor>, now: Clocks.Datetime,
                                             entry: PollEntry)
    requires WaitsFor(kind, open, now, entry) && !kind.Clock?
    ensures (kind.FdRead? || kind.FdWrite?) && kind.fd in open && open[kind.fd].Streams?
    ensures kind.FdRead? ==> entry.OnRead? && Some(entry.stream) == open[kind.fd].input
    ensures kind.FdWrite? ==> entry.OnWrite? && Some(entry.stream) == open[kind.fd].output
  {
  }

  // ----- all subscriptions -----

  predicate IsPollable(r: Resource) { r.Pollable? }

  ghost predicate Distinct(hs: seq<Handle>) { forall i, j :: 0 <= i < j < |hs| ==> hs[i] != hs[j] }

  function HandleSet(hs: seq<Handle>): set<Handle> { set h | h in hs }

  /** Handle `i` is a pollable that waits for what subscription `i` asks for. */
  ghost predicate AllWait(subs: seq<Subscription>, nows: seq<Clocks.Datetime>, hs: seq<Handle>,
                          open: map<Fd, Descriptor>, live: map<Handle, Resource>)
  {
    && |hs| <= |subs| && |hs| <= |nows|
    && forall i :: 0 <= i < |hs| ==>
         hs[i] in live && live[hs[i]].Pollable? && WaitsFor(subs[i].kind, open, nows[i], live[hs[i]].entry)
  }

  /** The first subscription error, if there is one. */
  function FirstError(subs: seq<Subscription>, nows: seq<Clocks.Datetime>, open: map<Fd, Descriptor>)
    : (e: Option<Errno>)
    requires |nows| == |subs|
  {
    if subs == [] then None
    else
      var first := SubscribeError(subs[0].kind, open, nows[0]);
      if first.Some? then first else FirstError(subs[1..], nows[1..], open)
  }

  /** The error reported is the earliest one. */
  lemma {:induction false} FirstErrorIs(subs: seq<Subscription>, nows: seq<Clocks.Datetime>, open: map<Fd, Descriptor>)
    requires |nows| == |subs|
    ensures match FirstError(subs, nows, open)
            case None => forall i :: 0 <= i < |subs| ==> SubscribeError(subs[i].kind, open, nows[i]).None?
            case Some(e) =>
              exists i :: 0 <= i < |subs| && SubscribeError(subs[i].kind, open, nows[i]) == Some(e)
                          && forall j :: 0 <= j < i ==> SubscribeError(subs[j].kind, open, nows[j]).None?
  {
    hide SubscribeError;
    if subs != [] && SubscribeError(subs[0].kind, open, nows[0]).None? {
      FirstErrorIs(subs[1..], nows[1..], open);
      if FirstError(subs, nows, open).Some? {
        var e := FirstError(subs, nows, open);
        var i :| 0 <= i < |subs[1..]| && SubscribeError(subs[1..][i].kind, open, nows[1..][i]) == e
                 && forall j :: 0 <= j < i ==> SubscribeError(subs[1..][j].kind, open, nows[1..][j]).None?;
        assert SubscribeError(subs[i + 1].kind, open, nows[i + 1]) == e;
        forall j | 0 <= j < i + 1 ensures SubscribeError(subs[j].kind, open, nows[j]).None? {
          if j > 0 {
            assert subs[j] == subs[1..][j - 1] && nows[j] == nows[1..][j - 1];
          }
        }
      } else {
        forall i | 0 <= i < |subs| ensures SubscribeError(subs[i].kind, open, nows[i]).None? {
          if i > 0 {
            assert subs[i] == subs[1..][i - 1] && nows[i] == nows[1..][i - 1];
          }
        }
      }
    }
  }

  /** Pollable handles kept at the front of the event buffer. */
  class Pollables {
    const out: array<byte>
    const length: nat
    var index: nat
    ghost var handles: seq<Handle>

    ghost predicate Valid()
      reads this, out
    {
      && out.Length == EVENT_SIZE * length
      && index == |handles| <= length
      && FlatHandles(handles) <= out[..]
    }

    constructor (out: array<byte>, length: nat)
      requires out.Length == EVENT_SIZE * length
      ensures Valid() && this.out == out && this.length == length && handles == []
    {
      this.out, this.length, index, handles := out, length, 0, [];
    }

    method Push(h: Handle)
      requires Valid() && index < length
      modifies this, out
      ensures Valid() && handles == old(handles) + [h]
    {
      CopyInto(out, HANDLE_SIZE * index, LittleEndian(4, h));
      index := index + 1;
      handles := handles + [h];
      assert handles[..|handles| - 1] == old(handles);
    }

    /** Drops every pollable, reading the handles back from the buffer. */
    method Drop(host: Table<Resource>)
      requires Valid() && host.Valid() && Distinct(handles)
      requires forall h :: h in handles ==> h in host.entries && host.entries[h].Pollable?
      modifies host
      ensures host.Valid() && host.entries == old(host.entries) - HandleSet(handles)
    {
      hide FlatHandles, HandleAt, HandleSet, Distinct;
      DropsNothing(host.entries);
      for i := 0 to index
        invariant host.Valid() && host.entries == old(host.entries) - HandleSet(handles[..i])
      {
        HandlesReadBack(handles, out[..], i);
        DropsOneMore(old(host.entries), handles, i);
        var h := HandleAt(out[..], i);
        var dropped := host.Delete(h, IsPollable);
      }
      assert handles[..index] == handles;
    }
  }

  lemma {:induction false} DropsNothing(live: map<Handle, Resource>)
    ensures live - HandleSet([]) == live
  {
  }

  lemma {:induction false} DropsOneMore(live: map<Handle, Resource>, hs: seq<Handle>, i: nat)
    requires Distinct(hs) && i < |hs| && hs[i] in live
    ensures hs[i] in live - HandleSet(hs[..i])
    ensures live - HandleSet(hs[..i]) - {hs[i]} == live - HandleSet(hs[..i + 1])
  {
    assert hs[..i + 1] == hs[..i] + [hs[i]];
    assert HandleSet(hs[..i + 1]) == HandleSet(hs[..i]) + {hs[i]};
  }

  /** Dropping the new pollables leaves only the streams gained. */
  lemma {:induction false} DropLeavesGains(open: map<Fd, Descriptor>, live: map<Handle, Resource>,
                                           open': map<Fd, Descriptor>, live': map<Handle, Resource>, hs: seq<Handle>)
    requires OnlyGains(live, live', HandleSet(hs)) && Grown(open, live, open', live')
    requires NoStrays(open', live, live', HandleSet(hs))
    requires forall h :: h in hs ==> h in live' && live'[h].Pollable?
    ensures var left := live' - HandleSet(hs);
            OnlyGains(live, left, {}) && Grown(open, live, open', left) && NoStrays(open', live, left, {})
  {
    hide InASlot;
  }

  /** Pollables are nobody's: without them the state is as valid as before. */
  method DropAll(st: State, pollables: Pollables)
    requires st.Valid() && pollables.Valid() && Distinct(pollables.handles)
    requires forall h :: h in pollables.handles ==> h in st.host.entries && st.host.entries[h].Pollable?
    modifies st.host
    ensures st.Valid() && st.host.entries == old(st.host.entries) - HandleSet(pollables.handles)
  {
    hide StandsAfter, Owned, LiveIn, FlatHandles, D.WellFormed, D.OpenSlots;
    ghost var live := st.host.entries;
    pollables.Drop(st.host);
    OwnedAcross(st.Open(), live, st.host.entries);
  }

  lemma {:induction false} OneMoreWaits(subs: seq<Subscription>, nows: seq<Clocks.Datetime>, hs: seq<Handle>, h: Handle,
                                        open: map<Fd, Descriptor>, live: map<Handle, Resource>,
                                        open': map<Fd, Descriptor>, live': map<Handle, Resource>)
    requires |nows| == |subs| && |hs| < |subs|
    requires AllWait(subs, nows, hs, open, live) && Distinct(hs)
    requires Subscribed(open, live, open', live', subs[|hs|].kind, nows[|hs|], h)
    ensures AllWait(subs, nows, hs + [h], open', live') && Distinct(hs + [h])
    ensures |live'| <= |live| + 2
  {
    hide WaitsFor, OnlyGainsStreams, NoStrays;
    forall i | 0 <= i < |hs| ensures hs[i] in live' && live'[hs[i]] == live[hs[i]]
                                     && WaitsFor(subs[i].kind, open', nows[i], live[hs[i]].entry) {
      StillWaitsFor(subs[i].kind, open, open', nows[i], live[hs[i]].entry);
    }
  }

  /** One more pollable, and the stream it may have needed, on top of those made before. */
  lemma {:induction false} OneMoreGained(hs: seq<Handle>, h: Handle, kind: Kind, now: Clocks.Datetime,
                                         open0: map<Fd, Descriptor>, live0: map<Handle, Resource>,
                                         open: map<Fd, Descriptor>, live: map<Handle, Resource>,
                                         open': map<Fd, Descriptor>, live': map<Handle, Resource>)
    requires forall k :: k in open0 ==> open0[k].Streams?
    requires forall k :: k in open ==> open[k].Streams?
    requires Grown(open0, live0, open, live) && OnlyGains(live0, live, HandleSet(hs))
    requires NoStrays(open, live0, live, HandleSet(hs))
    requires Subscribed(open, live, open', live', kind, now, h)
    ensures Grown(open0, live0, open', live')
    ensures OnlyGains(live0, live', HandleSet(hs + [h])) && NoStrays(open', live0, live', HandleSet(hs + [h]))
  {
    hide InASlot, FreshStream, Made, WaitsFor, HandleSet;
    GrownTwice(open0, live0, open, live, open', live');
    GrownGains(open, live, open', live');
    StraysCompose(live0, open, live, open', live', HandleSet(hs), {h});
    GainsCompose(live0, live, live', HandleSet(hs), {h});
    OneMoreHandle(hs, h);
  }

  lemma {:induction false} OneMoreHandle(hs: seq<Handle>, h: Handle)
    ensures HandleSet(hs + [h]) == HandleSet(hs) + {h}
  {
  }

  /** Makes one pollable per subscription, in order. At the first that fails, all made so far are
      dropped again. */
  method SubscribeAll(st: State, subs: seq<Subscription>, nows: seq<Clocks.Datetime>, out: array<byte>)
    returns (r: Result<Pollables, Failure>)
    requires st.Valid() && |nows| == |subs| && out.Length == EVENT_SIZE * |subs| && out != st.cache.pathData
    modifies st.host, st.descriptors.table, out
    ensures r.Success? ==>
              && fresh(r.value) && r.value.Valid() && r.value.out == out
              && |r.value.handles| == |subs| && Distinct(r.value.handles)
              && AllWait(subs, nows, r.value.handles, st.Open(), st.host.entries)
              && OnlyGains(old(st.host.entries), st.host.entries, HandleSet(r.value.handles))
              && NoStrays(st.Open(), old(st.host.entries), st.host.entries, HandleSet(r.value.handles))
    ensures st.Valid() && Grown(old(st.Open()), old(st.host.entries), st.Open(), st.host.entries)
    ensures r.Failure? && r.error.Error? ==>
              && OnlyGains(old(st.host.entries), st.host.entries, {})
              && NoStrays(st.Open(), old(st.host.entries), st.host.entries, {})
    ensures match FirstError(subs, nows, old(st.Open()))
            case Some(e) => r == Failure(Error(e)) || r == Failure(Trap)
            case None => r.Success? || r == Failure(Trap)
    ensures r == Failure(Trap) ==> |old(st.host.entries)| + 2 * |subs| > MAX_ENTRIES
  {
    hide State.Valid, Pollables.Valid, AllWait, Distinct, OnlyGains, OnlyGainsStreams, Grown, NoStrays, Subscribed,
      SubscribeError, FlatHandles;
    ghost var open, live := st.Open(), st.host.entries;
    var pollables := new Pollables(out, |subs|);
    NothingGained(subs, nows, open, live);
    for i := 0 to |subs|
      invariant st.Valid() && pollables.Valid() && |pollables.handles| == i
      invariant AllWait(subs, nows, pollables.handles, st.Open(), st.host.entries) && Distinct(pollables.handles)
      invariant Grown(open, live, st.Open(), st.host.entries)
      invariant OnlyGains(live, st.host.entries, HandleSet(pollables.handles))
      invariant NoStrays(st.Open(), live, st.host.entries, HandleSet(pollables.handles))
      invariant |st.host.entries| <= |live| + 2 * i
      invariant FirstError(subs, nows, open) == FirstError(subs[i..], nows[i..], open)
    {
      GrownGains(open, live, st.Open(), st.host.entries);
      SameError(subs[i].kind, open, st.Open(), nows[i]);
      ErrorStep(subs, nows, i, open);
      ghost var open1, live1, hs := st.Open(), st.host.entries, pollables.handles;
      var h := Subscribe(st, subs[i].kind, nows[i]);
      if h.Failure? {
        if h.error.Error? {
          WaitingAreLive(subs, nows, hs, st.Open(), st.host.entries);
          DropLeavesGains(open, live, st.Open(), st.host.entries, hs);
          DropAll(st, pollables);
        } else {
          GrownTwice(open, live, open1, live1, st.Open(), st.host.entries);
        }
        return Failure(h.error);
      }
      OneMoreWaits(subs, nows, hs, h.value, open1, live1, st.Open(), st.host.entries);
      OneMoreGained(hs, h.value, subs[i].kind, nows[i], open, live, open1, live1, st.Open(), st.host.entries);
      PollablesHaveRoom(pollables);
      pollables.Push(h.value);
    }
    return Success(pollables);
  }

  lemma {:induction false} NothingGained(subs: seq<Subscription>, nows: seq<Clocks.Datetime>,
                                         open: map<Fd, Descriptor>, live: map<Handle, Resource>)
    ensures AllWait(subs, nows, [], open, live) && Distinct([]) && OnlyGains(live, live, HandleSet([]))
    ensures Grown(open, live, open, live) && NoStrays(open, live, live, HandleSet([]))
  {
  }

  lemma {:induction false} GrownGains(open: map<Fd, Descriptor>, live: map<Handle, Resource>,
                                      open': map<Fd, Descriptor>, live': map<Handle, Resource>)
    requires Grown(open, live, open', live')
    ensures OnlyGainsStreams(open, open')
  {
  }

  lemma {:induction false} ErrorStep(subs: seq<Subscription>, nows: seq<Clocks.Datetime>, i: nat,
                                     open: map<Fd, Descriptor>)
    requires |nows| == |subs| && i < |subs|
    ensures FirstError(subs[i..], nows[i..], open)
            == var first := SubscribeError(subs[i].kind, open, nows[i]);
               if first.Some? then first else FirstError(subs[i + 1..], nows[i + 1..], open)
  {
    assert subs[i..][1..] == subs[i + 1..] && nows[i..][1..] == nows[i + 1..];
  }

  lemma {:induction false} WaitingAreLive(subs: seq<Subscription>, nows: seq<Clocks.Datetime>, hs: seq<Handle>,
                                          open: map<Fd, Descriptor>, live: map<Handle, Resource>)
    requires AllWait(subs, nows, hs, open, live)
    ensures forall h :: h in hs ==> h in live && live[h].Pollable?
  {
  }

  lemma {:induction false} PollablesHaveRoom(pollables: Pollables)
    requires pollables.Valid()
    ensures pollables.index == |pollables.handles|
  {
  }

  // ----- events -----

  const EVENTTYPE_CLOCK: byte := 0
  const EVENTTYPE_FD_READ: byte := 1
  const EVENTTYPE_FD_WRITE: byte := 2
  const FD_READWRITE_HANGUP: u16 := 1

  /** Subscriptions that got as far as being polled: their descriptors are open. */
  ghost predicate Polled(kind: Kind, open: map<Fd, Descriptor>)
  {
    match kind
    case Clock(_, _, _) => true
    case FdRead(fd) => fd in open && open[fd].Streams?
    case FdWrite(fd) => fd in open && open[fd].Streams?
    case UnknownTag => false
  }

  /** The event of a ready subscription, given the host's reply to `stat`, a size or an error code. */
  function EventOf(sub: Subscription, open: map<Fd, Descriptor>, sizeReply: Result<u64, u16>): (e: Event)
    requires Polled(sub.kind, open)
    ensures e.userdata == sub.userdata
  {
    match sub.kind
    case Clock(_, _, _) => Event(sub.userdata, 0, EVENTTYPE_CLOCK, 0, 0)
    case FdRead(fd) =>
      (match open[fd].stype
       case Stdio => Event(sub.userdata, 0, EVENTTYPE_FD_READ, 1, 0)
       case File(_, _, position, _, _) =>
         match sizeReply
         case Failure(code) => Event(sub.userdata, code, EVENTTYPE_FD_READ, 1, 0)
         case Success(size) =>
           var left := if size > position then size - position else 0;
           Event(sub.userdata, 0, EVENTTYPE_FD_READ, left, if left == 0 then FD_READWRITE_HANGUP else 0))
    case FdWrite(_) => Event(sub.userdata, 0, EVENTTYPE_FD_WRITE, 1, 0)
  }

  /** The events of the ready ones among the first `n` subscriptions, in order. */
  function Events(subs: seq<Subscription>, ready: seq<byte>, open: map<Fd, Descriptor>, sizes: seq<Result<u64, u16>>,
                  n: nat)
    : (es: seq<Event>)
    requires n <= |subs| == |ready| == |sizes|
    requires forall i :: 0 <= i < |subs| ==> Polled(subs[i].kind, open)
    ensures |es| <= n
  {
    if n == 0 then []
    else
      Events(subs, ready, open, sizes, n - 1)
      + if ready[n - 1] != 0 then [EventOf(subs[n - 1], open, sizes[n - 1])] else []
  }

  /** How many of the first `n` ready bytes are not zero. */
  function CountReady(ready: seq<byte>, n: nat): (c: nat)
    requires n <= |ready|
    ensures c <= n
  {
    if n == 0 then 0 else CountReady(ready, n - 1) + if ready[n - 1] != 0 then 1 else 0
  }

  lemma {:induction false} CountGrows(ready: seq<byte>, i: nat, n: nat)
    requires i <= n <= |ready|
    ensures CountReady(ready, i) <= CountReady(ready, n)
    ensures i < n && ready[i] != 0 ==> CountReady(ready, i) < CountReady(ready, n)
    decreases n
  {
    if i < n {
      CountGrows(ready, i, n - 1);
    }
  }

  /** There is one event for every ready subscription and no other, in order, and it tells what came of
      what was asked for: a clock has run out; a stream can be written; a file can be read up to its end,
      where it hangs up, or its size cannot be told. */
  lemma {:induction false} EventsAreOfTheReady(subs: seq<Subscription>, ready: seq<byte>, open: map<Fd, Descriptor>,
                                               sizes: seq<Result<u64, u16>>, n: nat)
    requires n <= |subs| == |ready| == |sizes|
    requires forall i :: 0 <= i < |subs| ==> Polled(subs[i].kind, open)
    ensures |Events(subs, ready, open, sizes, n)| == CountReady(ready, n)
    ensures forall i :: 0 <= i < n && ready[i] != 0 ==>
              var c := CountReady(ready, i);
              c < CountReady(ready, n) && Tells(Events(subs, ready, open, sizes, n)[c], subs[i], open, sizes[i])
  {
    hide Polled, Tells, EventOf, Events;
    EventCount(subs, ready, open, sizes, n);
    forall i | 0 <= i < n && ready[i] != 0
      ensures CountReady(ready, i) < CountReady(ready, n)
      ensures Tells(Events(subs, ready, open, sizes, n)[CountReady(ready, i)], subs[i], open, sizes[i])
    {
      CountGrows(ready, i, n);
      EventOfReady(subs, ready, open, sizes, n, i);
    }
  }

  lemma {:induction false} EventCount(subs: seq<Subscription>, ready: seq<byte>, open: map<Fd, Descriptor>,
                                      sizes: seq<Result<u64, u16>>, n: nat)
    requires n <= |subs| == |ready| == |sizes|
    requires forall i :: 0 <= i < |subs| ==> Polled(subs[i].kind, open)
    ensures |Events(subs, ready, open, sizes, n)| == CountReady(ready, n)
    decreases n
  {
    hide Polled, EventOf;
    if n > 0 {
      EventCount(subs, ready, open, sizes, n - 1);
    }
  }

  lemma {:induction false} EventOfReady(subs: seq<Subscription>, ready: seq<byte>, open: map<Fd, Descriptor>,
                                        sizes: seq<Result<u64, u16>>, n: nat, i: nat)
    requires i < n <= |subs| == |ready| == |sizes| && ready[i] != 0
    requires forall j :: 0 <= j < |subs| ==> Polled(subs[j].kind, open)
    ensures CountReady(ready, i) < |Events(subs, ready, open, sizes, n)|
    ensures Tells(Events(subs, ready, open, sizes, n)[CountReady(ready, i)], subs[i], open, sizes[i])
    decreases n
  {
    hide Polled, EventOf, Tells;
    if i == n - 1 {
      EventCount(subs, ready, open, sizes, i);
      EventTells(subs[i], open, sizes[i]);
    } else {
      EventOfReady(subs, ready, open, sizes, n - 1, i);
    }
  }

  /** `e` is what the subscription's owner is to be told. */
  ghost predicate Tells(e: Event, sub: Subscription, open: map<Fd, Descriptor>, sizeReply: Result<u64, u16>)
  {
    && e.userdata == sub.userdata
    && match sub.kind
       case Clock(_, _, _) => e.etype == 0 && e.error == 0 && e.nbytes == 0 && e.flags == 0
       case FdWrite(_) => e.etype == 2 && e.error == 0 && e.nbytes == 1 && e.flags == 0
       case FdRead(fd) =>
         && e.etype == 1 && fd in open && open[fd].Streams?
         && (if !open[fd].stype.File? then e.error == 0 && e.nbytes == 1 && e.flags == 0
             else if sizeReply.Failure? then e.error == sizeReply.error && e.nbytes == 1 && e.flags == 0
             else
               && e.error == 0 && (e.flags == 1 || e.flags == 0)
               && (e.nbytes > 0 ==> open[fd].stype.position + e.nbytes == sizeReply.value)
               && (e.flags == 1 <==> e.nbytes == 0) && (e.nbytes == 0 <==> sizeReply.value <= open[fd].stype.position))
       case UnknownTag => false
  }

  lemma {:induction false} EventTells(sub: Subscription, open: map<Fd, Descriptor>, sizeReply: Result<u64, u16>)
    requires Polled(sub.kind, open)
    ensures Tells(EventOf(sub, open, sizeReply), sub, open, sizeReply)
  {
  }

  /** Writes the event of every ready subscription over the front of the buffer, while the ready
      bytes are still being read from its end. */
  method WriteEvents(open: map<Fd, Descriptor>, subs: seq<Subscription>, sizes: seq<Result<u64, u16>>, out: array<byte>)
    returns (count: nat)
    requires out.Length == EVENT_SIZE * |subs| && |sizes| == |subs|
    requires forall i :: 0 <= i < |subs| ==> Polled(subs[i].kind, open)
    modifies out
    ensures var es := Events(subs, old(out[ReadyAt(|subs|)..]), open, sizes, |subs|);
            count == |es| && out[..EVENT_SIZE * count] == FlatEvents(es)
  {
    hide EventOf, EncodeEvent, FlatEvents, Events, Polled;
    ghost var ready := out[ReadyAt(|subs|)..];
    NoEvents(subs, ready, open, sizes);
    count := 0;
    for i := 0 to |subs|
      invariant WrittenTo(out[..], Events(subs, ready, open, sizes, i), count, ready, i)
    {
      count := WriteIfReady(open, subs, sizes, out, i, count, ready);
    }
  }

  lemma {:induction false} NoEvents(subs: seq<Subscription>, ready: seq<byte>, open: map<Fd, Descriptor>,
                                    sizes: seq<Result<u64, u16>>)
    requires |subs| == |ready| == |sizes| && forall i :: 0 <= i < |subs| ==> Polled(subs[i].kind, open)
    ensures Events(subs, ready, open, sizes, 0) == [] && FlatEvents([]) == []
  {
  }

  /** The buffer `s` starts with `count` events, `es`, and its ready bytes from the `i`-th on are still
      the first ones. */
  ghost predicate WrittenTo(s: seq<byte>, es: seq<Event>, count: nat, ready: seq<byte>, i: nat)
  {
    && |s| == EVENT_SIZE * |ready| && count == |es| <= i <= |ready|
    && s[..EVENT_SIZE * count] == FlatEvents(es)
    && forall k :: i <= k < |ready| ==> s[ReadyAt(|ready|) + k] == ready[k]
  }

  /** One turn of the loop. */
  method WriteIfReady(open: map<Fd, Descriptor>, subs: seq<Subscription>, sizes: seq<Result<u64, u16>>,
                      out: array<byte>, i: nat, count: nat, ghost ready: seq<byte>)
    returns (count': nat)
    requires i < |subs| == |ready| == |sizes| && forall j :: 0 <= j < |subs| ==> Polled(subs[j].kind, open)
    requires WrittenTo(out[..], Events(subs, ready, open, sizes, i), count, ready, i)
    modifies out
    ensures WrittenTo(out[..], Events(subs, ready, open, sizes, i + 1), count', ready, i + 1)
  {
    hide EventOf, EncodeEvent, FlatEvents, Polled;
    RegionsAreApart(|subs|, count, i);
    ghost var es := Events(subs, ready, open, sizes, i);
    assert out[..][ReadyAt(|ready|) + i] == ready[i];
    count' := count;
    if out[ReadyAt(|subs|) + i] != 0 {
      PutEvent(out, count, EventOf(subs[i], open, sizes[i]), es, ReadyAt(|subs|) + i + 1);
      count' := count + 1;
    } else {
      assert Events(subs, ready, open, sizes, i + 1) == es;
    }
  }

  /** Writes one event after `es` and leaves everything from `keep` on alone. */
  method PutEvent(out: array<byte>, count: nat, e: Event, ghost es: seq<Event>, ghost keep: nat)
    requires count == |es| && EVENT_SIZE * (count + 1) <= keep <= out.Length
    requires out[..EVENT_SIZE * count] == FlatEvents(es)
    modifies out
    ensures out[..EVENT_SIZE * (count + 1)] == FlatEvents(es + [e])
    ensures forall k :: keep <= k < out.Length ==> out[k] == old(out[k])
  {
    hide EncodeEvent;
    CopyInto(out, EVENT_SIZE * count, EncodeEvent(e));
    assert (es + [e])[..|es + [e]| - 1] == es;
    forall k | keep <= k < out.Length ensures out[k] == old(out[k]) {
      var j := k - EVENT_SIZE * (count + 1);
      assert out[EVENT_SIZE * (count + 1)..][j] == old(out[EVENT_SIZE * (count + 1)..])[j];
    }
  }

  // ----- the call -----

  lemma {:induction false} NoErrorsMeansPolled(subs: seq<Subscription>, nows: seq<Clocks.Datetime>,
                                               open: map<Fd, Descriptor>)
    requires |nows| == |subs| && FirstError(subs, nows, open) == None
    ensures forall i :: 0 <= i < |subs| ==> Polled(subs[i].kind, open)
  {
    if subs != [] {
      NoErrorsMeansPolled(subs[1..], nows[1..], open);
      forall i | 0 <= i < |subs| ensures Polled(subs[i].kind, open) {
        if i > 0 {
          assert subs[i] == subs[1..][i - 1];
        }
      }
    }
  }

  lemma {:induction false} SameEvents(subs: seq<Subscription>, ready: seq<byte>, open: map<Fd, Descriptor>,
                                      open': map<Fd, Descriptor>, sizes: seq<Result<u64, u16>>, n: nat)
    requires n <= |subs| == |ready| == |sizes|
    requires OnlyGainsStreams(open, open') && forall i :: 0 <= i < |subs| ==> Polled(subs[i].kind, open)
    ensures forall i :: 0 <= i < |subs| ==> Polled(subs[i].kind, open')
    ensures Events(subs, ready, open', sizes, n) == Events(subs, ready, open, sizes, n)
  {
    if n > 0 {
      SameEvents(subs, ready, open, open', sizes, n - 1);
      assert Polled(subs[n - 1].kind, open);
    }
  }

  /** The handles that the host's poll reads from the front of the buffer. */
  function HandlesIn(buf: seq<byte>, n: nat): (hs: seq<Handle>)
    requires HANDLE_SIZE * n <= |buf|
  {
    seq(n, i requires 0 <= i < n => HandleAt(buf, i))
  }

  /** They are those of the pollables that were made, one per subscription. */
  lemma {:induction false} AskedIsRight(hs: seq<Handle>, buf: seq<byte>)
    requires FlatHandles(hs) <= buf
    ensures HandlesIn(buf, |hs|) == hs
  {
    forall i | 0 <= i < |hs| ensures HandleAt(buf, i) == hs[i] {
      HandlesReadBack(hs, buf, i);
    }
  }

  lemma {:induction false} GainedAreNew(live: map<Handle, Resource>, live': map<Handle, Resource>, hs: seq<Handle>)
    requires OnlyGains(live, live', HandleSet(hs))
    ensures HandleSet(hs) !! live.Keys
  {
  }

  /** Stores the host's ready bytes at the end of the buffer, clear of the handles. */
  method StoreReady(pollables: Pollables, ready: seq<byte>)
    requires pollables.Valid() && |ready| == pollables.length
    modifies pollables.out
    ensures pollables.Valid() && pollables.out[ReadyAt(pollables.length)..] == ready
  {
    var n := pollables.length;
    ghost var before := pollables.out[..];
    CopyInto(pollables.out, ReadyAt(n), ready);
    assert pollables.out[..ReadyAt(n) + n] == pollables.out[..];
    assert pollables.out[..ReadyAt(n)] == before[..ReadyAt(n)];
    assert FlatHandles(pollables.handles) <= before[..ReadyAt(n)];
  }

  /** Polls a set of subscriptions. `ready` is the vector the host answers with, `nows` and `sizes`
      its clock readings and file sizes.
      The host is asked for the handles in the buffer, `asked`, while its table is `table`: exactly one
      new pollable per subscription, in order, each waiting for what that subscription asks for. Every
      pollable made is dropped again, whether the call succeeds or a subscription fails; only the streams
      made on the way stay, in their slots. The events are exactly those of the ready subscriptions, in
      order. */
  method PollOneoff(st: State, subs: seq<Subscription>, nows: seq<Clocks.Datetime>, sizes: seq<Result<u64, u16>>,
                    ready: seq<byte>, out: array<byte>)
    returns (r: Result<nat, Failure>, ghost asked: seq<Handle>, ghost table: map<Handle, Resource>)
    requires st.Valid() && |nows| == |sizes| == |subs|
    requires out.Length == EVENT_SIZE * |subs| && out != st.cache.pathData
    modifies st.host, st.descriptors.table, out
    ensures st.Valid() && Grown(old(st.Open()), old(st.host.entries), st.Open(), st.host.entries)
    ensures r != Failure(Trap) ==>
              && OnlyGains(old(st.host.entries), st.host.entries, {})
              && NoStrays(st.Open(), old(st.host.entries), st.host.entries, {})
    ensures r == Failure(Trap) ==> |old(st.host.entries)| + 2 * |subs| > MAX_ENTRIES || |ready| != |subs|
    ensures subs == [] ==> r == Failure(Error(INVAL))
    ensures subs != [] ==>
              match FirstError(subs, nows, old(st.Open()))
              case Some(e) => r == Failure(Error(e)) || r == Failure(Trap)
              case None => r.Success? || r == Failure(Trap)
    ensures r.Success? ==>
              && |asked| == |subs| && Distinct(asked) && HandleSet(asked) !! old(st.host.entries).Keys
              && AllWait(subs, nows, asked, st.Open(), table)
              && st.host.entries == table - HandleSet(asked)
    ensures r.Success? ==>
              && |ready| == |subs|
              && (forall i :: 0 <= i < |subs| ==> Polled(subs[i].kind, old(st.Open())))
              && var es := Events(subs, ready, old(st.Open()), sizes, |subs|);
                 r.value == |es| && out[..EVENT_SIZE * r.value] == FlatEvents(es)
  {
    hide State.Valid, OnlyGainsStreams, WaitsFor, FlatEvents, FlatHandles, Events, Polled, FirstError, AllWait,
      Distinct, OnlyGains, Grown, NoStrays;
    asked, table := [], st.host.entries;
    if |subs| == 0 {
      NothingGained(subs, nows, st.Open(), st.host.entries);
      assert HandleSet([]) == {};
      return Failure(Error(INVAL)), asked, table;
    }
    ghost var open, live := st.Open(), st.host.entries;
    var made := SubscribeAll(st, subs, nows, out);
    if made.Failure? {
      return Failure(made.error), asked, table;
    }
    var pollables := made.value;
    ghost var hs := pollables.handles;
    AskedIsRight(hs, out[..]);
    asked, table := HandlesIn(out[..], |subs|), st.host.entries;
    if |ready| != |subs| {
      return Failure(Trap), asked, table;
    }
    StoreReady(pollables, ready);
    WaitingAreLive(subs, nows, hs, st.Open(), st.host.entries);
    DropLeavesGains(open, live, st.Open(), st.host.entries, hs);
    DropAll(st, pollables);
    GrownGains(open, live, st.Open(), st.host.entries);
    GainedAreNew(live, table, hs);
    NoErrorsMeansPolled(subs, nows, open);
    SameEvents(subs, ready, open, st.Open(), sizes, |subs|);
    var count := WriteEvents(st.Open(), subs, sizes, out);
    return Success(count), asked, table;
  }
}
