/** The host's scheduler: collecting what to wait for, one OS poll, and handing the answers back. */
module Sched {
  import opened Wrappers
  import opened Bytes
  import opened Resources

  /** What the OS knows of a stream: a descriptor it can poll, if there is one, and how many bytes an
      in-memory stream has ready. */
  datatype StreamInfo = StreamInfo(pollable: Option<int>, readyBytes: Result<u64, ()>)

  datatype RwError = BadDescriptor | IoError

  datatype RwStatus = Completed(hangup: bool) | Errored(error: RwError)

  datatype Subscription =
    | ReadWrite(stream: StreamInfo, isRead: bool, status: Option<RwStatus>)
    | MonotonicClock(deadline: u64)

  datatype Error = NotPollable | TimeoutOverflow | OsError | NotInTable

  datatype PollFd = PollFd(fd: int, forInput: bool)

  datatype Revents = Revents(nval: bool, err: bool, hup: bool)

  /** The OS poll's final answer, after any number of interruptions. */
  datatype OsReply = Events(revents: seq<Revents>) | OsFailed

  // ----- what is to come out -----

  /** Ready without asking the OS: an in-memory stream with bytes to read. */
  predicate Immediate(s: Subscription)
  {
    s.ReadWrite? && s.isRead && s.stream.pollable.None? && s.stream.readyBytes.Success?
      && s.stream.readyBytes.value != 0
  }

  /** Neither the OS nor the stream itself can say anything. */
  predicate Unpollable(s: Subscription) { s.ReadWrite? && s.stream.pollable.None? && !Immediate(s) }

  ghost predicate AnyImmediate(subs: seq<Subscription>) { exists i :: 0 <= i < |subs| && Immediate(subs[i]) }

  ghost predicate AnyUnpollable(subs: seq<Subscription>) { exists i :: 0 <= i < |subs| && Unpollable(subs[i]) }

  /** The descriptors to poll for the stream subscriptions among the first `n`, in order. */
  function PollFds(subs: seq<Subscription>, n: nat): (fds: seq<PollFd>)
    requires n <= |subs|
    requires forall i :: 0 <= i < n && subs[i].ReadWrite? ==> subs[i].stream.pollable.Some?
    ensures |fds| == Streams(subs, n)
  {
    if n == 0 then []
    else
      PollFds(subs, n - 1)
      + if subs[n - 1].ReadWrite? then [PollFd(subs[n - 1].stream.pollable.value, subs[n - 1].isRead)] else []
  }

  /** How many of the first `n` are stream subscriptions. */
  function Streams(subs: seq<Subscription>, n: nat): (c: nat)
    requires n <= |subs|
    ensures c <= n
  {
    if n == 0 then 0 else Streams(subs, n - 1) + if subs[n - 1].ReadWrite? then 1 else 0
  }

  /** What the events on its descriptor make of a stream subscription. */
  function StatusOf(r: Revents): RwStatus
  {
    if r.nval then Errored(BadDescriptor)
    else if r.err then Errored(IoError)
    else if r.hup then Completed(true)
    else Completed(false)
  }

  /** A bad descriptor outweighs an error, and an error a hang-up. */
  lemma {:induction false} StatusIs(r: Revents)
    ensures StatusOf(r) == Errored(BadDescriptor) <==> r.nval
    ensures StatusOf(r) == Errored(IoError) <==> r.err && !r.nval
    ensures StatusOf(r) == Completed(true) <==> r.hup && !r.err && !r.nval
    ensures StatusOf(r) == Completed(false) <==> r == Revents(false, false, false)
  {
  }

  // ----- timeouts -----

  /** The deadline in milliseconds, the addition wrapping in u64. */
  function Millis(deadline: u64): u64
  {
    (if deadline + 999_999 < TWO_64 then deadline + 999_999 else deadline + 999_999 - TWO_64) / 1_000_000
  }

  /** The milliseconds are the least number not below the deadline exactly when the rounding does
      not wrap. */
  lemma {:induction false} MillisIsLeastIff(deadline: u64)
    ensures (&& Millis(deadline) * 1_000_000 >= deadline
             && forall m: nat :: m * 1_000_000 >= deadline ==> Millis(deadline) <= m)
            <==> deadline + 999_999 < TWO_64
  {
    if deadline + 999_999 < TWO_64 {
      forall m: nat | m * 1_000_000 >= deadline ensures Millis(deadline) <= m {
      }
    }
  }

  /** The earliest of the clock deadlines. */
  function Earliest(subs: seq<Subscription>, n: nat): (d: Option<u64>)
    requires n <= |subs|
    ensures d.None? <==> forall i :: 0 <= i < n ==> subs[i].ReadWrite?
    ensures d.Some? ==> exists i :: 0 <= i < n && subs[i] == MonotonicClock(d.value)
    ensures d.Some? ==> forall i :: 0 <= i < n && subs[i].MonotonicClock? ==> d.value <= subs[i].deadline
  {
    if n == 0 then None
    else
      match subs[n - 1]
      case ReadWrite(_, _, _) => Earliest(subs, n - 1)
      case MonotonicClock(deadline) =>
        var d := Earliest(subs, n - 1);
        if d.None? || deadline < d.value then Some(deadline) else d
  }

  const I32_MAX: nat := 0x7FFF_FFFF

  /** The timeout for the OS: -1 waits for ever, and a deadline too far away is an error. */
  function TimeoutOf(earliest: Option<u64>): (r: Result<int, Error>)
  {
    if earliest.None? then Success(-1)
    else
      var millis: int := Millis(earliest.value);
      if millis > I32_MAX then Failure(TimeoutOverflow) else Success(millis)
  }

  /** Without a clock the wait is for ever; with one it is the least number of milliseconds that reaches
      the deadline, unless that is more than the OS takes. */
  lemma {:induction false} TimeoutIs(deadline: u64)
    requires deadline + 999_999 < TWO_64
    ensures TimeoutOf(None) == Success(-1)
    ensures match TimeoutOf(Some(deadline))
            case Success(ms) => 0 <= ms <= I32_MAX && ms * 1_000_000 >= deadline > (ms - 1) * 1_000_000
            case Failure(e) => e == TimeoutOverflow && deadline > 0x7FFF_FFFF * 1_000_000
  {
  }

  /** For a deadline so far away that the rounding wraps the OS is not made to wait at all. */
  lemma {:induction false} TimeoutWraps(deadline: u64)
    requires deadline + 999_999 >= TWO_64
    ensures TimeoutOf(Some(deadline)) == Success(0)
  {
  }

  // ----- the poll -----

  class Poll {
    var subs: seq<Subscription>
    var userdata: seq<u64>

    ghost predicate Valid()
      reads this
    {
      |userdata| == |subs|
    }

    constructor ()
      ensures Valid() && subs == [] && userdata == []
    {
      subs, userdata := [], [];
    }

    /** An absolute deadline becomes relative to the clock, and a past one becomes zero. */
    method SubscribeClock(now: u64, deadline: u64, absolute: bool, ud: u64)
      requires Valid()
      modifies this
      ensures Valid() && userdata == old(userdata) + [ud]
      ensures subs == old(subs) + [MonotonicClock(RelativeDeadline(now, deadline, absolute))]
    {
      subs, userdata := subs + [MonotonicClock(RelativeDeadline(now, deadline, absolute))], userdata + [ud];
    }

    method SubscribeStream(stream: StreamInfo, isRead: bool, ud: u64)
      requires Valid()
      modifies this
      ensures Valid() && userdata == old(userdata) + [ud]
      ensures subs == old(subs) + [ReadWrite(stream, isRead, None)]
    {
      subs, userdata := subs + [ReadWrite(stream, isRead, None)], userdata + [ud];
    }
  }

  function RelativeDeadline(now: u64, deadline: u64, absolute: bool): u64
  {
    if !absolute then deadline else if deadline > now then deadline - now else 0
  }

  /** From now on a relative deadline is the wait itself, and an absolute one is reached after it, unless it
      has passed. */
  lemma {:induction false} RelativeDeadlineIs(now: u64, deadline: u64, absolute: bool)
    ensures var wait := RelativeDeadline(now, deadline, absolute);
            if !absolute then wait == deadline
            else (wait > 0 ==> now + wait == deadline) && (wait == 0 <==> deadline <= now)
  {
  }

  function WithStatus(s: Subscription, status: RwStatus): Subscription
    requires s.ReadWrite?
  {
    s.(status := Some(status))
  }

  /** The first phase: gather descriptors to poll, and complete in-memory streams that are ready. */
  method Collect(poll: Poll) returns (r: Result<(bool, seq<PollFd>), Error>)
    requires poll.Valid()
    modifies poll
    ensures poll.Valid() && |poll.subs| == |old(poll.subs)| && poll.userdata == old(poll.userdata)
    ensures r.Failure? <==> AnyUnpollable(old(poll.subs))
    ensures r.Failure? ==> r.error == NotPollable
    ensures r.Success? ==> (r.value.0 <==> AnyImmediate(old(poll.subs)))
    ensures r.Success? ==>
              forall i :: 0 <= i < |poll.subs| ==>
                poll.subs[i] == if Immediate(old(poll.subs)[i]) then WithStatus(old(poll.subs)[i], Completed(false))
                                else old(poll.subs)[i]
    ensures r.Success? && !r.value.0 ==>
              && (forall i :: 0 <= i < |poll.subs| && poll.subs[i].ReadWrite? ==> poll.subs[i].stream.pollable.Some?)
              && r.value.1 == PollFds(poll.subs, |poll.subs|)
  {
    var ready, pollfds := false, [];
    ghost var subs := poll.subs;
    for i := 0 to |poll.subs|
      invariant poll.Valid() && |poll.subs| == |subs| && poll.userdata == old(poll.userdata)
      invariant forall j :: 0 <= j < i ==> !Unpollable(subs[j])
      invariant ready == exists j :: 0 <= j < i && Immediate(subs[j])
      invariant forall j :: 0 <= j < |subs| ==>
                  poll.subs[j] == if j < i && Immediate(subs[j]) then WithStatus(subs[j], Completed(false)) else subs[j]
      invariant !ready ==> (forall j :: 0 <= j < i && subs[j].ReadWrite? ==> subs[j].stream.pollable.Some?)
      invariant !ready ==> pollfds == PollFds(subs, i)
    {
      var s := poll.subs[i];
      if s.ReadWrite? {
        if s.stream.pollable.Some? {
          pollfds := pollfds + [PollFd(s.stream.pollable.value, s.isRead)];
        } else if s.isRead && s.stream.readyBytes.Success? && s.stream.readyBytes.value != 0 {
          poll.subs := poll.subs[i := WithStatus(s, Completed(false))];
          ready := true;
        } else {
          assert Unpollable(subs[i]);
          return Failure(NotPollable);
        }
      }
    }
    assert !ready ==> poll.subs == subs;
    return Success((ready, pollfds));
  }

  /** The last phase: each stream subscription gets the events of its own descriptor. */
  method Record(poll: Poll, revents: seq<Revents>)
    requires poll.Valid() && |revents| == Streams(poll.subs, |poll.subs|)
    modifies poll
    ensures poll.Valid() && |poll.subs| == |old(poll.subs)| && poll.userdata == old(poll.userdata)
    ensures forall i :: 0 <= i < |poll.subs| ==>
              poll.subs[i] == if old(poll.subs)[i].ReadWrite?
                              then WithStatus(old(poll.subs)[i], StatusOf(revents[StreamIndex(old(poll.subs), i)]))
                              else old(poll.subs)[i]
  {
    var k := 0;
    ghost var subs := poll.subs;
    for i := 0 to |poll.subs|
      invariant poll.Valid() && |poll.subs| == |subs| && poll.userdata == old(poll.userdata)
      invariant k == Streams(subs, i)
      invariant forall j :: 0 <= j < |subs| ==>
                  poll.subs[j] == if j < i && subs[j].ReadWrite?
                                  then WithStatus(subs[j], StatusOf(revents[StreamIndex(subs, j)])) else subs[j]
    {
      if poll.subs[i].ReadWrite? {
        StreamsGrow(subs, i + 1, |subs|);
        poll.subs := poll.subs[i := WithStatus(poll.subs[i], StatusOf(revents[k]))];
        k := k + 1;
      }
    }
  }

  lemma {:induction false} StreamsGrow(subs: seq<Subscription>, m: nat, n: nat)
    requires m <= n <= |subs|
    ensures Streams(subs, m) <= Streams(subs, n)
    decreases n
  {
    if m < n {
      StreamsGrow(subs, m, n - 1);
    }
  }

  /** The place of stream subscription `i` among the stream subscriptions: that of its descriptor
      in the list given to the OS. */
  function StreamIndex(subs: seq<Subscription>, i: nat): (k: nat)
    requires i < |subs| && subs[i].ReadWrite?
    ensures k < Streams(subs, |subs|)
  {
    StreamsGrow(subs, i + 1, |subs|);
    Streams(subs, i)
  }

  /** The descriptor polled at a stream subscription's place is its own. */
  lemma {:induction false} PollFdIsOwn(subs: seq<Subscription>, i: nat)
    requires i < |subs| && subs[i].ReadWrite?
    requires forall j :: 0 <= j < |subs| && subs[j].ReadWrite? ==> subs[j].stream.pollable.Some?
    ensures PollFds(subs, |subs|)[StreamIndex(subs, i)] == PollFd(subs[i].stream.pollable.value, subs[i].isRead)
  {
    PollFdAmongFirst(subs, |subs|, i);
  }

  /** Every stream subscription has a place of its own. */
  lemma {:induction false} PlacesAreApart(subs: seq<Subscription>, i: nat, j: nat)
    requires i < j < |subs| && subs[i].ReadWrite? && subs[j].ReadWrite?
    ensures StreamIndex(subs, i) < StreamIndex(subs, j)
  {
    StreamsGrow(subs, i + 1, j);
  }

  lemma {:induction false} PollFdAmongFirst(subs: seq<Subscription>, n: nat, i: nat)
    requires i < n <= |subs| && subs[i].ReadWrite?
    requires forall j :: 0 <= j < n && subs[j].ReadWrite? ==> subs[j].stream.pollable.Some?
    ensures Streams(subs, i) < |PollFds(subs, n)|
    ensures PollFds(subs, n)[Streams(subs, i)] == PollFd(subs[i].stream.pollable.value, subs[i].isRead)
    decreases n
  {
    if i < n - 1 {
      PollFdAmongFirst(subs, n - 1, i);
    }
  }

  lemma {:induction false} NoneImmediate(subs: seq<Subscription>)
    ensures !AnyImmediate(subs) ==> forall i :: 0 <= i < |subs| ==> !Immediate(subs[i])
  {
  }

  /** Waits for any of the subscriptions. A stream that is ready in memory makes the OS poll
      unnecessary, and then only such streams are completed. Otherwise the OS is asked about every
      stream, with the earliest deadline as timeout, and every stream subscription ends with the
      status that its own descriptor's events give it. The OS answers with one set of events for each
      descriptor it was given. */
  method SyncPoll(poll: Poll, interrupts: nat, reply: OsReply)
    returns (r: Result<(), Error>, ghost asked: Option<(seq<PollFd>, int)>)
    requires poll.Valid()
    requires reply.Events? ==> |reply.revents| == Streams(poll.subs, |poll.subs|)
    modifies poll
    ensures poll.Valid() && |poll.subs| == |old(poll.subs)| && poll.userdata == old(poll.userdata)
    ensures var subs := old(poll.subs); var timeout := TimeoutOf(Earliest(subs, |subs|));
            r == if AnyUnpollable(subs) then Failure(NotPollable)
                 else if AnyImmediate(subs) then Success(())
                 else if timeout.Failure? then Failure(timeout.error)
                 else if reply.OsFailed? then Failure(OsError)
                 else Success(())
    ensures r.Success? && AnyImmediate(old(poll.subs)) ==>
              asked == None && forall i :: 0 <= i < |poll.subs| ==>
                poll.subs[i] == if Immediate(old(poll.subs)[i]) then WithStatus(old(poll.subs)[i], Completed(false))
                                else old(poll.subs)[i]
    ensures r.Success? && !AnyImmediate(old(poll.subs)) ==>
              && reply.Events?
              && (forall i :: 0 <= i < |old(poll.subs)| && old(poll.subs)[i].ReadWrite? ==>
                    old(poll.subs)[i].stream.pollable.Some?)
              && TimeoutOf(Earliest(old(poll.subs), |old(poll.subs)|)).Success?
              && asked == Some((PollFds(old(poll.subs), |old(poll.subs)|),
                                TimeoutOf(Earliest(old(poll.subs), |old(poll.subs)|)).value))
              && forall i :: 0 <= i < |poll.subs| ==>
                   poll.subs[i] == if old(poll.subs)[i].ReadWrite?
                                   then WithStatus(old(poll.subs)[i],
                                     StatusOf(reply.revents[StreamIndex(old(poll.subs), i)]))
                                   else old(poll.subs)[i]
  {
    hide AnyUnpollable, AnyImmediate, Unpollable, Immediate, Millis;
    NoneImmediate(poll.subs);
    asked := None;
    ghost var subs := poll.subs;
    var collected := Collect(poll);
    if collected.Failure? {
      return Failure(collected.error), asked;
    }
    var (ready, pollfds) := collected.value;
    if !ready {
      assert poll.subs == subs;
      var left := interrupts;
      while true
        invariant poll.subs == subs && poll.userdata == old(poll.userdata)
        decreases left
      {
        var timeout := TimeoutOf(Earliest(poll.subs, |poll.subs|));
        if timeout.Failure? {
          return Failure(timeout.error), asked;
        }
        asked := Some((pollfds, timeout.value));
        if left == 0 {
          break;
        }
        left := left - 1;
      }
      if reply.OsFailed? {
        return Failure(OsError), asked;
      }
      assert Streams(poll.subs, |poll.subs|) == |pollfds|;
      Record(poll, reply.revents);
    }
    return Success(()), asked;
  }

  // ----- the import -----

  /** A finished poll has a result for a subscription: a status, or a clock past its deadline. */
  predicate HasResult(s: Subscription, now: u64)
  {
    match s
    case ReadWrite(_, _, status) => status.Some?
    case MonotonicClock(deadline) => now >= deadline
  }

  /** The subscription for a pollable entry; none if its stream is not in the table. */
  function SubscriptionFor(entry: PollEntry, live: map<Handle, Resource>, infos: map<Handle, StreamInfo>, now: u64)
    : (s: Option<Subscription>)
  {
    match entry
    case OnRead(h) =>
      if h in live && live[h].InputStream? && h in infos then Some(ReadWrite(infos[h], true, None)) else None
    case OnWrite(h) =>
      if h in live && IsOutput(live[h]) && h in infos then Some(ReadWrite(infos[h], false, None)) else None
    case OnClock(when, absolute) => Some(MonotonicClock(RelativeDeadline(now, when, absolute)))
  }

  /** All futures are pollables whose streams are there. */
  ghost predicate AllThere(futures: seq<Handle>, live: map<Handle, Resource>, infos: map<Handle, StreamInfo>,
                           nows: seq<u64>)
    requires |nows| == |futures|
  {
    forall i :: 0 <= i < |futures| ==> futures[i] in live && live[futures[i]].Pollable?
                                       && SubscriptionFor(live[futures[i]].entry, live, infos, nows[i]).Some?
  }

  function SubscriptionsFor(futures: seq<Handle>, live: map<Handle, Resource>, infos: map<Handle, StreamInfo>,
                            nows: seq<u64>)
    : (subs: seq<Subscription>)
    requires |nows| == |futures| && AllThere(futures, live, infos, nows)
    ensures |subs| == |futures|
    ensures forall i :: 0 <= i < |subs| && subs[i].ReadWrite? ==> subs[i].status == None
  {
    seq(|futures|, i requires 0 <= i < |futures| => SubscriptionFor(live[futures[i]].entry, live, infos, nows[i]).value)
  }

  /** Turns pollable handles into subscriptions, numbered by position. */
  method SubscribeAll(futures: seq<Handle>, live: map<Handle, Resource>, infos: map<Handle, StreamInfo>, nows: seq<u64>)
    returns (r: Result<Poll, Error>)
    requires |nows| == |futures| < TWO_64
    ensures r.Success? <==> AllThere(futures, live, infos, nows)
    ensures r.Failure? ==> r.error == NotInTable
    ensures r.Success? ==>
              && fresh(r.value) && r.value.Valid()
              && r.value.subs == SubscriptionsFor(futures, live, infos, nows)
              && forall i :: 0 <= i < |futures| ==> r.value.userdata[i] == i
  {
    hide SubscriptionFor;
    var poll := new Poll();
    for i := 0 to |futures|
      invariant poll.Valid() && |poll.subs| == i
      invariant forall j :: 0 <= j < i ==> futures[j] in live && live[futures[j]].Pollable?
                                           && SubscriptionFor(live[futures[j]].entry, live, infos, nows[j])
                                             == Some(poll.subs[j])
                                           && poll.userdata[j] == j
    {
      if futures[i] !in live || !live[futures[i]].Pollable? {
        return Failure(NotInTable);
      }
      var s := SubscriptionFor(live[futures[i]].entry, live, infos, nows[i]);
      if s.None? {
        return Failure(NotInTable);
      }
      AddSubscription(poll, live[futures[i]].entry, live, infos, nows[i], i);
    }
    return Success(poll);
  }

  method AddSubscription(poll: Poll, entry: PollEntry, live: map<Handle, Resource>, infos: map<Handle, StreamInfo>,
                         now: u64, ud: u64)
    requires poll.Valid() && SubscriptionFor(entry, live, infos, now).Some?
    modifies poll
    ensures poll.Valid() && poll.userdata == old(poll.userdata) + [ud]
    ensures poll.subs == old(poll.subs) + [SubscriptionFor(entry, live, infos, now).value]
  {
    match entry {
      case OnRead(h) => poll.SubscribeStream(infos[h], true, ud);
      case OnWrite(h) => poll.SubscribeStream(infos[h], false, ud);
      case OnClock(when, absolute) => poll.SubscribeClock(now, when, absolute, ud);
    }
  }

  /** Which subscriptions end up with a result: the streams ready in memory if there are any, and
      every stream if there are none; and the clocks whose deadline has come. */
  ghost predicate Answered(subs: seq<Subscription>, i: nat, later: u64)
    requires i < |subs|
  {
    match subs[i]
    case MonotonicClock(deadline) => later >= deadline
    case ReadWrite(_, _, _) => Immediate(subs[i]) || !AnyImmediate(subs)
  }

  /** The poll is of pollables whose streams are in the table, of the kind they are asked for. */
  lemma {:induction false} AllThereIff(futures: seq<Handle>, live: map<Handle, Resource>,
                                       infos: map<Handle, StreamInfo>, nows: seq<u64>)
    requires |nows| == |futures|
    ensures AllThere(futures, live, infos, nows) <==>
              forall i :: 0 <= i < |futures| ==>
                && futures[i] in live && live[futures[i]].Pollable?
                && match live[futures[i]].entry
                   case OnClock(_, _) => true
                   case OnRead(h) => h in live && live[h].InputStream? && h in infos
                   case OnWrite(h) => h in live && (live[h].OutputStream? || live[h].AppendStream?) && h in infos
  {
  }

  /** What cannot be polled: a stream that the OS does not know, unless it is read from and has bytes ready. */
  lemma {:induction false} UnpollableIff(futures: seq<Handle>, live: map<Handle, Resource>,
                                         infos: map<Handle, StreamInfo>, nows: seq<u64>)
    requires |nows| == |futures| && AllThere(futures, live, infos, nows)
    ensures AnyUnpollable(SubscriptionsFor(futures, live, infos, nows)) <==>
              exists i :: 0 <= i < |futures| && Stuck(live[futures[i]].entry, infos)
  {
    var subs := SubscriptionsFor(futures, live, infos, nows);
    forall i | 0 <= i < |futures| ensures Unpollable(subs[i]) <==> Stuck(live[futures[i]].entry, infos) {
    }
  }

  ghost predicate Stuck(entry: PollEntry, infos: map<Handle, StreamInfo>)
  {
    match entry
    case OnClock(_, _) => false
    case OnWrite(h) => h in infos && infos[h].pollable.None?
    case OnRead(h) =>
      && h in infos && infos[h].pollable.None?
      && (infos[h].readyBytes.Failure? || infos[h].readyBytes.value == 0)
  }

  /** The future reads a stream that the OS does not know. */
  ghost predicate InMemory(entry: PollEntry, infos: map<Handle, StreamInfo>)
  {
    entry.OnRead? && entry.stream in infos && infos[entry.stream].pollable.None?
  }

  /** What a poll that succeeds answers, in terms of what the futures wait for: a clock counts when it has
      run from the first reading for as long as it should, and a stream when it is in memory or nothing
      else in the poll is. */
  lemma {:induction false} AnsweredIs(futures: seq<Handle>, live: map<Handle, Resource>,
                                      infos: map<Handle, StreamInfo>, nows: seq<u64>, later: u64, i: nat)
    requires |nows| == |futures| && AllThere(futures, live, infos, nows) && i < |futures|
    requires !AnyUnpollable(SubscriptionsFor(futures, live, infos, nows))
    ensures Answered(SubscriptionsFor(futures, live, infos, nows), i, later) <==>
              match live[futures[i]].entry
              case OnClock(when, absolute) => later + (if absolute then nows[i] else 0) >= when
              case other =>
                InMemory(other, infos) || !exists j :: 0 <= j < |futures| && InMemory(live[futures[j]].entry, infos)
  {
    var subs := SubscriptionsFor(futures, live, infos, nows);
    forall j | 0 <= j < |futures| ensures Immediate(subs[j]) <==> InMemory(live[futures[j]].entry, infos) {
      assert !Unpollable(subs[j]);
    }
  }

  /** One byte per subscription: 1 for those with a result. */
  method MarkResults(poll: Poll, laters: seq<u64>) returns (results: array<byte>)
    requires |laters| == |poll.subs| == |poll.userdata|
    requires forall i :: 0 <= i < |poll.userdata| ==> poll.userdata[i] == i
    ensures fresh(results) && results.Length == |poll.subs|
    ensures forall i :: 0 <= i < results.Length ==>
              results[i] == if HasResult(poll.subs[i], laters[i]) then 1 else 0
  {
    hide HasResult;
    results := new byte[|poll.subs|](_ => 0);
    for i := 0 to |poll.subs|
      modifies results
      invariant forall j :: 0 <= j < results.Length ==>
                  results[j] == if j < i && HasResult(poll.subs[j], laters[j]) then 1 else 0
    {
      if HasResult(poll.subs[i], laters[i]) {
        results[poll.userdata[i]] := 1;
      }
    }
  }

  /** The host's `poll_oneoff`: one byte per future, 1 exactly for those with a result. When a stream
      was ready in memory those are the streams ready in memory; otherwise they are all the streams,
      whatever the OS said of them. In both cases a clock counts when the second reading has reached
      its deadline. */
  method HostPollOneoff(futures: seq<Handle>, live: map<Handle, Resource>, infos: map<Handle, StreamInfo>,
                        nows: seq<u64>, laters: seq<u64>, interrupts: nat, reply: OsReply)
    returns (r: Result<array<byte>, Error>)
    requires |nows| == |laters| == |futures| < TWO_64
    requires reply.Events? && AllThere(futures, live, infos, nows) ==>
               |reply.revents| == Streams(SubscriptionsFor(futures, live, infos, nows), |futures|)
    ensures !AllThere(futures, live, infos, nows) ==> r == Failure(NotInTable)
    ensures AllThere(futures, live, infos, nows) ==>
              var subs := SubscriptionsFor(futures, live, infos, nows);
              var timeout := TimeoutOf(Earliest(subs, |subs|));
              r.Failure? <==> AnyUnpollable(subs) || (!AnyImmediate(subs) && (timeout.Failure? || reply.OsFailed?))
    ensures r.Success? ==>
              && AllThere(futures, live, infos, nows)
              && r.value.Length == |futures|
              && var subs := SubscriptionsFor(futures, live, infos, nows);
                 forall i :: 0 <= i < |futures| ==>
                   r.value[i] == if Answered(subs, i, laters[i]) then 1 else 0
  {
    hide Unpollable, SubscriptionFor, TimeoutOf, PollFds, StatusOf, AnyImmediate;
    var subscribed := SubscribeAll(futures, live, infos, nows);
    if subscribed.Failure? {
      return Failure(subscribed.error);
    }
    var poll := subscribed.value;
    ghost var subs := poll.subs;
    var polled, asked := SyncPoll(poll, interrupts, reply);
    if polled.Failure? {
      return Failure(polled.error);
    }
    assert forall i :: 0 <= i < |subs| ==> (HasResult(poll.subs[i], laters[i]) <==> Answered(subs, i, laters[i]));
    hide HasResult, Answered;
    var results := MarkResults(poll, laters);
    return Success(results);
  }
}
