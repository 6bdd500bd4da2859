/** The adapter's descriptor table: 128 slots, with the closed ones chained into a free list. */
module Descriptors {
  import opened Wrappers
  import opened Wasi
  import opened Resources
  import opened HandleTable

  const MAX_DESCRIPTORS: nat := 128

  /** The open slots, the caller's view of the table. */
  function OpenSlots(slots: seq<Descriptor>): (m: map<Fd, Descriptor>)
    ensures forall k :: k in m ==> m[k].Streams?
  {
    map k: Fd | 0 <= k < |slots| && slots[k].Streams? :: slots[k]
  }

  // ----- the free list, as a property of the slots -----

  /** The slot that follows position `i` of a chain. */
  function After(chain: seq<Fd>, i: nat): Option<Fd>
  {
    if i < |chain| then Some(chain[i]) else None
  }

  /** `chain` is the walk of the free list from `head`: it ends, repeats no slot, and passes
      through every closed slot. */
  ghost predicate IsFreeList(slots: seq<Descriptor>, head: Option<Fd>, chain: seq<Fd>)
  {
    && head == After(chain, 0)
    && (forall i :: 0 <= i < |chain| ==> chain[i] < |slots| && slots[chain[i]] == Closed(After(chain, i + 1)))
    && (forall i, j :: 0 <= i < j < |chain| ==> chain[i] != chain[j])
    && (forall k: Fd :: k < |slots| && slots[k].Closed? ==> k in chain)
  }

  ghost predicate WellFormed(slots: seq<Descriptor>, head: Option<Fd>)
  {
    exists chain :: IsFreeList(slots, head, chain)
  }

  lemma {:induction false} EmptyFreeList()
    ensures WellFormed([], None)
  {
    assert IsFreeList([], None, []);
  }

  lemma {:induction false} FreeListPush(slots: seq<Descriptor>, head: Option<Fd>, fd: Fd)
    requires WellFormed(slots, head) && fd < |slots| && slots[fd].Streams?
    ensures WellFormed(slots[fd := Closed(head)], Some(fd))
  {
    var chain :| IsFreeList(slots, head, chain);
    assert IsFreeList(slots[fd := Closed(head)], Some(fd), [fd] + chain);
  }

  lemma {:induction false} FreeListUpdate(slots: seq<Descriptor>, head: Option<Fd>, fd: Fd, d: Descriptor)
    requires WellFormed(slots, head) && fd < |slots| && slots[fd].Streams? && d.Streams?
    ensures WellFormed(slots[fd := d], head)
  {
    var chain :| IsFreeList(slots, head, chain);
    assert IsFreeList(slots[fd := d], head, chain);
  }

  lemma {:induction false} FreeListPop(slots: seq<Descriptor>, head: Fd, d: Descriptor)
    requires WellFormed(slots, Some(head)) && d.Streams?
    ensures head < |slots| && slots[head].Closed?
    ensures WellFormed(slots[head := d], slots[head].next)
  {
    var chain :| IsFreeList(slots, Some(head), chain);
    assert chain[0] == head;
    var rest := chain[1..];
    var popped := slots[head := d];
    assert head !in rest;
    forall i | 0 <= i < |rest| ensures popped[rest[i]] == Closed(After(rest, i + 1)) {
      assert rest[i] == chain[i + 1] && chain[i + 1] != head;
      assert After(chain, i + 2) == After(rest, i + 1);
    }
    forall k: Fd | k < |popped| && popped[k].Closed? ensures k in rest {
      assert k != head && slots[k].Closed?;
      var i :| 0 <= i < |chain| && chain[i] == k;
      assert rest[i - 1] == k;
    }
    assert IsFreeList(popped, slots[head].next, rest);
  }

  lemma {:induction false} FreeListGrow(slots: seq<Descriptor>, head: Option<Fd>, d: Descriptor)
    requires WellFormed(slots, head) && |slots| < MAX_DESCRIPTORS
    requires d.Closed? ==> d.next == head
    ensures WellFormed(slots + [d], if d.Closed? then Some(|slots|) else head)
  {
    var chain :| IsFreeList(slots, head, chain);
    if d.Closed? {
      GrownFreeList(slots, head, chain);
    } else {
      assert IsFreeList(slots + [d], head, chain);
    }
  }

  lemma {:induction false} GrownFreeList(slots: seq<Descriptor>, head: Option<Fd>, chain: seq<Fd>)
    requires IsFreeList(slots, head, chain) && |slots| < MAX_DESCRIPTORS
    ensures IsFreeList(slots + [Closed(head)], Some(|slots|), [|slots|] + chain)
  {
    var fd: Fd := |slots|;
    var grown, longer := slots + [Closed(head)], [fd] + chain;
    forall i | 0 <= i < |longer| ensures longer[i] < |grown| && grown[longer[i]] == Closed(After(longer, i + 1)) {
      assert After(longer, i + 1) == After(chain, i);
      if i > 0 {
        assert longer[i] == chain[i - 1];
      }
    }
    forall k: Fd | k < |grown| && grown[k].Closed? ensures k in longer {
      assert k == fd || slots[k].Closed?;
    }
  }

  lemma {:induction false} FreeListEmpty(slots: seq<Descriptor>)
    requires WellFormed(slots, None)
    ensures forall k: Fd :: k < |slots| ==> slots[k].Streams?
  {
  }

  /** Any walk of the list after a renumber retraces the old list, one step behind. */
  lemma {:induction false} Retraces(slots: seq<Descriptor>, chain: seq<Fd>, after: seq<Descriptor>,
                                    walk: seq<Fd>, from: Fd, to: Fd, i: nat)
    requires from < |slots| && to < |slots| && slots[from].Streams? && from != to
    requires IsFreeList(slots, After(chain, 0), chain) && i < |chain|
    requires after == slots[from := Closed(After(chain, 0))][to := slots[from]]
    requires IsFreeList(after, Some(from), walk)
    requires to !in chain[..i]
    ensures i + 1 < |walk| && walk[i + 1] == chain[i]
  {
    if i == 0 {
      assert after[walk[0]] == Closed(After(chain, 0));
    } else {
      Retraces(slots, chain, after, walk, from, to, i - 1);
      assert chain[i - 1] != from && chain[i - 1] != to;
      assert after[walk[i]] == Closed(After(chain, i));
    }
  }

  lemma {:induction false} MoveOntoOpenSlotKeepsFreeList(slots: seq<Descriptor>, head: Option<Fd>, from: Fd, to: Fd)
    requires WellFormed(slots, head) && from < |slots| && to < |slots|
    requires slots[from].Streams? && slots[to].Streams? && from != to
    ensures WellFormed(slots[from := Closed(head)][to := slots[from]], Some(from))
  {
    FreeListPush(slots, head, from);
    var pushed := slots[from := Closed(head)];
    var chain :| IsFreeList(pushed, Some(from), chain);
    assert IsFreeList(pushed[to := slots[from]], Some(from), chain);
  }

  lemma {:induction false} OtherMovesBreakFreeList(slots: seq<Descriptor>, head: Option<Fd>, from: Fd, to: Fd,
                                                   walk: seq<Fd>)
    requires WellFormed(slots, head) && from < |slots| && to < |slots|
    requires slots[from].Streams? && (slots[to].Closed? || from == to)
    ensures !IsFreeList(slots[from := Closed(head)][to := slots[from]], Some(from), walk)
  {
    var after := slots[from := Closed(head)][to := slots[from]];
    if IsFreeList(after, Some(from), walk) && from != to {
      var chain :| IsFreeList(slots, head, chain);
      var j :| 0 <= j < |chain| && chain[j] == to;
      Retraces(slots, chain, after, walk, from, to, j);
    }
  }

  /** Moving `from` onto `to` keeps the free list well formed exactly when `to` was open and is
      another slot: `to` is never unlinked, and closing `from` links it even when it stays open. */
  lemma {:induction false} RenumberKeepsFreeListIff(slots: seq<Descriptor>, head: Option<Fd>, from: Fd, to: Fd)
    requires WellFormed(slots, head) && from < |slots| && to < |slots| && slots[from].Streams?
    ensures WellFormed(slots[from := Closed(head)][to := slots[from]], Some(from))
            <==> slots[to].Streams? && from != to
  {
    if slots[to].Streams? && from != to {
      MoveOntoOpenSlotKeepsFreeList(slots, head, from, to);
    } else {
      var after := slots[from := Closed(head)][to := slots[from]];
      if WellFormed(after, Some(from)) {
        var walk :| IsFreeList(after, Some(from), walk);
        OtherMovesBreakFreeList(slots, head, from, to, walk);
      }
    }
  }

  // ----- what a broken free list leads to -----

  /** What `open` makes of the slots, and where it ends in its unreachable branch. */
  datatype Opening = Opened(slots: seq<Descriptor>, head: Option<Fd>, fd: Fd) | NoRoom | Unreachable

  function OpenOn(slots: seq<Descriptor>, head: Option<Fd>, d: Descriptor): Opening
  {
    match head
    case None => if |slots| < MAX_DESCRIPTORS then Opened(slots + [d], None, |slots|) else NoRoom
    case Some(fd) =>
      if fd < |slots| && slots[fd].Closed? then Opened(slots[fd := d], slots[fd].next, fd) else Unreachable
  }

  /** Opening all of `ds` in turn reaches the unreachable branch. */
  predicate OpensTrap(slots: seq<Descriptor>, head: Option<Fd>, ds: seq<Descriptor>)
    decreases |ds|
  {
    ds != [] &&
    match OpenOn(slots, head, ds[0])
    case Unreachable => true
    case NoRoom => OpensTrap(slots, head, ds[1..])
    case Opened(slots', head', _) => OpensTrap(slots', head', ds[1..])
  }

  ghost predicate AllOpen(ds: seq<Descriptor>) { forall i :: 0 <= i < |ds| ==> ds[i].Streams? }

  lemma {:induction false} WellFormedNeverTraps(slots: seq<Descriptor>, head: Option<Fd>, ds: seq<Descriptor>)
    requires WellFormed(slots, head) && |slots| <= MAX_DESCRIPTORS && AllOpen(ds)
    ensures !OpensTrap(slots, head, ds)
    decreases |ds|
  {
    hide WellFormed;
    if ds != [] {
      match head {
        case Some(fd) => FreeListPop(slots, fd, ds[0]);
        case None =>
          if |slots| < MAX_DESCRIPTORS {
            FreeListGrow(slots, head, ds[0]);
          }
      }
      match OpenOn(slots, head, ds[0])
      case Opened(slots', head', _) => WellFormedNeverTraps(slots', head', ds[1..]);
      case NoRoom => WellFormedNeverTraps(slots, head, ds[1..]);
    }
  }

  /** A chain that runs from closed slots into an open one. */
  ghost predicate RunsInto(slots: seq<Descriptor>, chain: seq<Fd>)
  {
    && chain != []
    && (forall i :: 0 <= i < |chain| ==> chain[i] < |slots|)
    && (forall i :: 0 <= i < |chain| - 1 ==> slots[chain[i]] == Closed(Some(chain[i + 1])))
    && (forall i, j :: 0 <= i < j < |chain| ==> chain[i] != chain[j])
    && slots[chain[|chain| - 1]].Streams?
  }

  lemma {:induction false} RunningIntoOpenTraps(slots: seq<Descriptor>, chain: seq<Fd>, ds: seq<Descriptor>)
    requires RunsInto(slots, chain) && |ds| == |chain|
    ensures OpensTrap(slots, Some(chain[0]), ds)
    decreases |chain|
  {
    if |chain| > 1 {
      assert RunsInto(slots[chain[0] := ds[0]], chain[1..]);
      RunningIntoOpenTraps(slots[chain[0] := ds[0]], chain[1..], ds[1..]);
    }
  }

  /** One link of the list after a move. */
  lemma {:induction false} MovedLink(slots: seq<Descriptor>, list: seq<Fd>, from: Fd, to: Fd, j: nat, i: nat)
    requires IsFreeList(slots, After(list, 0), list) && from < |slots| && to < |slots|
    requires slots[from].Streams? && i <= j < |list| && list[j] == to
    ensures list[i] < |slots| && list[i] != from
    ensures var at := if i == 0 then from else list[i - 1];
            at < |slots| && slots[from := Closed(After(list, 0))][to := slots[from]][at] == Closed(Some(list[i]))
  {
    assert slots[list[i]].Closed?;
    if i > 0 {
      assert slots[list[i - 1]] == Closed(After(list, i));
      assert list[i - 1] != list[j];
    } else {
      assert slots[to].Closed?;
    }
  }

  lemma {:induction false} ListRepeatsNothing(slots: seq<Descriptor>, head: Option<Fd>, list: seq<Fd>, i: nat, j: nat)
    requires IsFreeList(slots, head, list) && i < j < |list|
    ensures list[i] != list[j]
  {
  }

  /** A move onto a closed slot leaves a list that runs into that slot. */
  lemma {:induction false} MoveRunsIntoOpen(slots: seq<Descriptor>, list: seq<Fd>, from: Fd, to: Fd, j: nat)
    requires IsFreeList(slots, After(list, 0), list) && from < |slots| && to < |slots|
    requires slots[from].Streams? && j < |list| && list[j] == to
    ensures RunsInto(slots[from := Closed(After(list, 0))][to := slots[from]], [from] + list[..j + 1])
  {
    hide IsFreeList, After;
    var after, chain := slots[from := Closed(After(list, 0))][to := slots[from]], [from] + list[..j + 1];
    forall i | 0 <= i < |chain| ensures chain[i] < |slots| {
      MovedLink(slots, list, from, to, j, if i == 0 then 0 else i - 1);
    }
    forall i | 0 <= i < |chain| - 1 ensures after[chain[i]] == Closed(Some(chain[i + 1])) {
      MovedLink(slots, list, from, to, j, i);
    }
    forall i, k | 0 <= i < k < |chain| ensures chain[i] != chain[k] {
      MovedLink(slots, list, from, to, j, k - 1);
      if i > 0 {
        ListRepeatsNothing(slots, After(list, 0), list, i - 1, k - 1);
      }
    }
  }

  lemma {:induction false} OtherMovesRunIntoOpen(slots: seq<Descriptor>, head: Option<Fd>, from: Fd, to: Fd)
    returns (chain: seq<Fd>)
    requires WellFormed(slots, head) && from < |slots| && to < |slots|
    requires slots[from].Streams? && (slots[to].Closed? || from == to)
    ensures chain != [] && chain[0] == from && RunsInto(slots[from := Closed(head)][to := slots[from]], chain)
  {
    if from == to {
      chain := [from];
    } else {
      var list :| IsFreeList(slots, head, list);
      var j :| 0 <= j < |list| && list[j] == to;
      hide IsFreeList, RunsInto;
      ListStartsAtHead(slots, head, list);
      MoveRunsIntoOpen(slots, list, from, to, j);
      chain := [from] + list[..j + 1];
    }
  }

  lemma {:induction false} ListStartsAtHead(slots: seq<Descriptor>, head: Option<Fd>, list: seq<Fd>)
    requires IsFreeList(slots, head, list)
    ensures head == After(list, 0)
  {
  }

  /** After a renumber some run of opens reaches the unreachable branch exactly when the free list was
      broken: when `to` was not open, or was `from` itself. */
  lemma {:induction false} RenumberTrapsLaterIff(slots: seq<Descriptor>, head: Option<Fd>, from: Fd, to: Fd)
    requires WellFormed(slots, head) && from < |slots| && to < |slots| <= MAX_DESCRIPTORS && slots[from].Streams?
    ensures (exists ds :: AllOpen(ds) && OpensTrap(slots[from := Closed(head)][to := slots[from]], Some(from), ds))
            <==> slots[to].Closed? || from == to
  {
    hide WellFormed, OpensTrap;
    var after := slots[from := Closed(head)][to := slots[from]];
    if slots[to].Closed? || from == to {
      var chain := OtherMovesRunIntoOpen(slots, head, from, to);
      var ds := seq(|chain|, _ => slots[from]);
      RunningIntoOpenTraps(after, chain, ds);
      assert AllOpen(ds);
    } else {
      MoveOntoOpenSlotKeepsFreeList(slots, head, from, to);
      forall ds | AllOpen(ds) ensures !OpensTrap(after, Some(from), ds) {
        WellFormedNeverTraps(after, Some(from), ds);
      }
    }
  }

  // ----- the open slots -----

  lemma {:induction false} OpenSlotsAt(slots: seq<Descriptor>, k: Fd)
    ensures k in OpenSlots(slots) <==> k < |slots| && slots[k].Streams?
    ensures k in OpenSlots(slots) ==> OpenSlots(slots)[k] == slots[k]
  {
  }

  lemma {:induction false} OpenAfterPush(slots: seq<Descriptor>, d: Descriptor)
    requires |slots| < MAX_DESCRIPTORS
    ensures OpenSlots(slots + [d]) == if d.Streams? then OpenSlots(slots)[|slots| := d] else OpenSlots(slots)
    ensures |slots| !in OpenSlots(slots)
  {
  }

  lemma {:induction false} OpenAfterSet(slots: seq<Descriptor>, k: Fd, d: Descriptor)
    requires k < |slots|
    ensures OpenSlots(slots[k := d]) == if d.Streams? then OpenSlots(slots)[k := d] else OpenSlots(slots) - {k}
  {
  }

  /** What a move does to the open slots: `from` goes, `to` becomes what `from` was. */
  lemma {:induction false} OpenAfterMove(slots: seq<Descriptor>, head: Option<Fd>, from: Fd, to: Fd)
    requires from < |slots| && to < |slots| && slots[from].Streams?
    ensures OpenSlots(slots[from := Closed(head)][to := slots[from]])
            == (OpenSlots(slots) - {from})[to := slots[from]]
  {
  }

  /** The handles that moving `from` onto `to` gives back: those of what it overwrites. */
  function Lost(open: map<Fd, Descriptor>, from: Fd, to: Fd): set<Handle>
  {
    if to in open && to != from then HandlesOf(open[to]) else {}
  }

  // ----- the table itself -----

  function PreopenSlot(p: (Handle, DescriptorType)): Descriptor
  {
    Streams(None, None, File(p.0, p.1, 0, false, false))
  }

  function StartSlots(stdin: Handle, stdout: Handle, stderr: Handle, preopens: seq<(Handle, DescriptorType)>)
    : (slots: seq<Descriptor>)
  {
    [Streams(Some(stdin), None, Stdio), Streams(None, Some(stdout), Stdio), Streams(None, Some(stderr), Stdio)]
    + PreopenSlots(preopens)
  }

  function PreopenSlots(preopens: seq<(Handle, DescriptorType)>): (slots: seq<Descriptor>)
    ensures |slots| == |preopens|
    ensures forall i :: 0 <= i < |slots| ==> slots[i].Streams?
  {
    seq(|preopens|, i requires 0 <= i < |preopens| => PreopenSlot(preopens[i]))
  }

  /** The handles at start-up are live, of the right kind, and all different. */
  ghost predicate GoodStart(stdin: Handle, stdout: Handle, stderr: Handle, preopens: seq<(Handle, DescriptorType)>,
                            live: map<Handle, Resource>)
  {
    && stdin in live && live[stdin].InputStream?
    && stdout in live && IsOutput(live[stdout]) && stderr in live && IsOutput(live[stderr]) && stdout != stderr
    && (forall i :: 0 <= i < |preopens| ==>
          && preopens[i].0 in live && IsDescriptor(live[preopens[i].0])
          && (preopens[i].1 == Directory <==> live[preopens[i].0].HostDirectory?))
    && forall i, j :: 0 <= i < j < |preopens| ==> preopens[i].0 != preopens[j].0
  }

  /** At start-up every handle is owned once. */
  lemma {:induction false} StartIsOwned(stdin: Handle, stdout: Handle, stderr: Handle,
                                        preopens: seq<(Handle, DescriptorType)>, live: map<Handle, Resource>)
    requires 3 + |preopens| <= MAX_DESCRIPTORS && GoodStart(stdin, stdout, stderr, preopens, live)
    ensures Owned(OpenSlots(StartSlots(stdin, stdout, stderr, preopens)), live)
  {
    var slots := StartSlots(stdin, stdout, stderr, preopens);
    var open := OpenSlots(slots);
    assert forall k :: 3 <= k < |slots| ==> slots[k] == PreopenSlot(preopens[k - 3]);
    forall k | k in open ensures LiveIn(open[k], live) {
    }
    forall j, k | j in open && k in open && j != k ensures HandlesOf(open[j]) !! HandlesOf(open[k]) {
    }
  }

  class Descriptors {
    const table: array<Descriptor>
    var tableLen: nat
    var closed: Option<Fd>

    ghost predicate Valid()
      reads this, table
    {
      && table.Length == MAX_DESCRIPTORS
      && tableLen <= MAX_DESCRIPTORS
      && WellFormed(Slots(), closed)
    }

    function Slots(): (s: seq<Descriptor>)
      reads this, table
    {
      if tableLen <= table.Length then table[..tableLen] else []
    }

    /** The descriptors a caller can use, by number. */
    function Open(): (m: map<Fd, Descriptor>)
      reads this, table
      ensures forall k :: k in m ==> m[k].Streams?
    {
      OpenSlots(Slots())
    }

    /** The table at start-up: stdin, stdout and stderr, then the preopens from 3 on. More than
        125 preopens would trap. */
    constructor (stdin: Handle, stdout: Handle, stderr: Handle, preopens: seq<(Handle, DescriptorType)>)
      requires 3 + |preopens| <= MAX_DESCRIPTORS
      ensures Valid() && fresh(table) && closed == None
      ensures Slots() == StartSlots(stdin, stdout, stderr, preopens)
    {
      table := new Descriptor[MAX_DESCRIPTORS](_ => Closed(None));
      tableLen, closed := 0, None;
      new;
      hide WellFormed, OpenSlots;
      EmptyFreeList();
      PushAll([Streams(Some(stdin), None, Stdio), Streams(None, Some(stdout), Stdio),
               Streams(None, Some(stderr), Stdio)]);
      PushAll(PreopenSlots(preopens));
    }

    /** Pushes open slots, one after the other. */
    method PushAll(ds: seq<Descriptor>)
      requires Valid() && closed == None && tableLen + |ds| <= MAX_DESCRIPTORS
      requires forall i :: 0 <= i < |ds| ==> ds[i].Streams?
      modifies this, table
      ensures Valid() && closed == None && Slots() == old(Slots()) + ds
    {
      hide WellFormed;
      ghost var before := Slots();
      for i := 0 to |ds|
        invariant Valid() && closed == None && tableLen == |before| + i
        invariant Slots() == before + ds[..i]
      {
        var fd := Push(ds[i]);
      }
    }

    /** Appends a slot; a closed one becomes the new head of the free list. */
    method Push(d: Descriptor) returns (r: Result<Fd, Errno>)
      requires Valid()
      requires d.Closed? ==> d.next == closed
      modifies this`tableLen, table
      ensures tableLen <= MAX_DESCRIPTORS && closed == old(closed)
      ensures r.Success? <==> old(tableLen) < MAX_DESCRIPTORS
      ensures r.Success? ==> r.value == old(tableLen) && Slots() == old(Slots()) + [d]
      ensures r.Failure? ==> r.error == NOMEM && Slots() == old(Slots())
      ensures WellFormed(Slots(), if r.Success? && d.Closed? then Some(r.value) else closed)
    {
      hide WellFormed, OpenSlots;
      if tableLen >= table.Length {
        return Failure(NOMEM);
      }
      FreeListGrow(Slots(), closed, d);
      table[tableLen] := d;
      tableLen := tableLen + 1;
      assert Slots() == old(Slots()) + [d];
      return Success(tableLen - 1);
    }

    /** Opens `d` in a slot that was not open, or fails because all 128 are. */
    method OpenSlot(d: Descriptor) returns (r: Result<Fd, Errno>)
      requires Valid() && d.Streams?
      modifies this, table
      ensures Valid()
      ensures r.Success? ==> r.value !in old(Open()) && Open() == old(Open())[r.value := d]
      ensures r.Success? && old(closed).Some? ==> r.value == old(closed).value
      ensures r.Failure? <==> forall k: Fd :: k < MAX_DESCRIPTORS ==> k in old(Open())
      ensures r.Failure? ==> r.error == NOMEM && Open() == old(Open())
      ensures match OpenOn(old(Slots()), old(closed), d)
              case Opened(slots, head, fd) => r == Success(fd) && Slots() == slots && closed == head
              case NoRoom => r == Failure(NOMEM) && Slots() == old(Slots()) && closed == old(closed)
              case Unreachable => false
    {
      hide WellFormed, OpenSlots;
      match closed {
        case None =>
          FreeListEmpty(Slots());
          forall k: Fd {
            OpenSlotsAt(Slots(), k);
          }
          if tableLen < MAX_DESCRIPTORS {
            OpenAfterPush(Slots(), d);
          }
          r := Push(d);
        case Some(head) =>
          FreeListPop(Slots(), head, d);
          OpenSlotsAt(Slots(), head);
          OpenAfterSet(Slots(), head, d);
          var next := table[head].next;
          table[head] := d;
          closed := next;
          assert Slots() == old(Slots())[head := d];
          r := Success(head);
      }
    }

    /** Closes `fd` and hands back what it held, without dropping it. */
    method CloseSlot(fd: Fd) returns (r: Result<Descriptor, Errno>)
      requires Valid()
      modifies this`closed, table
      ensures Valid() && tableLen == old(tableLen)
      ensures r == if fd in old(Open()) then Success(old(Open())[fd]) else Failure(BADF)
      ensures Open() == old(Open()) - {fd}
      ensures Slots() == if r.Success? then old(Slots())[fd := Closed(old(closed))] else old(Slots())
      ensures closed == if r.Success? then Some(fd) else old(closed)
    {
      hide WellFormed, OpenSlots;
      OpenSlotsAt(Slots(), fd);
      if fd >= tableLen || table[fd].Closed? {
        assert Open() - {fd} == Open();
        return Failure(BADF);
      }
      FreeListPush(Slots(), closed, fd);
      OpenAfterSet(Slots(), fd, Closed(closed));
      var prev := table[fd];
      table[fd] := Closed(closed);
      closed := Some(fd);
      assert Slots() == old(Slots())[fd := Closed(old(closed))];
      return Success(prev);
    }

    /** Closes `fd`, giving exactly the handles it owned back to the host. */
    method Close(fd: Fd, host: Table<Resource>) returns (r: Result<(), Errno>)
      requires Valid() && host.Valid() && Owned(Open(), host.entries)
      modifies this`closed, table, host
      ensures Valid() && host.Valid() && Owned(Open(), host.entries)
      ensures r == if fd in old(Open()) then Success(()) else Failure(BADF)
      ensures Open() == old(Open()) - {fd} && (r.Failure? ==> Open() == old(Open()))
      ensures host.entries == if r.Success? then old(host.entries) - HandlesOf(old(Open())[fd]) else old(host.entries)
    {
      if fd in Open() {
        OwnedAfterRemoval(Open(), host.entries, fd);
      }
      var closing := CloseSlot(fd);
      if closing.Failure? {
        assert Open() == old(Open());
        return Failure(closing.error);
      }
      DropDescriptor(closing.value, host);
      return Success(());
    }

    /** Changes what an open slot holds, as setting one of its cells does. */
    method Update(fd: Fd, d: Descriptor)
      requires Valid() && fd in Open() && d.Streams?
      modifies table
      ensures Valid() && Open() == old(Open())[fd := d]
    {
      hide WellFormed, OpenSlots;
      OpenSlotsAt(Slots(), fd);
      FreeListUpdate(Slots(), closed, fd, d);
      OpenAfterSet(Slots(), fd, d);
      table[fd] := d;
      assert Slots() == old(Slots())[fd := d];
    }

    /** Appends a closed slot, used to make room for a renumber. */
    method PushClosed() returns (r: Result<(), Errno>)
      requires Valid()
      modifies this, table
      ensures Valid() && Open() == old(Open())
      ensures r.Success? <==> old(tableLen) < MAX_DESCRIPTORS
      ensures r.Success? ==> tableLen == old(tableLen) + 1
      ensures r.Failure? ==> r.error == NOMEM && tableLen == old(tableLen)
    {
      hide WellFormed, OpenSlots;
      if tableLen < MAX_DESCRIPTORS {
        OpenAfterPush(Slots(), Closed(closed));
      }
      var pushed := Push(Closed(closed));
      if pushed.Failure? {
        return Failure(pushed.error);
      }
      closed := Some(pushed.value);
      return Success(());
    }

    /** Moves `from` onto `to`. Whatever happens the open slots are as they were or exactly moved,
        and the free list stays well formed unless a successful move landed on a slot that was
        not open, or on itself. */
    method Renumber(from: Fd, to: Fd, host: Table<Resource>) returns (r: Result<(), Errno>)
      requires Valid() && host.Valid() && Owned(Open(), host.entries)
      modifies this, table, host
      ensures table.Length == MAX_DESCRIPTORS && tableLen <= MAX_DESCRIPTORS && host.Valid()
      ensures r.Success? <==> from in old(Open()) && to < MAX_DESCRIPTORS
      ensures r.Failure? ==>
                && r.error == (if from < old(tableLen) && to >= MAX_DESCRIPTORS then NOMEM else BADF)
                && Open() == old(Open())
                && host.entries == old(host.entries)
      ensures r.Success? ==> Open() == (old(Open()) - {from})[to := old(Open())[from]] && closed == Some(from)
      ensures r.Success? ==>
                host.entries == old(host.entries) - Lost(old(Open()), from, to)
      ensures Owned(Open(), host.entries)
      ensures Valid() <==> r.Failure? || (to in old(Open()) && from != to)
    {
      if from >= tableLen {
        return Failure(BADF);
      }
      while tableLen <= to
        invariant Valid() && Open() == old(Open()) && from < tableLen && old(tableLen) <= tableLen
        invariant unchanged(host)
        decreases MAX_DESCRIPTORS - tableLen
      {
        var pushed := PushClosed();
        if pushed.Failure? {
          return Failure(pushed.error);
        }
      }
      ghost var slots, head := Slots(), closed;
      OwnedAfterMove(Open(), host.entries, from, to);
      OpenSlotsAt(slots, from);
      OpenSlotsAt(slots, to);
      r := MoveSlot(from, to, host);
      if r.Success? {
        RenumberKeepsFreeListIff(slots, head, from, to);
        OpenAfterMove(slots, head, from, to);
      }
    }

    /** The second half of a renumber, once `to` is in bounds: close `from`, put what it held into
        `to`, and drop what `to` held. */
    method MoveSlot(from: Fd, to: Fd, host: Table<Resource>) returns (r: Result<(), Errno>)
      requires Valid() && host.Valid()
      requires from < tableLen && to < tableLen && LiveIn(Slots()[to], host.entries)
      modifies this`closed, table, host
      ensures tableLen <= MAX_DESCRIPTORS && host.Valid()
      ensures r == if old(Slots())[from].Streams? then Success(()) else Failure(BADF)
      ensures r.Failure? ==> Slots() == old(Slots()) && closed == old(closed) && host.entries == old(host.entries)
      ensures r.Success? ==>
                && Slots() == old(Slots())[from := Closed(old(closed))][to := old(Slots())[from]]
                && closed == Some(from)
                && host.entries == old(host.entries) - if to != from then HandlesOf(old(Slots())[to]) else {}
    {
      hide WellFormed, OpenSlots, HandlesOf, LiveIn;
      OpenSlotsAt(Slots(), from);
      ClosedIsLive(host.entries);
      var closing := CloseSlot(from);
      if closing.Failure? {
        return Failure(closing.error);
      }
      assert Slots() == old(Slots())[from := Closed(old(closed))];
      var overwritten := table[to];
      assert overwritten == Slots()[to];
      assert overwritten == if to == from then Closed(old(closed)) else old(Slots())[to];
      table[to] := closing.value;
      assert Slots() == old(Slots())[from := Closed(old(closed))][to := old(Slots())[from]];
      DropDescriptor(overwritten, host);
      return Success(());
    }
  }

  lemma {:induction false} ClosedIsLive(live: map<Handle, Resource>)
    ensures forall next :: LiveIn(Closed(next), live) && HandlesOf(Closed(next)) == {}
  {
  }

  /** Gives one handle back to the host, which traps if it is not live or of another kind. */
  method DropHandle(h: Option<Handle>, ofType: Resource -> bool, host: Table<Resource>)
    requires host.Valid()
    requires h.Some? ==> h.value in host.entries && ofType(host.entries[h.value])
    modifies host
    ensures host.Valid()
    ensures host.entries == old(host.entries) - SetOf(h)
  {
    if h.Some? {
      var dropped := host.Delete(h.value, ofType);
    }
  }

  /** The handles of one descriptor are of three different kinds, so dropping one of them leaves
      the others live. */
  lemma {:induction false} HandlesDropOneByOne(d: Descriptor, live: map<Handle, Resource>)
    requires LiveIn(d, live) && d.Streams?
    ensures d.input.Some? ==> d.input.value in live && live[d.input.value].InputStream?
    ensures var live1 := live - SetOf(d.input);
            && (d.output.Some? ==> d.output.value in live1 && IsOutput(live1[d.output.value]))
            && var live2 := live1 - SetOf(d.output);
               && (d.stype.File? ==> d.stype.fd in live2 && IsDescriptor(live2[d.stype.fd]))
               && live2 - SetOf(FileHandle(d.stype)) == live - HandlesOf(d)
  {
  }

  /** Rust's `Drop` for a descriptor: every handle it owns goes back to the host, once. */
  method DropDescriptor(d: Descriptor, host: Table<Resource>)
    requires host.Valid() && LiveIn(d, host.entries)
    modifies host
    ensures host.Valid()
    ensures host.entries == old(host.entries) - HandlesOf(d)
  {
    hide LiveIn, HandlesOf;
    match d {
      case Closed(next) =>
        ClosedIsLive(host.entries);
        assert HandlesOf(Closed(next)) == {};
      case Streams(input, output, stype) =>
        HandlesDropOneByOne(d, host.entries);
        DropHandle(input, IsInput, host);
        DropHandle(output, IsOutput, host);
        DropHandle(FileHandle(stype), IsDescriptor, host);
    }
  }

  lemma {:induction false} OwnedAfterMove(open: map<Fd, Descriptor>, live: map<Handle, Resource>, from: Fd, to: Fd)
    requires Owned(open, live)
    ensures from in open ==>
              Owned((open - {from})[to := open[from]],
                  live - if to in open && to != from then HandlesOf(open[to]) else {})
  {
    if from !in open {
      return;
    }
    var lost := Lost(open, from, to);
    var moved := (open - {from})[to := open[from]];
    forall k | k in moved ensures LiveIn(moved[k], live - lost) {
      var k' := if k == to then from else k;
      assert moved[k] == open[k'];
      assert LiveIn(open[k'], live);
      assert to in open && to != from ==> HandlesOf(open[k']) !! HandlesOf(open[to]);
    }
  }
}
