/** Which host resources no descriptor owns: over a whole run they are what they were, and what a seek
    forgets or a failed open leaves behind. */
module Leaks {
  import opened Wrappers
  import opened Bytes
  import opened Wasi
  import opened Resources
  import opened State
  import opened Streams
  import opened Files
  import opened Calls
  import opened Runs
  import P = AdapterPoll
  import D = Descriptors

  /** The live handles that are in no open slot. */
  ghost function Unowned(w: World): set<Handle>
  {
    set h | h in w.others && !P.InASlot(w.open, h)
  }

  /** The handles that a call takes out of its slot without giving them back. */
  ghost function Forgotten(w: World, req: Request, out: Outcome): set<Handle>
  {
    if req.Seek? && out.Done? && req.fd in w.open && w.open[req.fd].Streams?
    then SetOf(w.open[req.fd].input) + SetOf(w.open[req.fd].output)
    else {}
  }

  lemma {:induction false} CloseLeaksNothing(w: World, fd: Fd)
    requires OwnedOnce(w) && fd in w.open
    ensures Unowned(World(w.open - {fd}, w.others - HandlesOf(w.open[fd]))) == Unowned(w)
  {
    hide HandlesOf, LiveIn;
    var w' := World(w.open - {fd}, w.others - HandlesOf(w.open[fd]));
    forall h ensures h in Unowned(w') <==> h in Unowned(w) {
      if h in w'.others && P.InASlot(w.open, h) {
        var k :| k in w.open && h in HandlesOf(w.open[k]);
        assert k != fd && k in w'.open && w'.open[k] == w.open[k];
      }
    }
  }

  lemma {:induction false} RenumberLeaksNothing(w: World, from: Fd, to: Fd)
    requires OwnedOnce(w) && from in w.open
    ensures Unowned(World((w.open - {from})[to := w.open[from]], w.others - D.Lost(w.open, from, to))) == Unowned(w)
  {
    hide HandlesOf, LiveIn;
    var w' := World((w.open - {from})[to := w.open[from]], w.others - D.Lost(w.open, from, to));
    forall h ensures h in Unowned(w') <==> h in Unowned(w) {
      if h in w'.others && P.InASlot(w.open, h) {
        var k :| k in w.open && h in HandlesOf(w.open[k]);
        var k' := if k == from then to else k;
        assert k' in w'.open && w'.open[k'] == w.open[k];
      } else if P.InASlot(w'.open, h) {
        var k :| k in w'.open && h in HandlesOf(w'.open[k]);
        var k' := if k == to then from else k;
        assert k' in w.open && w'.open[k] == w.open[k'];
      }
    }
  }

  /** What one slot does with its own handles leaves no other handle unowned, or owned. */
  lemma {:induction false} TransferLeaksNothing(w: World, w': World, fd: Fd)
    requires OwnedOnce(w) && OwnedOnce(w') && OnlySlotChanges(w.open, w.others, w'.open, w'.others, fd)
    ensures Unowned(w') == Unowned(w)
  {
    hide HandlesOf, LiveIn;
    SlotKept(w, w', fd);
    SlotKept(w', w, fd);
  }

  lemma {:induction false} SlotKept(w: World, w': World, fd: Fd)
    requires fd in w.open && fd in w'.open && w.open - {fd} == w'.open - {fd}
    requires w.others - HandlesOf(w.open[fd]) == w'.others - HandlesOf(w'.open[fd])
    ensures Unowned(w) <= Unowned(w')
  {
    hide HandlesOf, LiveIn;
    forall h | h in Unowned(w) ensures h in Unowned(w') {
      assert h !in HandlesOf(w.open[fd]);
      assert h in w.others - HandlesOf(w.open[fd]);
      assert h in w'.others - HandlesOf(w'.open[fd]);
      forall k | k in w'.open && k != fd ensures h !in HandlesOf(w'.open[k]) {
        assert w'.open[k] == (w'.open - {fd})[k] == (w.open - {fd})[k];
      }
    }
  }

  lemma {:induction false} PollLeaksNothing(w: World, w': World)
    requires OwnedOnce(w) && P.Grown(w.open, w.others, w'.open, w'.others)
    requires P.OnlyGains(w.others, w'.others, {}) && P.NoStrays(w'.open, w.others, w'.others, {})
    ensures Unowned(w') == Unowned(w)
  {
    hide Owned, LiveIn, FreshStream;
    forall h ensures h in Unowned(w') <==> h in Unowned(w) {
      if P.InASlot(w.open, h) {
        var k :| k in w.open && h in HandlesOf(w.open[k]);
        assert h in HandlesOf(w'.open[k]);
      } else if P.InASlot(w'.open, h) {
        var k :| k in w'.open && h in HandlesOf(w'.open[k]);
        assert h !in w.others;
      }
    }
  }

  /** A new file in a new slot is owned. */
  lemma {:induction false} OpenLeaksNothing(w: World, fd: Fd, h: Handle, d: Descriptor, res: Resource)
    requires OwnedOnce(w) && fd !in w.open && h !in w.others && HandlesOf(d) == {h}
    ensures Unowned(World(w.open[fd := d], w.others[h := res])) == Unowned(w)
  {
    hide HandlesOf, LiveIn;
    FreshIsUnowned(w.open, w.others, h);
    var w' := World(w.open[fd := d], w.others[h := res]);
    forall g ensures g in Unowned(w') <==> g in Unowned(w) {
      if g == h {
        assert fd in w'.open && h in HandlesOf(w'.open[fd]);
      } else if P.InASlot(w.open, g) {
        var k :| k in w.open && g in HandlesOf(w.open[k]);
        assert w'.open[k] == w.open[k];
      }
    }
  }

  /** A seek forgets the streams of its slot, and nothing else. */
  lemma {:induction false} SeekForgets(w: World, fd: Fd, p: u64)
    requires OwnedOnce(w) && fd in w.open && w.open[fd].Streams? && w.open[fd].stype.File?
    ensures var d := Streams(None, None, w.open[fd].stype.(position := p));
            Unowned(World(w.open[fd := d], w.others))
            == Unowned(w) + (SetOf(w.open[fd].input) + SetOf(w.open[fd].output))
  {
    var d := Streams(None, None, w.open[fd].stype.(position := p));
    var w', gone := World(w.open[fd := d], w.others), SetOf(w.open[fd].input) + SetOf(w.open[fd].output);
    SlotIsLive(w.open, w.others, fd);
    HandlesAreApart(w.open[fd], w.others);
    hide LiveIn, HandlesOf;
    forall h ensures h in Unowned(w') <==> h in Unowned(w) + gone {
      if h in gone {
        assert h in HandlesOf(w.open[fd]) && h !in HandlesOf(d);
        forall k | k in w'.open && k != fd ensures h !in HandlesOf(w'.open[k]) {
          assert w'.open[k] == w.open[k];
        }
      } else if P.InASlot(w.open, h) {
        var k :| k in w.open && h in HandlesOf(w.open[k]);
        assert h in HandlesOf(w'.open[k]);
      }
    }
  }

  lemma {:induction false} HandlesAreApart(d: Descriptor, live: map<Handle, Resource>)
    requires d.Streams? && d.stype.File? && LiveIn(d, live)
    ensures HandlesOf(d) == SetOf(d.input) + SetOf(d.output) + {d.stype.fd}
    ensures HandlesOf(Streams(None, None, d.stype)) == {d.stype.fd}
    ensures d.stype.fd !in SetOf(d.input) + SetOf(d.output)
    ensures forall h :: h in HandlesOf(d) ==> h in live
    ensures forall p :: HandlesOf(Streams(None, None, d.stype.(position := p))) == {d.stype.fd}
  {
  }

  /** The host refused to say what a handle is that it had just given out. */
  predicate LeavesHandle(req: Request) { req.Open? && req.openReply.Success? && req.typeReply.Failure? }

  /** Every call leaves owned what was owned, but for what a seek forgets. */
  lemma {:induction false} CallLeaks(w: World, req: Request, out: Outcome, w': World)
    requires OwnedOnce(w) && OwnedOnce(w')
    requires May(w, req, out, w') && out != Refused(Trap) && !LeavesHandle(req)
    ensures Unowned(w') == Unowned(w) + Forgotten(w, req, out)
  {
    hide Unowned, OwnedOnce, HandlesOf, GetDir, TableFull, OnlySlotChanges, SeekTarget, StreamError, D.Lost, View,
      P.Grown, P.OnlyGains, P.NoStrays, P.Events, P.FirstError, P.Polled;
    match req {
      case Open(_, append, nonblock, openReply, typeReply) =>
        if out.Opened? {
          var d := NewFile(out.h, typeReply.value, append, nonblock);
          NewFileIs(out.h, typeReply.value, append, nonblock);
          OpenLeaksNothing(w, out.fd, out.h, d, openReply.value);
        }
      case Close(fd) =>
        if fd in w.open {
          CloseLeaksNothing(w, fd);
        }
      case Renumber(from, to) =>
        if from in w.open {
          RenumberLeaksNothing(w, from, to);
        }
      case List(_, _, _, _, _) =>
      case Seek(fd, _, _, _) =>
        if out.Done? {
          SeekForgets(w, fd, out.n);
        }
      case SetFlags(fd, append, nonblock) =>
        if out.Done? {
          FlagsLeakNothing(w, fd, append, nonblock);
        }
      case Read(fd, _, _) =>
        if w' != w {
          TransferLeaksNothing(w, w', fd);
        }
      case Write(fd, _, _) =>
        if w' != w {
          TransferLeaksNothing(w, w', fd);
        }
      case Poll(_, _, _, _) =>
        PollLeaksNothing(w, w');
    }
  }

  lemma {:induction false} FlagsLeakNothing(w: World, fd: Fd, append: bool, nonblock: bool)
    requires fd in w.open && w.open[fd].Streams? && w.open[fd].stype.File?
    ensures var d := w.open[fd];
            Unowned(World(w.open[fd := d.(stype := d.stype.(append := append, blocking := !nonblock))], w.others))
            == Unowned(w)
  {
    var d := w.open[fd];
    var d' := d.(stype := d.stype.(append := append, blocking := !nonblock));
    assert HandlesOf(d') == HandlesOf(d);
    hide HandlesOf;
    var w' := World(w.open[fd := d'], w.others);
    forall h ensures P.InASlot(w'.open, h) <==> P.InASlot(w.open, h) {
      if P.InASlot(w.open, h) {
        var k :| k in w.open && h in HandlesOf(w.open[k]);
        assert h in HandlesOf(w'.open[k]);
      }
    }
  }

  /** The handles that the seeks among the first `n` calls forget. */
  ghost function ForgottenBy(worlds: seq<World>, reqs: seq<Request>, outs: seq<Outcome>, n: nat): set<Handle>
    requires n <= |worlds| && n <= |reqs| && n <= |outs|
  {
    if n == 0 then {}
    else ForgottenBy(worlds, reqs, outs, n - 1) + Forgotten(worlds[n - 1], reqs[n - 1], outs[n - 1])
  }

  /** Over a whole run the resources that no descriptor owns are those that none owned before, and the streams
      that its seeks forgot: every other handle a call takes out of a slot it gives back, and every one it
      makes it puts into one. */
  lemma {:induction false} RunLeaks(worlds: seq<World>, reqs: seq<Request>, outs: seq<Outcome>, n: nat)
    requires |worlds| == |outs| + 1 && n <= |outs| <= |reqs|
    requires forall i :: 0 <= i < |worlds| ==> OwnedOnce(worlds[i])
    requires forall i :: 0 <= i < n ==>
               && May(worlds[i], reqs[i], outs[i], worlds[i + 1])
               && outs[i] != Refused(Trap) && !LeavesHandle(reqs[i])
    ensures Unowned(worlds[n]) == Unowned(worlds[0]) + ForgottenBy(worlds, reqs, outs, n)
  {
    hide Unowned, OwnedOnce, May, Forgotten;
    if n > 0 {
      RunLeaks(worlds, reqs, outs, n - 1);
      CallLeaks(worlds[n - 1], reqs[n - 1], outs[n - 1], worlds[n]);
    }
  }

  /** An open whose handle's type the host does not tell leaves that one handle behind. */
  lemma {:induction false} OpenLeavesHandle(w: World, req: Request, out: Outcome, w': World)
    requires OwnedOnce(w) && LeavesHandle(req) && MayOpen(w, req, out, w') && w' != w
    ensures w'.open == w.open && exists h :: h !in w.others && Unowned(w') == Unowned(w) + {h}
  {
    var h: Handle :| h !in w.others && w'.others == w.others[h := req.openReply.value];
    FreshIsUnowned(w.open, w.others, h);
    hide HandlesOf;
    assert Unowned(w') == Unowned(w) + {h};
  }
}
