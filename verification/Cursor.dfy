/** One open file as the adapter keeps it, a recorded position and up to two host streams with
    positions of their own, against a file with one cursor. */
module Cursor {
  import opened Wrappers
  import opened Bytes

  datatype Output = At(position: u64) | End

  /** The adapter's `position` and `append`, and where the host's streams stand. */
  datatype FileState = FileState(position: u64, input: Option<u64>, output: Option<Output>, append: bool)

  /** What a call does to the positions: how many bytes it moved, or where it seeks to. */
  datatype Move = Reads(count: u32) | Writes(count: u32) | Seeks(position: u64) | SetsAppend(append: bool)

  function Advance(position: u64, n: u32): u64 { (position + n) % TWO_64 }

  function ReadPosition(s: FileState): u64 { if s.input.Some? then s.input.value else s.position }

  function WriteTarget(s: FileState): Output
  {
    if s.output.Some? then s.output.value else if s.append then End else At(s.position)
  }

  function AdvanceOutput(target: Output, n: u32): Output
  {
    match target
    case At(p) => At(Advance(p, n))
    case End => End
  }

  function Step(s: FileState, m: Move): FileState
  {
    match m
    case Reads(n) => s.(input := Some(Advance(ReadPosition(s), n)), position := Advance(s.position, n))
    case Writes(n) =>
      s.(output := Some(AdvanceOutput(WriteTarget(s), n)),
         position := if s.append then s.position else Advance(s.position, n))
    case Seeks(p) => FileState(p, None, None, s.append)
    case SetsAppend(a) => s.(append := a)
  }

  /** The streams stand where the recorded position says, and append exactly when the flag says. */
  predicate InSync(s: FileState)
  {
    && (s.input.Some? ==> s.input.value == s.position)
    && (s.output.Some? ==> s.output.value == if s.append then End else At(s.position))
  }

  /** What keeps the streams in step, told before the call: a read must not move away from an open
      positioned output stream, nor a write from an open input stream, and the append flag must not
      change while an output stream is open. */
  predicate Safe(s: FileState, m: Move)
  {
    match m
    case Reads(n) => n == 0 || s.output.None? || s.append
    case Writes(n) => n == 0 || s.append || s.input.None?
    case Seeks(_) => true
    case SetsAppend(a) => s.output.None? || a == s.append
  }

  lemma {:induction false} AdvanceMoves(p: u64, n: u32)
    ensures Advance(p, n) == p <==> n == 0
  {
    if p + n >= TWO_64 {
      assert (p + n) % TWO_64 == p + n - TWO_64;
    }
  }

  /** From streams in step, a call leaves them in step exactly when it is safe, even where a
      position wraps around. */
  lemma {:induction false} StaysInSyncIff(s: FileState, m: Move)
    requires InSync(s)
    ensures InSync(Step(s, m)) <==> Safe(s, m)
  {
    match m
    case Reads(n) => AdvanceMoves(s.position, n);
    case Writes(n) => AdvanceMoves(s.position, n);
    case Seeks(_) =>
    case SetsAppend(_) =>
  }

  // ----- refinement of a file with one cursor -----

  datatype Op =
    | Read(count: u32)
    | Write(bytes: seq<byte>)
    | Seek(position: u64)
    | SetAppend(append: bool)

  type SmallOp = op: Op | op.Write? ==> |op.bytes| < TWO_32 witness Read(0)

  /** The bytes a host read of `n` bytes at `p` returns: no more than the file has. */
  function BytesAt(content: seq<byte>, p: nat, n: nat): (got: seq<byte>)
    ensures |got| <= n
  {
    if p >= |content| then [] else content[p..Min(|content|, p + n)]
  }

  /** A host write at `p` replaces bytes, and fills a gap past the end with zeros. */
  function Overwrite(content: seq<byte>, p: nat, bytes: seq<byte>): seq<byte>
  {
    if bytes == [] then content
    else
      var padded := if p > |content| then content + seq(p - |content|, _ => 0) else content;
      padded[..p] + bytes + if p + |bytes| < |padded| then padded[p + |bytes|..] else []
  }

  /** A read returns the bytes from its position on, and stops early only at the end of the file. */
  lemma {:induction false} ReadIsOfContent(content: seq<byte>, p: nat, n: nat)
    ensures var got := BytesAt(content, p, n);
            && (forall i :: 0 <= i < |got| ==> p + i < |content| && got[i] == content[p + i])
            && (|got| == n || (|got| < n && p + |got| >= |content|))
  {
  }

  /** A write changes just the bytes it covers; what it leaves out past the old end reads as zero. */
  lemma {:induction false} WriteIsInPlace(content: seq<byte>, p: nat, bytes: seq<byte>, i: nat)
    ensures var after := Overwrite(content, p, bytes);
            && |after| == (if bytes != [] && p + |bytes| > |content| then p + |bytes| else |content|)
            && (i < |after| ==>
                  after[i] == if p <= i < p + |bytes| then bytes[i - p] else if i < |content| then content[i] else 0)
  {
  }

  function Put(content: seq<byte>, target: Output, bytes: seq<byte>): seq<byte>
  {
    match target
    case At(p) => Overwrite(content, p, bytes)
    case End => content + bytes
  }

  /** The move an operation makes; a read moves as many bytes as the file yields. */
  function MoveOf(s: System, op: SmallOp): Move
  {
    match op
    case Read(n) => Reads(|BytesAt(s.content, ReadPosition(s.file), n)|)
    case Write(bytes) => Writes(|bytes|)
    case Seek(p) => Seeks(p)
    case SetAppend(a) => SetsAppend(a)
  }

  datatype System = System(content: seq<byte>, file: FileState)

  /** The adapter and the host together: the new state, and the bytes a read returned. */
  function SystemStep(s: System, op: SmallOp): (System, seq<byte>)
  {
    var file := Step(s.file, MoveOf(s, op));
    match op
    case Read(n) => (System(s.content, file), BytesAt(s.content, ReadPosition(s.file), n))
    case Write(bytes) => (System(Put(s.content, WriteTarget(s.file), bytes), file), [])
    case _ => (System(s.content, file), [])
  }

  /** A file with one cursor, where an appending write leaves the cursor alone. */
  datatype Simple = Simple(content: seq<byte>, cursor: u64, append: bool)

  function SimpleStep(s: Simple, op: SmallOp): (Simple, seq<byte>)
  {
    match op
    case Read(n) =>
      var got := BytesAt(s.content, s.cursor, n);
      (s.(cursor := (s.cursor + |got|) % TWO_64), got)
    case Write(bytes) =>
      if s.append then (s.(content := s.content + bytes), [])
      else (s.(content := Overwrite(s.content, s.cursor, bytes), cursor := (s.cursor + |bytes|) % TWO_64), [])
    case Seek(p) => (s.(cursor := p), [])
    case SetAppend(a) => (s.(append := a), [])
  }

  function RunSystem(s: System, ops: seq<SmallOp>): (System, seq<seq<byte>>)
    decreases |ops|
  {
    if ops == [] then (s, [])
    else
      var (s', out) := SystemStep(s, ops[0]);
      var (s'', outs) := RunSystem(s', ops[1..]);
      (s'', [out] + outs)
  }

  function RunSimple(s: Simple, ops: seq<SmallOp>): (Simple, seq<seq<byte>>)
    decreases |ops|
  {
    if ops == [] then (s, [])
    else
      var (s', out) := SimpleStep(s, ops[0]);
      var (s'', outs) := RunSimple(s', ops[1..]);
      (s'', [out] + outs)
  }

  /** Every operation of the run is safe where it happens; a read counts with the bytes it moved. */
  predicate SafeRun(s: System, ops: seq<SmallOp>)
    decreases |ops|
  {
    ops == [] || (Safe(s.file, MoveOf(s, ops[0])) && SafeRun(SystemStep(s, ops[0]).0, ops[1..]))
  }

  function Abstract(s: System): Simple { Simple(s.content, s.file.position, s.file.append) }

  /** One safe operation does to the one-cursor file what it does to the adapter and its streams. */
  lemma {:induction false} StepRefines(s: System, op: SmallOp)
    requires InSync(s.file) && Safe(s.file, MoveOf(s, op))
    ensures InSync(SystemStep(s, op).0.file)
    ensures SimpleStep(Abstract(s), op) == (Abstract(SystemStep(s, op).0), SystemStep(s, op).1)
  {
    StaysInSyncIff(s.file, MoveOf(s, op));
  }

  /** Over a whole safe run the reads return the same bytes, the file ends up the same, and the
      recorded position, which `fd_tell` reports, is the cursor. */
  lemma {:induction false} RunRefines(s: System, ops: seq<SmallOp>)
    requires InSync(s.file) && SafeRun(s, ops)
    ensures InSync(RunSystem(s, ops).0.file)
    ensures RunSimple(Abstract(s), ops) == (Abstract(RunSystem(s, ops).0), RunSystem(s, ops).1)
    decreases |ops|
  {
    if ops != [] {
      StepRefines(s, ops[0]);
      RunRefines(SystemStep(s, ops[0]).0, ops[1..]);
    }
  }

  /** Without a seek in between the two streams drift apart: after one byte read and one written, a
      second read returns the written byte again instead of the one after it. */
  lemma {:induction false} MixedRunDiffers()
    ensures var s, ops := System([1, 2, 3], FileState(0, None, None, false)), [Read(1), Write([9]), Read(1)];
            && InSync(s.file) && !SafeRun(s, ops)
            && RunSystem(s, ops).1 == [[1], [], [9]]
            && RunSimple(Abstract(s), ops).1 == [[1], [], [3]]
  {
    var s0 := System([1, 2, 3], FileState(0, None, None, false));
    var s1 := System([1, 2, 3], FileState(1, Some(1), None, false));
    var s2 := System([1, 9, 3], FileState(2, Some(1), Some(At(2)), false));
    var ops: seq<SmallOp> := [Read(1), Write([9]), Read(1)];
    assert BytesAt(s0.content, 0, 1) == [1] && BytesAt(s2.content, 1, 1) == [9] && BytesAt(s2.content, 2, 1) == [3];
    assert Overwrite(s1.content, 1, [9]) == s2.content;
    assert SystemStep(s0, Read(1)) == (s1, [1]);
    assert SystemStep(s1, Write([9])) == (s2, []);
    assert SystemStep(s2, Read(1)).1 == [9];
    assert ops[1..] == [Write([9]), Read(1)] && ops[1..][1..] == [Read(1)] && ops[1..][1..][1..] == [];
    var t0, t1, t2 := Simple([1, 2, 3], 0, false), Simple([1, 2, 3], 1, false), Simple([1, 9, 3], 2, false);
    assert SimpleStep(t0, Read(1)) == (t1, [1]);
    assert SimpleStep(t1, Write([9])) == (t2, []);
    assert SimpleStep(t2, Read(1)).1 == [3];
  }
}
