/** Command-line arguments and environment variables, laid out in the guest's memory by the adapter
    and by the host's own preview 1. */
module Args {
  import opened Wrappers
  import opened Bytes
  import opened Wasi

  type Str = seq<byte>

  datatype Var = Var(key: Str, value: Str)

  const EQUALS: byte := '=' as int
  const NUL: byte := 0
  const POINTER_SIZE: nat := 4

  // ----- what belongs in memory -----

  function Line(v: Var): Str { v.key + [EQUALS] + v.value }

  function Lines(vars: seq<Var>): (lines: seq<Str>)
    ensures |lines| == |vars| && forall i :: 0 <= i < |vars| ==> lines[i] == Line(vars[i])
  {
    seq(|vars|, i requires 0 <= i < |vars| => Line(vars[i]))
  }

  /** All lines, each with a NUL behind it. */
  function Text(lines: seq<Str>): Str
  {
    if lines == [] then [] else Text(lines[..|lines| - 1]) + (lines[|lines| - 1] + [NUL])
  }

  /** Where each line starts, when the text is at `buf`. */
  function Pointers(lines: seq<Str>, buf: nat): (s: seq<byte>)
    ensures |s| == POINTER_SIZE * |lines|
  {
    if lines == [] then [] else
    var before := lines[..|lines| - 1];
    Pointers(before, buf) + LittleEndian(POINTER_SIZE, buf + |Text(before)|)
  }

  /** `m` with `s` written at `at`. */
  function Put(m: seq<byte>, at: nat, s: seq<byte>): (r: seq<byte>)
    requires at + |s| <= |m|
    ensures |r| == |m|
  {
    m[..at] + s + m[at + |s|..]
  }

  /** Both regions lie in memory. */
  predicate InMemory(size: nat, lines: seq<Str>, argv: nat, buf: nat)
  {
    argv + POINTER_SIZE * |lines| <= size && buf + |Text(lines)| <= size
  }

  predicate Apart(lines: seq<Str>, argv: nat, buf: nat)
  {
    argv + POINTER_SIZE * |lines| <= buf || buf + |Text(lines)| <= argv
  }

  /** `m` with the pointers at `argv` and the text at `buf`. */
  function Laid(m: seq<byte>, lines: seq<Str>, argv: nat, buf: nat): (r: seq<byte>)
    requires InMemory(|m|, lines, argv, buf)
    ensures |r| == |m|
  {
    Put(Put(m, argv, Pointers(lines, buf)), buf, Text(lines))
  }

  /** `m` once every line and its pointer have been written, one line after the other, each line before
      its pointer or behind it. Where the regions overlap, the later write stays. */
  function Written(m: seq<byte>, lines: seq<Str>, argv: nat, buf: nat, lineFirst: bool): (r: seq<byte>)
    requires lines == [] || InMemory(|m|, lines, argv, buf)
    ensures |r| == |m|
  {
    if lines == [] then m else
    var i := |lines| - 1;
    var done := Written(m, lines[..i], argv, buf, lineFirst);
    WriteOne(done, lines[i], argv + POINTER_SIZE * i, buf + |Text(lines[..i])|, lineFirst)
  }

  /** One line at `bt` and its pointer at `at`. */
  function WriteOne(m: seq<byte>, line: Str, at: nat, bt: nat, lineFirst: bool): (r: seq<byte>)
    requires at + POINTER_SIZE <= |m| && bt + |line| + 1 <= |m|
    ensures |r| == |m|
  {
    var p := LittleEndian(POINTER_SIZE, bt);
    if lineFirst then Put(Put(m, bt, line + [NUL]), at, p) else Put(Put(m, at, p), bt, line + [NUL])
  }

  // ----- writes -----

  lemma {:induction false} PutAt(m: seq<byte>, at: nat, s: seq<byte>, k: nat)
    requires at + |s| <= |m| && k < |m|
    ensures Put(m, at, s)[k] == if at <= k < at + |s| then s[k - at] else m[k]
  {
  }

  lemma {:induction false} PutAppends(m: seq<byte>, at: nat, s: seq<byte>, t: seq<byte>)
    requires at + |s| + |t| <= |m|
    ensures Put(Put(m, at, s), at + |s|, t) == Put(m, at, s + t)
  {
  }

  lemma {:induction false} PutsCommute(m: seq<byte>, at: nat, s: seq<byte>, bt: nat, t: seq<byte>)
    requires at + |s| <= bt || bt + |t| <= at
    requires at + |s| <= |m| && bt + |t| <= |m|
    ensures Put(Put(m, at, s), bt, t) == Put(Put(m, bt, t), at, s)
  {
    hide Put;
    var l, r := Put(Put(m, at, s), bt, t), Put(Put(m, bt, t), at, s);
    forall k | 0 <= k < |m| ensures l[k] == r[k] {
      PutAt(m, at, s, k);
      PutAt(m, bt, t, k);
      PutAt(Put(m, at, s), bt, t, k);
      PutAt(Put(m, bt, t), at, s, k);
    }
  }

  lemma {:induction false} TextGrows(lines: seq<Str>, i: nat)
    requires i < |lines|
    ensures Text(lines[..i + 1]) == Text(lines[..i]) + (lines[i] + [NUL])
    ensures |Text(lines[..i + 1])| <= |Text(lines)|
    decreases |lines|
  {
    assert lines[..i + 1][..i] == lines[..i];
    if i + 1 < |lines| {
      var before := lines[..|lines| - 1];
      TextGrows(before, i);
      assert before[..i + 1] == lines[..i + 1];
    } else {
      assert lines[..i + 1] == lines;
    }
  }

  lemma {:induction false} PointersGrow(lines: seq<Str>, i: nat, buf: nat)
    requires i < |lines|
    ensures Pointers(lines[..i + 1], buf)
            == Pointers(lines[..i], buf) + LittleEndian(POINTER_SIZE, buf + |Text(lines[..i])|)
  {
    assert lines[..i + 1][..i] == lines[..i];
  }

  /** One more pointer and one more line behind a layout give the next layout, in either order. */
  lemma {:induction false} LaidGrows(m: seq<byte>, lines: seq<Str>, i: nat, argv: nat, buf: nat)
    requires i < |lines| && InMemory(|m|, lines, argv, buf) && Apart(lines, argv, buf)
    ensures InMemory(|m|, lines[..i], argv, buf) && InMemory(|m|, lines[..i + 1], argv, buf)
    ensures var at, bt := argv + POINTER_SIZE * i, buf + |Text(lines[..i])|;
            var p, line := LittleEndian(POINTER_SIZE, bt), lines[i] + [NUL];
            && bt + |line| <= |m|
            && Put(Put(Laid(m, lines[..i], argv, buf), at, p), bt, line) == Laid(m, lines[..i + 1], argv, buf)
            && Put(Put(Laid(m, lines[..i], argv, buf), bt, line), at, p) == Laid(m, lines[..i + 1], argv, buf)
  {
    hide Put, Text, Pointers;
    TextGrows(lines, i);
    PointersGrow(lines, i, buf);
    var at, bt := argv + POINTER_SIZE * i, buf + |Text(lines[..i])|;
    var p, line := LittleEndian(POINTER_SIZE, bt), lines[i] + [NUL];
    var P, T := Pointers(lines[..i], buf), Text(lines[..i]);
    var m1 := Put(m, argv, P);
    PutAppends(m1, buf, T, line);
    PutsCommute(m1, buf, T + line, at, p);
    PutAppends(m, argv, P, p);
    PutsCommute(Put(m1, buf, T), bt, line, at, p);
  }

  /** In memory that holds the lines it holds every part of them. */
  lemma {:induction false} WrittenGrows(m: seq<byte>, lines: seq<Str>, i: nat, argv: nat, buf: nat, lineFirst: bool)
    requires i < |lines| && InMemory(|m|, lines[..i + 1], argv, buf)
    ensures lines[..i] == [] || InMemory(|m|, lines[..i], argv, buf)
    ensures var at, bt := argv + POINTER_SIZE * i, buf + |Text(lines[..i])|;
            && at + POINTER_SIZE <= |m| && bt + |lines[i]| + 1 <= |m|
            && Written(m, lines[..i + 1], argv, buf, lineFirst)
               == WriteOne(Written(m, lines[..i], argv, buf, lineFirst), lines[i], at, bt, lineFirst)
  {
    hide WriteOne;
    TextGrows(lines, i);
    assert lines[..i + 1][..i] == lines[..i];
  }

  /** In regions that are apart both orders write the layout. */
  lemma {:induction false} WrittenIsLaid(m: seq<byte>, lines: seq<Str>, argv: nat, buf: nat, lineFirst: bool, i: nat)
    requires InMemory(|m|, lines, argv, buf) && Apart(lines, argv, buf) && i <= |lines|
    ensures InMemory(|m|, lines[..i], argv, buf)
    ensures Written(m, lines[..i], argv, buf, lineFirst) == Laid(m, lines[..i], argv, buf)
  {
    hide Text, Pointers, Put, Laid, Written;
    if i == 0 {
      Nothing(m, argv, buf, lines);
      NothingWritten(m, lines, argv, buf, lineFirst);
    } else {
      LaidGrows(m, lines, i - 1, argv, buf);
      WrittenGrows(m, lines, i - 1, argv, buf, lineFirst);
      WrittenIsLaid(m, lines, argv, buf, lineFirst, i - 1);
    }
  }

  /** In regions that overlap they need not: what is written last stays. */
  lemma {:induction false} OverlapTellsOrders()
    ensures var m, lines := [0, 0, 0, 0], [[65]];
            && InMemory(|m|, lines, 0, 0)
            && Written(m, lines, 0, 0, true) == [0, 0, 0, 0] && Written(m, lines, 0, 0, false) == [65, 0, 0, 0]
  {
    var m: seq<byte>, line: Str := [0, 0, 0, 0], [65];
    assert [line][..0] == [] && Text([]) == [] && Text([line]) == line + [NUL];
    assert LittleEndian(POINTER_SIZE, 0) == m by {
      assert LittleEndian(2, 0) == [0, 0];
    }
    assert Put(m, 0, m) == m && Put(m, 0, line + [NUL]) == [65, 0, 0, 0];
    assert Put([65, 0, 0, 0], 0, m) == m;
    assert WriteOne(m, line, 0, 0, true) == m && WriteOne(m, line, 0, 0, false) == [65, 0, 0, 0];
  }

  /** Bytes outside both regions. */
  ghost predicate Spared(m: seq<byte>, now: seq<byte>, argv: nat, pointers: nat, buf: nat, text: nat)
  {
    && |now| == |m|
    && forall k {:trigger now[k]} :: 0 <= k < |m| && !(argv <= k < argv + pointers) && !(buf <= k < buf + text) ==>
         now[k] == m[k]
  }

  lemma {:induction false} PutSpares(m: seq<byte>, now: seq<byte>, argv: nat, pointers: nat, buf: nat, text: nat,
                                     at: nat, s: seq<byte>)
    requires Spared(m, now, argv, pointers, buf, text) && at + |s| <= |m|
    requires (argv <= at && at + |s| <= argv + pointers) || (buf <= at && at + |s| <= buf + text)
    ensures Spared(m, Put(now, at, s), argv, pointers, buf, text)
  {
    hide Put;
    forall k | 0 <= k < |m| && !(argv <= k < argv + pointers) && !(buf <= k < buf + text)
      ensures Put(now, at, s)[k] == m[k]
    {
      PutAt(now, at, s, k);
    }
  }

  method Write(mem: array<byte>, at: nat, s: seq<byte>)
    requires at + |s| <= mem.Length
    modifies mem
    ensures mem[..] == Put(old(mem[..]), at, s)
  {
    CopyInto(mem, at, s);
    assert mem[..] == mem[..at + |s|] + mem[at + |s|..];
    assert old(mem[..at]) == old(mem[..])[..at] && old(mem[at + |s|..]) == old(mem[..])[at + |s|..];
  }

  // ----- the adapter -----

  lemma {:induction false} SumWraps(a: nat, b: nat)
    ensures (a % TWO_32 + b) % TWO_32 == (a + b) % TWO_32
  {
    assert a + b == a % TWO_32 + b + (a / TWO_32) * TWO_32;
  }

  /** `args_sizes_get`; the sum wraps at the width of a wasm `usize`. */
  method ArgsSizes(args: seq<Str>) returns (argc: nat, size: u32)
    ensures argc == |args| && size == |Text(args)| % TWO_32
  {
    argc, size := |args|, 0;
    for i := 0 to |args|
      invariant size == |Text(args[..i])| % TWO_32
    {
      TextGrows(args, i);
      SumWraps(|Text(args[..i])|, |args[i]| + 1);
      size := (size + |args[i]| + 1) % TWO_32;
    }
    assert args[..|args|] == args;
  }

  /** `args_get`: each argument, its NUL, then its pointer. */
  method ArgsGet(mem: array<byte>, args: seq<Str>, argv: nat, buf: nat)
    requires InMemory(mem.Length, args, argv, buf)
    modifies mem
    ensures mem[..] == Written(old(mem[..]), args, argv, buf, true)
  {
    EmptyText();
    hide Put, Text, Written;
    ghost var m := mem[..];
    NothingWritten(m, args, argv, buf, true);
    var at, bt := argv, buf;
    for i := 0 to |args|
      invariant at == argv + POINTER_SIZE * i && bt == buf + |Text(args[..i])|
      invariant args[..i] == [] || InMemory(|m|, args[..i], argv, buf)
      invariant mem[..] == Written(m, args[..i], argv, buf, true)
    {
      TextGrows(args, i);
      WrittenGrows(m, args, i, argv, buf, true);
      var arg := args[i];
      PutAppends(mem[..], bt, arg, [NUL]);
      Write(mem, bt, arg);
      Write(mem, bt + |arg|, [NUL]);
      Write(mem, at, LittleEndian(POINTER_SIZE, bt));
      at, bt := at + POINTER_SIZE, bt + |arg| + 1;
    }
    assert args[..|args|] == args;
  }

  lemma {:induction false} Nothing(m: seq<byte>, argv: nat, buf: nat, lines: seq<Str>)
    requires InMemory(|m|, lines, argv, buf)
    ensures Text(lines[..0]) == [] && InMemory(|m|, lines[..0], argv, buf) && Laid(m, lines[..0], argv, buf) == m
  {
  }

  lemma {:induction false} NothingWritten(m: seq<byte>, lines: seq<Str>, argv: nat, buf: nat, lineFirst: bool)
    ensures lines[..0] == [] && Written(m, lines[..0], argv, buf, lineFirst) == m
  {
  }

  /** `environ_sizes_get`, which reports nothing before the adapter's state is there. */
  method EnvironSizes(vars: seq<Var>, haveState: bool) returns (count: nat, size: u32)
    ensures haveState ==> count == |vars| && size == |Text(Lines(vars))| % TWO_32
    ensures !haveState ==> count == 0 && size == 0
  {
    EmptyText();
    hide Text, Lines;
    count, size := 0, 0;
    if haveState {
      count := |vars|;
      ghost var lines := Lines(vars);
      assert lines[..0] == [];
      for i := 0 to |vars|
        invariant size == |Text(lines[..i])| % TWO_32
      {
        TextGrows(lines, i);
        assert |lines[i]| + 1 == |vars[i].key| + |vars[i].value| + 2;
        SumWraps(|Text(lines[..i])|, |lines[i]| + 1);
        size := (size + |vars[i].key| + |vars[i].value| + 2) % TWO_32;
      }
      assert lines[..|vars|] == lines;
    }
  }

  /** `environ_get`: each variable's pointer, then key, `=`, value and NUL. */
  method EnvironGet(mem: array<byte>, vars: seq<Var>, environ: nat, buf: nat)
    requires InMemory(mem.Length, Lines(vars), environ, buf)
    modifies mem
    ensures mem[..] == Written(old(mem[..]), Lines(vars), environ, buf, false)
  {
    EmptyText();
    hide Put, Text, Written, Lines;
    ghost var m, lines := mem[..], Lines(vars);
    NothingWritten(m, lines, environ, buf, false);
    var offsets, buffer := environ, buf;
    for i := 0 to |vars|
      invariant offsets == environ + POINTER_SIZE * i && buffer == buf + |Text(lines[..i])|
      invariant lines[..i] == [] || InMemory(|m|, lines[..i], environ, buf)
      invariant mem[..] == Written(m, lines[..i], environ, buf, false)
    {
      TextGrows(lines, i);
      WrittenGrows(m, lines, i, environ, buf, false);
      Write(mem, offsets, LittleEndian(POINTER_SIZE, buffer));
      offsets := offsets + POINTER_SIZE;
      ghost var now := mem[..];
      PutVar(now, buffer, vars[i]);
      Write(mem, buffer, vars[i].key);
      buffer := buffer + |vars[i].key|;
      Write(mem, buffer, [EQUALS]);
      buffer := buffer + 1;
      Write(mem, buffer, vars[i].value);
      buffer := buffer + |vars[i].value|;
      Write(mem, buffer, [NUL]);
      buffer := buffer + 1;
    }
    assert lines[..|vars|] == lines;
  }

  /** The four writes of one variable. */
  lemma {:induction false} PutVar(m: seq<byte>, at: nat, v: Var)
    requires at + |Line(v)| + 1 <= |m|
    ensures var eq := at + |v.key|;
            Put(Put(Put(Put(m, at, v.key), eq, [EQUALS]), eq + 1, v.value), eq + 1 + |v.value|, [NUL])
            == Put(m, at, Line(v) + [NUL])
  {
    hide Put;
    PutAppends(m, at, v.key, [EQUALS]);
    PutAppends(m, at, v.key + [EQUALS], v.value);
    PutAppends(m, at, Line(v), [NUL]);
  }

  // ----- the host -----

  /** What the host asks of the two regions: a wasm pointer is four-byte aligned, every byte is in
      memory, and the address behind each region is still a 32-bit address. */
  predicate Fits(size: nat, lines: seq<Str>, argv: nat, buf: nat)
  {
    lines == [] ||
    (&& argv % POINTER_SIZE == 0 && InMemory(size, lines, argv, buf)
     && argv + POINTER_SIZE * |lines| < TWO_32 && buf + |Text(lines)| < TWO_32)
  }

  /** One turn of the fold: the pointer and one line, at addresses that may not be usable. */
  predicate LineFits(size: nat, argv: u32, buf: u32, line: Str)
  {
    && argv % POINTER_SIZE == 0 && argv + POINTER_SIZE <= size && argv + POINTER_SIZE < TWO_32
    && buf + |line| + 1 <= size && buf + |line| + 1 < TWO_32
  }

  /** `GuestPtr::write` of a pointer, and the address behind it. */
  method WritePointer(mem: array<byte>, ptr: u32, value: u32) returns (r: Result<u32, Errno>)
    modifies mem
    ensures Spared(old(mem[..]), mem[..], ptr, POINTER_SIZE, 0, 0)
    ensures r.Success? ==>
              ptr + POINTER_SIZE <= mem.Length && mem[..] == Put(old(mem[..]), ptr, LittleEndian(POINTER_SIZE, value))
    ensures r == if ptr % POINTER_SIZE == 0 && ptr + POINTER_SIZE <= mem.Length && ptr + POINTER_SIZE < TWO_32
                 then Success(ptr + POINTER_SIZE) else Failure(INVAL)
  {
    if ptr % POINTER_SIZE != 0 || ptr + POINTER_SIZE > mem.Length {
      return Failure(INVAL);
    }
    PutSpares(mem[..], mem[..], ptr, POINTER_SIZE, 0, 0, ptr, LittleEndian(POINTER_SIZE, value));
    Write(mem, ptr, LittleEndian(POINTER_SIZE, value));
    return if ptr + POINTER_SIZE < TWO_32 then Success(ptr + POINTER_SIZE) else Failure(INVAL);
  }

  /** `write_bytes`: the address behind what was written. */
  method WriteBytes(mem: array<byte>, ptr: u32, s: seq<byte>) returns (r: Result<u32, Errno>)
    modifies mem
    ensures Spared(old(mem[..]), mem[..], 0, 0, ptr, |s|)
    ensures r.Success? ==> ptr + |s| <= mem.Length && mem[..] == Put(old(mem[..]), ptr, s)
    ensures r == if ptr + |s| <= mem.Length && ptr + |s| < TWO_32 then Success(ptr + |s|) else Failure(INVAL)
  {
    if |s| >= TWO_32 || ptr + |s| > mem.Length {
      return Failure(INVAL);
    }
    PutSpares(mem[..], mem[..], 0, 0, ptr, |s|, ptr, s);
    Write(mem, ptr, s);
    return if ptr + |s| < TWO_32 then Success(ptr + |s|) else Failure(INVAL);
  }

  /** `write_byte`: the address behind it. */
  method WriteByte(mem: array<byte>, ptr: u32, b: byte) returns (r: Result<u32, Errno>)
    modifies mem
    ensures Spared(old(mem[..]), mem[..], 0, 0, ptr, 1)
    ensures r.Success? ==> ptr + 1 <= mem.Length && mem[..] == Put(old(mem[..]), ptr, [b])
    ensures r == if ptr + 1 <= mem.Length && ptr + 1 < TWO_32 then Success(ptr + 1) else Failure(INVAL)
  {
    if ptr + 1 > mem.Length {
      return Failure(INVAL);
    }
    PutSpares(mem[..], mem[..], 0, 0, ptr, 1, ptr, [b]);
    Write(mem, ptr, [b]);
    return if ptr + 1 < TWO_32 then Success(ptr + 1) else Failure(INVAL);
  }

  lemma {:induction false} SparedTwice(m: seq<byte>, m1: seq<byte>, m2: seq<byte>, argv: nat, pointers: nat, buf: nat,
                                       text: nat, at: nat, ps: nat, bt: nat, ts: nat)
    requires Spared(m, m1, argv, pointers, buf, text) && Spared(m1, m2, at, ps, bt, ts)
    requires ps == 0 || (argv <= at && at + ps <= argv + pointers)
    requires ts == 0 || (buf <= bt && bt + ts <= buf + text)
    ensures Spared(m, m2, argv, pointers, buf, text)
  {
    forall k | 0 <= k < |m| && !(argv <= k < argv + pointers) && !(buf <= k < buf + text) ensures m2[k] == m[k] {
      assert m1[k] == m[k];
    }
  }

  /** One turn of `args_get`. */
  method FoldArg(mem: array<byte>, argv: u32, buf: u32, arg: Str) returns (r: Result<(u32, u32), Errno>)
    modifies mem
    ensures Spared(old(mem[..]), mem[..], argv, POINTER_SIZE, buf, |arg| + 1)
    ensures r == if LineFits(mem.Length, argv, buf, arg)
                 then Success((argv + POINTER_SIZE, buf + |arg| + 1)) else Failure(INVAL)
    ensures r.Success? ==> mem[..] == Put(Put(old(mem[..]), argv, LittleEndian(POINTER_SIZE, buf)), buf, arg + [NUL])
  {
    hide Put, Spared;
    ghost var m := mem[..];
    var at := WritePointer(mem, argv, buf);
    ghost var m1 := mem[..];
    Widen(m, m1, argv, buf, |arg| + 1);
    if at.Failure? {
      return Failure(INVAL);
    }
    var bt := WriteBytes(mem, buf, arg);
    SparedTwice(m, m1, mem[..], argv, POINTER_SIZE, buf, |arg| + 1, 0, 0, buf, |arg|);
    if bt.Failure? {
      return Failure(INVAL);
    }
    ghost var m2 := mem[..];
    bt := WriteByte(mem, bt.value, NUL);
    SparedTwice(m, m2, mem[..], argv, POINTER_SIZE, buf, |arg| + 1, 0, 0, buf + |arg|, 1);
    if bt.Failure? {
      return Failure(INVAL);
    }
    PutAppends(m1, buf, arg, [NUL]);
    return Success((at.value, bt.value));
  }

  lemma {:induction false} Widen(m: seq<byte>, now: seq<byte>, argv: nat, buf: nat, text: nat)
    requires Spared(m, now, argv, POINTER_SIZE, 0, 0)
    ensures Spared(m, now, argv, POINTER_SIZE, buf, text)
  {
  }

  /** One turn of `environ_get`. */
  method FoldVar(mem: array<byte>, environ: u32, buf: u32, v: Var) returns (r: Result<(u32, u32), Errno>)
    modifies mem
    ensures Spared(old(mem[..]), mem[..], environ, POINTER_SIZE, buf, |Line(v)| + 1)
    ensures r == if LineFits(mem.Length, environ, buf, Line(v))
                 then Success((environ + POINTER_SIZE, buf + |Line(v)| + 1)) else Failure(INVAL)
    ensures r.Success? ==>
              mem[..] == Put(Put(old(mem[..]), environ, LittleEndian(POINTER_SIZE, buf)), buf, Line(v) + [NUL])
  {
    hide Put, Spared;
    ghost var m, text := mem[..], |Line(v)| + 1;
    var at := WritePointer(mem, environ, buf);
    ghost var m1 := mem[..];
    Widen(m, m1, environ, buf, text);
    if at.Failure? {
      return Failure(INVAL);
    }
    var bt := WriteBytes(mem, buf, v.key);
    ghost var m2 := mem[..];
    SparedTwice(m, m1, m2, environ, POINTER_SIZE, buf, text, 0, 0, buf, |v.key|);
    if bt.Failure? {
      return Failure(INVAL);
    }
    bt := WriteByte(mem, bt.value, EQUALS);
    ghost var m3 := mem[..];
    SparedTwice(m, m2, m3, environ, POINTER_SIZE, buf, text, 0, 0, buf + |v.key|, 1);
    if bt.Failure? {
      return Failure(INVAL);
    }
    bt := WriteBytes(mem, bt.value, v.value);
    ghost var m4 := mem[..];
    SparedTwice(m, m3, m4, environ, POINTER_SIZE, buf, text, 0, 0, buf + |v.key| + 1, |v.value|);
    if bt.Failure? {
      return Failure(INVAL);
    }
    bt := WriteByte(mem, bt.value, NUL);
    SparedTwice(m, m4, mem[..], environ, POINTER_SIZE, buf, text, 0, 0, buf + |Line(v)|, 1);
    if bt.Failure? {
      return Failure(INVAL);
    }
    PutVar(m1, buf, v);
    return Success((at.value, bt.value));
  }

  /** One more line fits behind those that did exactly when the longer layout fits. */
  lemma {:induction false} FitsGrows(size: nat, lines: seq<Str>, i: nat, argv: u32, buf: u32)
    requires i < |lines| && Fits(size, lines[..i], argv, buf)
    ensures Text(lines[..0]) == []
    ensures var at, bt := argv + POINTER_SIZE * i, buf + |Text(lines[..i])|;
            && at < TWO_32 && bt < TWO_32
            && (LineFits(size, at, bt, lines[i]) <==> Fits(size, lines[..i + 1], argv, buf))
    ensures Fits(size, lines, argv, buf) ==> Fits(size, lines[..i + 1], argv, buf)
  {
    TextGrows(lines, i);
    assert lines[..i + 1] != [];
    if i == 0 {
      assert lines[..i] == [];
    }
  }

  /** The host's `args_get`. */
  method HostArgsGet(mem: array<byte>, args: seq<Str>, argv: u32, buf: u32) returns (r: Result<(), Errno>)
    modifies mem
    ensures r == if Fits(mem.Length, args, argv, buf) then Success(()) else Failure(INVAL)
    ensures r.Success? ==> mem[..] == Written(old(mem[..]), args, argv, buf, false)
    ensures Spared(old(mem[..]), mem[..], argv, POINTER_SIZE * |args|, buf, |Text(args)|)
  {
    EmptyText();
    hide Put, Text, Written, Spared;
    ghost var m := mem[..];
    ghost var size := |m|;
    Same(m, argv, POINTER_SIZE * |args|, buf, |Text(args)|);
    NothingWritten(m, args, argv, buf, false);
    var at, bt := argv, buf;
    for i := 0 to |args|
      invariant Fits(size, args[..i], argv, buf) && mem.Length == size
      invariant at == argv + POINTER_SIZE * i && bt == buf + |Text(args[..i])|
      invariant mem[..] == Written(m, args[..i], argv, buf, false)
      invariant Spared(m, mem[..], argv, POINTER_SIZE * |args|, buf, |Text(args)|)
    {
      FitsGrows(size, args, i, argv, buf);
      TextGrows(args, i);
      ghost var now := mem[..];
      var next := FoldArg(mem, at, bt, args[i]);
      SparedTwice(m, now, mem[..], argv, POINTER_SIZE * |args|, buf, |Text(args)|, at, POINTER_SIZE, bt, |args[i]| + 1);
      if next.Failure? {
        return Failure(INVAL);
      }
      WrittenGrows(m, args, i, argv, buf, false);
      at, bt := next.value.0, next.value.1;
    }
    assert args[..|args|] == args;
    return Success(());
  }

  /** The host's `environ_get`. */
  method HostEnvironGet(mem: array<byte>, vars: seq<Var>, environ: u32, buf: u32) returns (r: Result<(), Errno>)
    modifies mem
    ensures r == if Fits(mem.Length, Lines(vars), environ, buf) then Success(()) else Failure(INVAL)
    ensures r.Success? ==> mem[..] == Written(old(mem[..]), Lines(vars), environ, buf, false)
    ensures Spared(old(mem[..]), mem[..], environ, POINTER_SIZE * |vars|, buf, |Text(Lines(vars))|)
  {
    EmptyText();
    hide Put, Text, Written, Spared, Lines;
    ghost var lines := Lines(vars);
    ghost var m := mem[..];
    ghost var size := |m|;
    Same(m, environ, POINTER_SIZE * |lines|, buf, |Text(lines)|);
    NothingWritten(m, lines, environ, buf, false);
    var at, bt := environ, buf;
    for i := 0 to |vars|
      invariant Fits(size, lines[..i], environ, buf) && mem.Length == size
      invariant at == environ + POINTER_SIZE * i && bt == buf + |Text(lines[..i])|
      invariant mem[..] == Written(m, lines[..i], environ, buf, false)
      invariant Spared(m, mem[..], environ, POINTER_SIZE * |lines|, buf, |Text(lines)|)
    {
      FitsGrows(size, lines, i, environ, buf);
      TextGrows(lines, i);
      ghost var now := mem[..];
      var next := FoldVar(mem, at, bt, vars[i]);
      SparedTwice(m, now, mem[..], environ, POINTER_SIZE * |lines|, buf, |Text(lines)|, at, POINTER_SIZE, bt,
        |lines[i]| + 1);
      if next.Failure? {
        return Failure(INVAL);
      }
      WrittenGrows(m, lines, i, environ, buf, false);
      at, bt := next.value.0, next.value.1;
    }
    assert lines[..|lines|] == lines;
    return Success(());
  }

  lemma {:induction false} EmptyText()
    ensures Text([]) == []
  {
  }

  lemma {:induction false} Same(m: seq<byte>, argv: nat, pointers: nat, buf: nat, text: nat)
    ensures Spared(m, m, argv, pointers, buf, text)
  {
  }

  /** The host's `args_sizes_get`. */
  method HostArgsSizes(args: seq<Str>) returns (r: Result<(u32, u32), Errno>)
    ensures r == if |args| < TWO_32 && |Text(args)| < TWO_32 then Success((|args|, |Text(args)|)) else Failure(OVERFLOW)
  {
    if |args| >= TWO_32 {
      return Failure(OVERFLOW);
    }
    var size: nat := 0;
    for i := 0 to |args|
      invariant size == |Text(args[..i])|
    {
      TextGrows(args, i);
      size := size + |args[i]| + 1;
    }
    assert args[..|args|] == args;
    return if size < TWO_32 then Success((|args|, size)) else Failure(OVERFLOW);
  }

  /** The host's `environ_sizes_get`. */
  method HostEnvironSizes(vars: seq<Var>) returns (r: Result<(u32, u32), Errno>)
    ensures r == if |vars| < TWO_32 && |Text(Lines(vars))| < TWO_32 then Success((|vars|, |Text(Lines(vars))|))
                 else Failure(OVERFLOW)
  {
    if |vars| >= TWO_32 {
      return Failure(OVERFLOW);
    }
    var size: nat := 0;
    for i := 0 to |vars|
      invariant size == |Text(Lines(vars)[..i])|
    {
      TextGrows(Lines(vars), i);
      size := size + |vars[i].key| + 1 + |vars[i].value| + 1;
    }
    assert Lines(vars)[..|vars|] == Lines(vars);
    return if size < TWO_32 then Success((|vars|, size)) else Failure(OVERFLOW);
  }

  // ----- what the guest reads back -----

  /** The pointer number `i` of the table at `argv`. */
  function PointerAt(m: seq<byte>, argv: nat, i: nat): nat
    requires argv + POINTER_SIZE * (i + 1) <= |m|
  {
    FromLittleEndian(m[argv + POINTER_SIZE * i..argv + POINTER_SIZE * (i + 1)])
  }

  /** The C string at the front of `s`: everything before the first NUL. */
  function CString(s: seq<byte>): Str
  {
    if s == [] || s[0] == NUL then [] else [s[0]] + CString(s[1..])
  }

  /** The text cut at every NUL. */
  function CutAtNul(s: seq<byte>): seq<Str>
    decreases |s|
  {
    if s == [] then [] else
    var line := CString(s);
    CStringIsShort(s);
    [line] + if |line| < |s| then CutAtNul(s[|line| + 1..]) else []
  }

  /** A line cut at its first `=`. */
  function CutAtEquals(s: Str): (v: Option<Var>)
  {
    if s == [] then None
    else if s[0] == EQUALS then Some(Var([], s[1..]))
    else match CutAtEquals(s[1..])
      case None => None
      case Some(v) => Some(Var([s[0]] + v.key, v.value))
  }

  lemma {:induction false} CStringIsShort(s: seq<byte>)
    ensures |CString(s)| <= |s| && NUL !in CString(s)
  {
    if s != [] && s[0] != NUL {
      CStringIsShort(s[1..]);
    }
  }

  lemma {:induction false} CStringStopsAtNul(line: Str, rest: seq<byte>)
    requires NUL !in line
    ensures CString(line + [NUL] + rest) == line
  {
    if line != [] {
      CStringStopsAtNul(line[1..], rest);
      assert (line + [NUL] + rest)[1..] == line[1..] + [NUL] + rest;
    }
  }

  lemma {:induction false} TextSplits(lines: seq<Str>, i: nat)
    requires i <= |lines|
    ensures Text(lines) == Text(lines[..i]) + Text(lines[i..])
  {
    if i == |lines| {
      assert lines[..i] == lines;
    } else {
      var before := lines[..|lines| - 1];
      TextSplits(before, i);
      assert before[..i] == lines[..i];
      assert lines[i..][..|lines| - i - 1] == before[i..];
    }
  }

  lemma {:induction false} TextFront(lines: seq<Str>)
    requires lines != []
    ensures Text(lines) == lines[0] + [NUL] + Text(lines[1..])
  {
    TextSplits(lines, 1);
    assert lines[..1][..0] == [];
  }

  /** Cutting the text at its NULs gives the lines back exactly when no line has a NUL of its own. */
  lemma {:induction false} LinesReadBackIff(lines: seq<Str>)
    ensures CutAtNul(Text(lines)) == lines <==> forall i :: 0 <= i < |lines| ==> NUL !in lines[i]
  {
    if forall i :: 0 <= i < |lines| ==> NUL !in lines[i] {
      LinesReadBack(lines);
    } else {
      PiecesHaveNoNul(Text(lines));
    }
  }

  lemma {:induction false} LinesReadBack(lines: seq<Str>)
    requires forall i :: 0 <= i < |lines| ==> NUL !in lines[i]
    ensures CutAtNul(Text(lines)) == lines
  {
    if lines != [] {
      TextFront(lines);
      LinesReadBack(lines[1..]);
      CStringStopsAtNul(lines[0], Text(lines[1..]));
      assert Text(lines)[|lines[0]| + 1..] == Text(lines[1..]);
      assert lines == [lines[0]] + lines[1..];
    }
  }

  lemma {:induction false} PiecesHaveNoNul(s: seq<byte>)
    ensures forall i :: 0 <= i < |CutAtNul(s)| ==> NUL !in CutAtNul(s)[i]
    decreases |s|
  {
    if s != [] {
      CStringIsShort(s);
      if |CString(s)| < |s| {
        PiecesHaveNoNul(s[|CString(s)| + 1..]);
      }
    }
  }

  /** A variable's line reads back as the variable exactly when its key has no `=`. */
  lemma {:induction false} VarReadsBackIff(v: Var)
    ensures CutAtEquals(Line(v)) == Some(v) <==> EQUALS !in v.key
  {
    CutAtFirstEquals(v.key, v.value);
  }

  lemma {:induction false} CutAtFirstEquals(key: Str, value: Str)
    ensures CutAtEquals(key + [EQUALS] + value).Some?
    ensures EQUALS !in CutAtEquals(key + [EQUALS] + value).value.key
    ensures EQUALS !in key ==> CutAtEquals(key + [EQUALS] + value) == Some(Var(key, value))
  {
    if key == [] {
      assert (key + [EQUALS] + value)[1..] == value;
    } else {
      CutAtFirstEquals(key[1..], value);
      assert (key + [EQUALS] + value)[1..] == key[1..] + [EQUALS] + value;
      assert key == [key[0]] + key[1..];
    }
  }

  /** Every pointer of a layout addresses its own line, which reads back as a C string exactly when
      it has no NUL of its own. */
  lemma {:induction false} PointerAddressesLine(m: seq<byte>, lines: seq<Str>, argv: nat, buf: nat, i: nat)
    requires InMemory(|m|, lines, argv, buf) && Apart(lines, argv, buf) && |m| <= TWO_32 && i < |lines|
    ensures var now := Laid(m, lines, argv, buf);
            var p := PointerAt(now, argv, i);
            && p + |lines[i]| + 1 <= |m|
            && now[p..p + |lines[i]| + 1] == lines[i] + [NUL]
            && (CString(now[p..]) == lines[i] <==> NUL !in lines[i])
  {
    hide Put, Text, Pointers, CString;
    var now := Laid(m, lines, argv, buf);
    TextGrows(lines, i);
    var p := buf + |Text(lines[..i])|;
    PointerReadsBack(m, lines, argv, buf, i);
    LineIsThere(m, lines, argv, buf, i);
    var rest := now[p + |lines[i]| + 1..];
    assert now[p..] == lines[i] + [NUL] + rest;
    CStringIsShort(now[p..]);
    if NUL !in lines[i] {
      CStringStopsAtNul(lines[i], rest);
    }
  }

  lemma {:induction false} PointerReadsBack(m: seq<byte>, lines: seq<Str>, argv: nat, buf: nat, i: nat)
    requires InMemory(|m|, lines, argv, buf) && Apart(lines, argv, buf) && |m| <= TWO_32 && i < |lines|
    ensures PointerAt(Laid(m, lines, argv, buf), argv, i) == buf + |Text(lines[..i])|
  {
    hide Put, Text, Pointers, FromLittleEndian;
    TextGrows(lines, i);
    TableSurvives(m, argv, Pointers(lines, buf), buf, Text(lines), POINTER_SIZE * i, POINTER_SIZE);
    PointerOf(lines, buf, i);
    U32RoundTrip(buf + |Text(lines[..i])|);
  }

  lemma {:induction false} TableSurvives(m: seq<byte>, at: nat, s: seq<byte>, bt: nat, t: seq<byte>, from: nat,
                                         len: nat)
    requires at + |s| <= |m| && bt + |t| <= |m| && (at + |s| <= bt || bt + |t| <= at) && from + len <= |s|
    ensures Put(Put(m, at, s), bt, t)[at + from..at + from + len] == s[from..from + len]
  {
    hide Put;
    var now := Put(Put(m, at, s), bt, t);
    forall k | from <= k < from + len ensures now[at + k] == s[k] {
      PutAt(m, at, s, at + k);
      PutAt(Put(m, at, s), bt, t, at + k);
    }
    var l, r := now[at + from..at + from + len], s[from..from + len];
    forall j | 0 <= j < len ensures l[j] == r[j] {
      assert now[at + (from + j)] == s[from + j];
    }
  }

  lemma {:induction false} PointerOf(lines: seq<Str>, buf: nat, i: nat)
    requires i < |lines|
    ensures Pointers(lines, buf)[POINTER_SIZE * i..POINTER_SIZE * i + POINTER_SIZE]
            == LittleEndian(POINTER_SIZE, buf + |Text(lines[..i])|)
  {
    var before := lines[..|lines| - 1];
    if i < |before| {
      PointerOf(before, buf, i);
      assert before[..i] == lines[..i];
      assert Pointers(lines, buf)[POINTER_SIZE * i..POINTER_SIZE * i + POINTER_SIZE]
          == Pointers(before, buf)[POINTER_SIZE * i..POINTER_SIZE * i + POINTER_SIZE];
    } else {
      assert lines[..i] == before;
    }
  }

  lemma {:induction false} LineIsThere(m: seq<byte>, lines: seq<Str>, argv: nat, buf: nat, i: nat)
    requires InMemory(|m|, lines, argv, buf) && i < |lines|
    ensures var p := buf + |Text(lines[..i])|;
            && p + |lines[i]| + 1 <= |m|
            && Laid(m, lines, argv, buf)[p..p + |lines[i]| + 1] == lines[i] + [NUL]
  {
    hide Put, Pointers, Text;
    TextGrows(lines, i);
    TextSplits(lines, i + 1);
    var now, text, at := Laid(m, lines, argv, buf), Text(lines), |Text(lines[..i])|;
    assert now[buf + at..buf + at + |lines[i]| + 1] == text[at..at + |lines[i]| + 1] by {
      forall k | at <= k < at + |lines[i]| + 1 ensures now[buf + k] == text[k] {
        PutAt(Put(m, argv, Pointers(lines, buf)), buf, text, buf + k);
      }
    }
  }

  /** On equal memories with room for two regions that are apart, the host succeeds, and both the adapter
      and the host leave the layout. */
  method ArgsAgree(guest: array<byte>, other: array<byte>, args: seq<Str>, argv: u32, buf: u32)
    returns (r: Result<(), Errno>)
    requires guest != other && guest[..] == other[..]
    requires Fits(guest.Length, args, argv, buf) && InMemory(guest.Length, args, argv, buf) && Apart(args, argv, buf)
    modifies guest, other
    ensures r == Success(())
    ensures guest[..] == Laid(old(guest[..]), args, argv, buf) && other[..] == guest[..]
  {
    hide Laid, Written;
    assert args[..|args|] == args;
    WrittenIsLaid(guest[..], args, argv, buf, true, |args|);
    WrittenIsLaid(guest[..], args, argv, buf, false, |args|);
    ArgsGet(guest, args, argv, buf);
    r := HostArgsGet(other, args, argv, buf);
  }

  /** For the environment both write in the same order, and so agree wherever the regions lie. */
  method EnvironAgrees(guest: array<byte>, other: array<byte>, vars: seq<Var>, environ: u32, buf: u32)
    returns (r: Result<(), Errno>)
    requires guest != other && guest[..] == other[..]
    requires Fits(guest.Length, Lines(vars), environ, buf) && InMemory(guest.Length, Lines(vars), environ, buf)
    modifies guest, other
    ensures r == Success(())
    ensures guest[..] == Written(old(guest[..]), Lines(vars), environ, buf, false) && other[..] == guest[..]
    ensures Apart(Lines(vars), environ, buf) ==> guest[..] == Laid(old(guest[..]), Lines(vars), environ, buf)
  {
    hide Laid, Written;
    ghost var lines := Lines(vars);
    assert lines[..|lines|] == lines;
    if Apart(lines, environ, buf) {
      WrittenIsLaid(guest[..], lines, environ, buf, false, |lines|);
    }
    EnvironGet(guest, vars, environ, buf);
    r := HostEnvironGet(other, vars, environ, buf);
  }
}
