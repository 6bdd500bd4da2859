/** The adapter's allocators: a bump arena, and a one-shot buffer for a single import call. */
module Arena {
  import opened Wrappers
  import opened Bytes

  // ----- bits of machine words -----

  function Pow2(k: nat): (p: nat)
    ensures p >= 1
  {
    if k == 0 then 1 else 2 * Pow2(k - 1)
  }

  lemma {:induction false} Pow2Adds(j: nat, k: nat)
    ensures Pow2(j + k) == Pow2(j) * Pow2(k)
  {
    if j > 0 {
      Pow2Adds(j - 1, k);
    }
  }

  lemma {:induction false} WordSize()
    ensures Pow2(32) == TWO_32
  {
    Pow2Adds(8, 8);
    Pow2Adds(16, 16);
    assert Pow2(8) == 256;
  }

  /** Bitwise and of the lowest `n` bits. */
  function And(a: nat, b: nat, n: nat): nat
  {
    if n == 0 then 0 else (if a % 2 == 1 && b % 2 == 1 then 1 else 0) + 2 * And(a / 2, b / 2, n - 1)
  }

  /** Bitwise not of an `n`-bit word. */
  function Not(a: nat, n: nat): (r: nat)
    requires a < Pow2(n)
  {
    Pow2(n) - 1 - a
  }

  /** The lowest bit that is set. */
  function LowestBit(a: nat): nat
    requires a > 0
  {
    if a % 2 == 1 then 1 else 2 * LowestBit(a / 2)
  }

  lemma {:induction false} AndIsBelow(a: nat, b: nat, n: nat)
    ensures And(a, b, n) < Pow2(n)
  {
    if n > 0 {
      AndIsBelow(a / 2, b / 2, n - 1);
    }
  }

  /** `(ptr + (align - 1)) & !(align - 1)` on a 32-bit word, the sum wrapping. */
  function AlignTo(ptr: u32, align: u32): u32
    requires align > 0
  {
    WordSize();
    AndIsBelow(WrapAdd32(ptr, align - 1), Not(align - 1, 32), 32);
    And(WrapAdd32(ptr, align - 1), Not(align - 1, 32), 32)
  }

  lemma {:induction false} AndAllOnes(a: nat, n: nat)
    requires a < Pow2(n)
    ensures And(a, Pow2(n) - 1, n) == a
  {
    if n > 0 {
      AndAllOnes(a / 2, n - 1);
      assert (Pow2(n) - 1) / 2 == Pow2(n - 1) - 1;
    }
  }

  lemma {:induction false} ModOfHalf(a: nat, m: nat)
    requires m > 0
    ensures a % (2 * m) == 2 * ((a / 2) % m) + a % 2
  {
    var q, r := (a / 2) / m, (a / 2) % m;
    assert a / 2 == q * m + r;
    assert a == 2 * (q * m + r) + a % 2 == (2 * m) * q + (2 * r + a % 2);
    assert 2 * r + a % 2 < 2 * m;
    DivModUnique(a, 2 * m, q, 2 * r + a % 2);
  }

  /** Masking with the complement of a power of two less one clears the remainder. */
  lemma {:induction false} MaskClearsRemainder(a: nat, k: nat, n: nat)
    requires a < Pow2(n) && k <= n
    ensures Pow2(k) <= Pow2(n)
    ensures And(a, Pow2(n) - Pow2(k), n) == a - a % Pow2(k)
  {
    if k == 0 {
      AndAllOnes(a, n);
    } else {
      MaskClearsRemainder(a / 2, k - 1, n - 1);
      assert (Pow2(n) - Pow2(k)) / 2 == Pow2(n - 1) - Pow2(k - 1);
      ModOfHalf(a, Pow2(k - 1));
    }
  }

  lemma {:induction false} RoundDown(sum: nat, align: nat)
    requires align > 0
    ensures var r := sum - sum % align; r % align == 0 && r <= sum < r + align
  {
    assert sum == align * (sum / align) + sum % align;
    DivModUnique(sum - sum % align, align, sum / align, 0);
  }

  lemma {:induction false} MultiplesAreApart(align: nat, r: nat, m: nat)
    requires align > 0 && r % align == 0 && m % align == 0 && r < m + align
    ensures r <= m
  {
    var p := Quotient(m, align);
    var q := Quotient(r, align);
    MulGap(align, p, q);
  }

  lemma {:induction false} Quotient(x: nat, align: nat) returns (q: nat)
    requires align > 0 && x % align == 0
    ensures x == align * q
  {
    q := x / align;
  }

  /** Masking is rounding down. */
  lemma {:induction false} AlignToRounds(ptr: u32, k: nat)
    requires k < 32 && ptr + Pow2(k) - 1 < TWO_32
    ensures Pow2(k) < TWO_32
    ensures var sum := ptr + Pow2(k) - 1; AlignTo(ptr, Pow2(k)) == sum - sum % Pow2(k)
  {
    hide And, Pow2;
    WordSize();
    Pow2Grows(k, 32);
    MaskClearsRemainder(ptr + Pow2(k) - 1, k, 32);
  }

  /** For a power of two, `align_to` is the least multiple at or above its argument, as long as that
      does not run off the word. */
  lemma {:induction false} AlignToIsLeastMultiple(ptr: u32, k: nat)
    requires k < 32 && ptr + Pow2(k) - 1 < TWO_32
    ensures Pow2(k) < TWO_32
    ensures var align, r := Pow2(k), AlignTo(ptr, Pow2(k));
            && r % align == 0
            && ptr <= r < ptr + align
            && forall m: nat :: m % align == 0 && m >= ptr ==> r <= m
  {
    hide AlignTo, Pow2;
    AlignToRounds(ptr, k);
    RoundDown(ptr + Pow2(k) - 1, Pow2(k));
    var r := AlignTo(ptr, Pow2(k));
    forall m: nat | m % Pow2(k) == 0 && m >= ptr ensures r <= m {
      MultiplesAreApart(Pow2(k), r, m);
    }
  }

  lemma {:induction false} LowestBitOfAnd(a: nat, n: nat)
    requires 0 < a < Pow2(n)
    ensures And(a, Not(a - 1, n), n) == LowestBit(a)
  {
    if a % 2 == 1 {
      assert (a - 1) / 2 == a / 2;
      assert Not(a - 1, n) / 2 == Not(a / 2, n - 1);
      AndWithNot(a / 2, n - 1);
    } else {
      assert (a - 1) / 2 == a / 2 - 1;
      assert Not(a - 1, n) / 2 == Not(a / 2 - 1, n - 1);
      LowestBitOfAnd(a / 2, n - 1);
    }
  }

  lemma {:induction false} AndWithNot(a: nat, n: nat)
    requires a < Pow2(n)
    ensures And(a, Not(a, n), n) == 0
  {
    if n > 0 {
      assert Not(a, n) / 2 == Not(a / 2, n - 1);
      AndWithNot(a / 2, n - 1);
    }
  }

  lemma {:induction false} LowestBitIsPower(a: nat)
    requires a > 0
    ensures exists k: nat :: k < a && LowestBit(a) == Pow2(k)
    ensures LowestBit(a) <= a
  {
    if a % 2 == 1 {
      assert Pow2(0) == 1;
    } else {
      LowestBitIsPower(a / 2);
      var k: nat :| k < a / 2 && LowestBit(a / 2) == Pow2(k);
      assert Pow2(k + 1) == LowestBit(a);
    }
  }

  ghost predicate IsPow2(a: nat) { exists k: nat :: a == Pow2(k) }

  lemma {:induction false} LowestBitOfPower(k: nat)
    ensures LowestBit(Pow2(k)) == Pow2(k)
  {
    if k > 0 {
      LowestBitOfPower(k - 1);
    }
  }

  lemma {:induction false} Pow2Grows(j: nat, k: nat)
    ensures j < k ==> 2 * Pow2(j) <= Pow2(k)
    decreases k
  {
    if j + 1 < k {
      Pow2Grows(j, k - 1);
    }
  }

  /** At address 1 the result is the lowest bit of the alignment. */
  lemma {:induction false} AlignToOne(align: u32)
    requires align > 0
    ensures AlignTo(1, align) == LowestBit(align)
  {
    hide And, LowestBit, Pow2;
    WordSize();
    LowestBitOfAnd(align, 32);
  }

  /** `align_to` yields a multiple of `align` at every address from which the next multiple is still
      in range exactly when `align` is a power of two. */
  lemma {:induction false} AlignsIff(align: u32)
    requires align > 0
    ensures IsPow2(align) <==> forall ptr: u32 :: ptr + align <= TWO_32 ==> AlignTo(ptr, align) % align == 0
  {
    hide AlignTo, Pow2, LowestBit;
    if IsPow2(align) {
      var k: nat :| align == Pow2(k);
      WordSize();
      Pow2Grows(32, k);
      forall ptr: u32 | ptr + align <= TWO_32 ensures AlignTo(ptr, align) % align == 0 {
        AlignToIsLeastMultiple(ptr, k);
      }
    } else {
      AlignToOne(align);
      LowestBitIsPower(align);
      assert AlignTo(1, align) % align == LowestBit(align);
      assert 1 + align <= TWO_32;
    }
  }

  /** Where rounding up runs off the word, it comes out at zero. */
  lemma {:induction false} AlignToWraps(ptr: u32, k: nat)
    requires k < 32 && Pow2(k) < TWO_32 && ptr + Pow2(k) - 1 >= TWO_32
    ensures AlignTo(ptr, Pow2(k)) == 0
  {
    hide And, Pow2;
    WordSize();
    var align, sum: nat := Pow2(k), ptr + Pow2(k) - 1 - TWO_32;
    MaskClearsRemainder(sum, k, 32);
    assert AlignTo(ptr, align) == sum - sum % align;
    DivModUnique(sum, align, 0, sum);
  }

  // ----- the bump arena -----

  /** One allocation in an arena of `limit` bytes at `start`, the sums wrapping as they do: the
      address and the new position, or nothing for a trap. */
  function Bump(start: u32, limit: u32, position: u32, align: u32, size: u32): (r: Option<(u32, u32)>)
    requires align > 0 && start + position < TWO_32
  {
    var addr := AlignTo(start + position, align);
    var end := WrapAdd32(WrapSub32(addr, start), size);
    if end > limit then None else Some((addr, end))
  }

  /** No sum of the allocation runs off the word. */
  ghost predicate StaysInWord(start: u32, position: u32, align: u32, size: u32)
    requires align > 0 && start + position < TWO_32
  {
    && start + position + align - 1 < TWO_32
    && AlignTo(start + position, align) - start + size < TWO_32
  }

  /** With no sum running off the word, an allocation traps exactly when the aligned block does not
      fit, and otherwise gives the first aligned block past everything given out before. */
  lemma {:induction false} BumpGivesNextBlock(start: u32, limit: u32, position: u32, align: u32, size: u32)
    requires IsPow2(align) && start + limit < TWO_32 && position <= limit && StaysInWord(start, position, align, size)
    ensures var addr := AlignTo(start + position, align);
            && addr % align == 0 && start + position <= addr
            && Bump(start, limit, position, align, size)
               == if addr + size <= start + limit then Some((addr, addr - start + size)) else None
  {
    hide AlignTo, Pow2;
    var k: nat :| align == Pow2(k);
    WordSize();
    Pow2Grows(32, k);
    AlignToIsLeastMultiple(start + position, k);
  }

  /** A block given out lies inside the arena exactly when no sum ran off the word. */
  lemma {:induction false} BumpStaysInsideIff(start: u32, limit: u32, position: u32, align: u32, size: u32)
    requires IsPow2(align) && 0 < start && start + limit < TWO_32 && position <= limit
    requires Bump(start, limit, position, align, size).Some?
    ensures var addr := Bump(start, limit, position, align, size).value.0;
            start <= addr && addr + size <= start + limit <==> StaysInWord(start, position, align, size)
  {
    hide AlignTo, Pow2;
    var k: nat :| align == Pow2(k);
    WordSize();
    Pow2Grows(32, k);
    if start + position + align - 1 >= TWO_32 {
      AlignToWraps(start + position, k);
    } else {
      AlignToIsLeastMultiple(start + position, k);
    }
  }

  /** It can happen: a request for nearly all of memory wraps the position back to zero, and is given the
      middle of a 16-byte arena. */
  lemma {:induction false} BumpLeavesArena()
    ensures Bump(16, 16, 8, 1, TWO_32 - 8) == Some((24, 0)) && 24 + (TWO_32 - 8) > 16 + 16
  {
    hide AlignTo;
    assert Pow2(0) == 1;
    AlignToIsLeastMultiple(24, 0);
  }

  /** A block: its address and its length. */
  datatype Block = Block(addr: nat, len: nat)

  class BumpArena {
    const start: u32
    const limit: u32
    var position: u32
    // History: the blocks given out so far.
    ghost var blocks: seq<Block>

    ghost predicate InBounds()
      reads this
    {
      0 < start && start + limit < TWO_32 && position <= limit
    }

    /** The blocks lie in the used part of the arena, each after all earlier ones. */
    ghost predicate Valid()
      reads this
    {
      && InBounds()
      && (forall i :: 0 <= i < |blocks| ==>
            start <= blocks[i].addr && blocks[i].addr + blocks[i].len <= start + position)
      && (forall i, j :: 0 <= i < j < |blocks| ==> blocks[i].addr + blocks[i].len <= blocks[j].addr)
    }

    constructor (start: u32, limit: u32)
      requires 0 < start && start + limit < TWO_32
      ensures Valid() && blocks == [] && this.start == start && this.limit == limit && position == 0
    {
      this.start, this.limit, position, blocks := start, limit, 0, [];
    }

    /** Allocates, or traps and gives nothing. */
    method Alloc(align: u32, size: u32) returns (r: Option<u32>)
      requires InBounds() && align > 0
      modifies this
      ensures InBounds() && (r.None? <==> Bump(start, limit, old(position), align, size).None?)
      ensures r.Some? ==> position == Bump(start, limit, old(position), align, size).value.1
      ensures r == match Bump(start, limit, old(position), align, size)
                   case None => None
                   case Some((addr, _)) => Some(addr)
      ensures r.None? ==> position == old(position) && blocks == old(blocks)
      ensures r.Some? ==> blocks == old(blocks) + [Block(r.value, size)]
      ensures r.Some? && IsPow2(align) ==>
                (start <= r.value && r.value + size <= start + limit
                 <==> StaysInWord(start, old(position), align, size))
      ensures old(Valid()) && IsPow2(align) && StaysInWord(start, old(position), align, size) ==>
                && Valid()
                && (r.Some? ==>
                      r.value % align == 0 && start + old(position) <= r.value && r.value + size <= start + limit)
                && (r.None? <==> AlignTo(start + old(position), align) + size > start + limit)
    {
      hide AlignTo;
      var bumped := Bump(start, limit, position, align, size);
      if IsPow2(align) && StaysInWord(start, position, align, size) {
        BumpGivesNextBlock(start, limit, position, align, size);
      }
      if bumped.None? {
        return None;
      }
      if IsPow2(align) {
        BumpStaysInsideIff(start, limit, position, align, size);
      }
      position := bumped.value.1;
      blocks := blocks + [Block(bumped.value.0, size)];
      return Some(bumped.value.0);
    }
  }

  /** The block has the size and the alignment that was asked for. */
  predicate Serves(b: Block, request: (u32, u32))
  {
    b.len == request.1 && request.0 > 0 && b.addr % request.0 == 0
  }

  /** The first aligned block behind what was given out does not fit. */
  predicate Overflows(start: u32, limit: u32, position: u32, request: (u32, u32))
  {
    request.0 > 0 && start + position < TWO_32 && AlignTo(start + position, request.0) + request.1 > start + limit
  }

  /** The alignments of a run of requests are powers of two. */
  ghost predicate GoodRequests(requests: seq<(u32, u32)>)
  {
    forall i :: 0 <= i < |requests| ==> IsPow2(requests[i].0)
  }

  lemma {:induction false} GoodAlignment(requests: seq<(u32, u32)>, i: nat)
    requires GoodRequests(requests) && i < |requests|
    ensures requests[i].0 > 0 && GoodRequests(requests[i..]) && GoodRequests(requests[i + 1..])
  {
    var k: nat :| requests[i].0 == Pow2(k);
    Pow2Grows(0, k);
  }

  /** No sum runs off the word while the requests are served one after the other. */
  ghost predicate RunStaysInWord(start: u32, limit: u32, position: u32, requests: seq<(u32, u32)>)
    requires start + limit < TWO_32 && position <= limit && GoodRequests(requests)
    decreases |requests|
  {
    if requests == [] then true
    else
      GoodAlignment(requests, 0);
      var (align, size) := requests[0];
      match Bump(start, limit, position, align, size)
      case None => true
      case Some((_, end)) =>
        StaysInWord(start, position, align, size) && RunStaysInWord(start, limit, end, requests[1..])
  }

  ghost predicate Inside(start: u32, limit: u32, b: Block)
  {
    start <= b.addr && b.addr + b.len <= start + limit
  }

  /** A sequence of requests, served until one traps: the blocks all lie inside the arena exactly when no
      sum runs off the word on the way, and then they are aligned and no two of them share a byte. */
  method Serve(arena: BumpArena, requests: seq<(u32, u32)>) returns (served: nat)
    requires arena.Valid() && arena.blocks == [] && GoodRequests(requests)
    modifies arena
    ensures served <= |requests| && |arena.blocks| == served
    ensures (forall i :: 0 <= i < served ==> Inside(arena.start, arena.limit, arena.blocks[i]))
            <==> RunStaysInWord(arena.start, arena.limit, old(arena.position), requests)
    ensures RunStaysInWord(arena.start, arena.limit, old(arena.position), requests) ==>
              && arena.Valid()
              && (forall i :: 0 <= i < served ==> Serves(arena.blocks[i], requests[i]))
              && forall i, j :: 0 <= i < served && 0 <= j < served && i != j ==>
                   || arena.blocks[i].addr + arena.blocks[i].len <= arena.blocks[j].addr
                   || arena.blocks[j].addr + arena.blocks[j].len <= arena.blocks[i].addr
    ensures served < |requests| ==>
              && arena.InBounds() && requests[served].0 > 0
              && var (align, size) := requests[served];
                 && Bump(arena.start, arena.limit, arena.position, align, size).None?
                 && (StaysInWord(arena.start, arena.position, align, size) ==>
                       Overflows(arena.start, arena.limit, arena.position, requests[served]))
  {
    hide AlignTo, Bump, StaysInWord, IsPow2;
    ghost var stays := RunStaysInWord(arena.start, arena.limit, arena.position, requests);
    ghost var fine, outside: nat := true, 0;
    served := 0;
    assert requests[0..] == requests;
    while served < |requests|
      invariant arena.InBounds() && served <= |requests| && |arena.blocks| == served
      invariant GoodRequests(requests[served..])
      invariant stays <==> fine && RunStaysInWord(arena.start, arena.limit, arena.position, requests[served..])
      invariant if fine then arena.Valid() && forall i :: 0 <= i < served ==> Serves(arena.blocks[i], requests[i])
                else outside < served && !Inside(arena.start, arena.limit, arena.blocks[outside])
    {
      GoodAlignment(requests, served);
      var (align, size) := requests[served];
      assert requests[served..][0] == (align, size) && requests[served..][1..] == requests[served + 1..];
      ghost var position := arena.position;
      var addr := arena.Alloc(align, size);
      if addr.None? {
        if StaysInWord(arena.start, position, align, size) {
          BumpGivesNextBlock(arena.start, arena.limit, position, align, size);
        }
        return;
      }
      assert arena.blocks[served] == Block(addr.value, size);
      assert Inside(arena.start, arena.limit, arena.blocks[served])
        <==> StaysInWord(arena.start, position, align, size);
      outside := if fine then served else outside;
      fine := fine && StaysInWord(arena.start, position, align, size);
      served := served + 1;
    }
  }

  lemma {:induction false} RoomyRequestStaysInWord(start: u32, limit: u32, position: u32, align: u32, size: u32)
    requires IsPow2(align) && start + limit < TWO_32 && position <= limit && start + limit + align + size <= TWO_32
    ensures align > 0 && StaysInWord(start, position, align, size)
  {
    hide AlignTo, Pow2;
    var k: nat :| align == Pow2(k);
    WordSize();
    Pow2Grows(32, k);
    AlignToIsLeastMultiple(start + position, k);
  }

  /** Requests that all leave room in front of the word's end stay in it. */
  lemma {:induction false} RoomyRunStaysInWord(start: u32, limit: u32, position: u32, requests: seq<(u32, u32)>)
    requires start + limit < TWO_32 && position <= limit && GoodRequests(requests)
    requires forall i :: 0 <= i < |requests| ==> start + limit + requests[i].0 + requests[i].1 <= TWO_32
    ensures RunStaysInWord(start, limit, position, requests)
    decreases |requests|
  {
    hide AlignTo, StaysInWord, IsPow2;
    if requests != [] {
      GoodAlignment(requests, 0);
      var (align, size) := requests[0];
      RoomyRequestStaysInWord(start, limit, position, align, size);
      match Bump(start, limit, position, align, size)
      case None =>
      case Some((_, end)) => RoomyRunStaysInWord(start, limit, end, requests[1..]);
    }
  }

  // ----- the import allocator -----

  datatype Mode = Idle | BufferMode | ArenaMode

  /** Serves the allocations of import calls: at most one from a caller's buffer, or any number from
      an arena. */
  class ImportAlloc {
    var buffer: u32
    var len: u32
    var arena: Option<BumpArena>
    // History: which scope is open, and how many blocks it has been given.
    ghost var mode: Mode
    ghost var served: nat

    /** A buffer and an arena are never set together, and a buffer is gone once it has served. */
    ghost predicate Valid()
      reads this
    {
      && (buffer != 0 ==> mode == BufferMode && arena.None? && served == 0)
      && (arena.Some? <==> mode == ArenaMode)
      && (mode == BufferMode ==> served <= 1)
    }

    constructor ()
      ensures Valid() && mode == Idle
    {
      buffer, len, arena, mode, served := 0, 0, None, Idle, 0;
    }

    /** The start of `with_buffer`; false is a trap. */
    method EnterBuffer(buffer: u32, len: u32) returns (ok: bool)
      requires Valid()
      modifies this
      ensures ok <==> old(arena).None? && old(this.buffer) == 0
      ensures ok ==> Valid() && mode == BufferMode && served == 0 && this.buffer == buffer && this.len == len
    {
      if arena.Some? || this.buffer != 0 {
        return false;
      }
      this.buffer, this.len := buffer, len;
      mode, served := BufferMode, 0;
      return true;
    }

    method ExitBuffer()
      requires Valid() && mode == BufferMode
      modifies this
      ensures Valid() && mode == Idle && buffer == 0
    {
      buffer, mode := 0, Idle;
    }

    /** The start of `with_arena`; false is a trap. */
    method EnterArena(arena: BumpArena) returns (ok: bool)
      requires Valid()
      modifies this
      ensures ok <==> old(buffer) == 0 && old(this.arena).None?
      ensures ok ==> Valid() && mode == ArenaMode && served == 0 && this.arena == Some(arena)
    {
      if buffer != 0 || this.arena.Some? {
        return false;
      }
      this.arena, mode, served := Some(arena), ArenaMode, 0;
      return true;
    }

    method ExitArena()
      requires Valid() && mode == ArenaMode
      modifies this
      ensures Valid() && mode == Idle && arena == None
    {
      arena, mode := None, Idle;
    }

    /** Serves one allocation, or traps. From a buffer it serves at most one, and within it. */
    method Alloc(align: u32, size: u32) returns (r: Option<u32>)
      requires Valid() && align > 0 && (arena.Some? ==> arena.value.Valid())
      modifies this, if arena.Some? then {arena.value} else {}
      ensures Valid() && mode == old(mode) && arena == old(arena)
      ensures served == old(served) + if r.Some? then 1 else 0
      ensures mode != ArenaMode && r.Some? ==>
                && mode == BufferMode && old(served) == 0 && buffer == 0
                && r.value == AlignTo(old(buffer), align)
                && r.value + size <= old(buffer) + len
                && (IsPow2(align) && old(buffer) + align - 1 < TWO_32 ==>
                      old(buffer) <= r.value && r.value % align == 0)
      ensures mode != ArenaMode && r.None? <==>
                mode != ArenaMode && (|| old(buffer) == 0
                                      || AlignTo(old(buffer), align) + size >= TWO_32
                                      || old(buffer) + len >= TWO_32
                                      || AlignTo(old(buffer), align) + size > old(buffer) + len)
      ensures mode == ArenaMode ==>
                r == match Bump(arena.value.start, arena.value.limit, old(arena.value.position), align, size)
                     case None => None case Some((addr, _)) => Some(addr)
    {
      hide AlignTo;
      if arena.Some? {
        r := arena.value.Alloc(align, size);
      } else {
        var addr := AlignTo(buffer, align);
        if buffer == 0 || addr + size >= TWO_32 || buffer + len >= TWO_32 || addr + size > buffer + len {
          return None;
        }
        if IsPow2(align) && buffer + align - 1 < TWO_32 {
          AlignedAbove(buffer, align);
        }
        buffer := 0;
        r := Some(addr);
      }
      served := served + if r.Some? then 1 else 0;
    }
  }

  lemma {:induction false} AlignedAbove(ptr: u32, align: u32)
    requires IsPow2(align) && ptr + align - 1 < TWO_32
    ensures ptr <= AlignTo(ptr, align) && AlignTo(ptr, align) % align == 0
  {
    hide AlignTo, Pow2;
    var k: nat :| align == Pow2(k);
    WordSize();
    Pow2Grows(32, k);
    AlignToIsLeastMultiple(ptr, k);
  }
}
