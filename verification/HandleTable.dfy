/** The host's table of resources: u32 keys handed out by a wrapping counter. */
module HandleTable {
  import opened Wrappers
  import opened Bytes

  datatype TableError = Full | NotPresent | WrongType

  /** The most entries a table may hold, `u32::MAX as usize`. */
  const MAX_ENTRIES: nat := 0xFFFF_FFFF

  /** The key `d` steps after `start`, counting around the u32 range. */
  function Around(start: u32, d: u32): u32
  {
    if start + d < TWO_32 then start + d else start + d - TWO_32
  }

  /** How many steps lead from `start` forward to `key`. */
  function Steps(start: u32, key: u32): (d: u32)
    ensures Around(start, d) == key
  {
    if key >= start then key - start else key - start + TWO_32
  }

  /** `key` is the first key at or after `start`, going around, that `used` does not hold. */
  ghost predicate FirstFree(used: set<u32>, start: u32, key: u32)
  {
    && key !in used
    && forall d: u32 :: d < Steps(start, key) ==> Around(start, d) in used
  }

  /** Every key that the search passes, up to the end of the range or around it, is in use. */
  lemma {:induction false} FirstFreeIff(used: set<u32>, start: u32, key: u32)
    ensures FirstFree(used, start, key) <==>
              && key !in used
              && if start <= key then forall k: u32 :: start <= k < key ==> k in used
                 else forall k: u32 :: k < key || start <= k ==> k in used
  {
    if FirstFree(used, start, key) {
      forall k: u32 | (if start <= key then start <= k < key else k < key || start <= k) ensures k in used {
        assert Around(start, Steps(start, k)) in used;
      }
    } else if key !in used {
      var d: u32 :| d < Steps(start, key) && Around(start, d) !in used;
      assert Steps(start, Around(start, d)) == d;
    }
  }

  /** The keys below `n`. */
  ghost function Below(n: nat): (s: set<u32>)
    requires n <= TWO_32
    ensures forall k: u32 :: k in s <==> k < n
    ensures |s| == n
  {
    if n == 0 then {} else Below(n - 1) + {n - 1}
  }

  /** Because a table never holds 2^32 entries, the search for a key ends: some key is free. */
  lemma {:induction false} SomeKeyIsFree(used: set<u32>) returns (free: u32)
    requires |used| < TWO_32
    ensures free !in used
  {
    var all := Below(TWO_32);
    assert all * used == used;
    assert |all - used| == |all| - |all * used| > 0;
    free :| free in all - used;
  }

  class Table<T> {
    var entries: map<u32, T>
    var nextKey: u32
    // History: every key ever handed out, and whether the counter has gone past 2^32 - 1.
    ghost var issued: set<u32>
    ghost var wrapped: bool

    ghost predicate Valid()
      reads this
    {
      && |entries| <= MAX_ENTRIES
      && entries.Keys <= issued
      && (!wrapped ==> 3 <= nextKey && forall k :: k in issued ==> 3 <= k < nextKey)
    }

    constructor ()
      ensures Valid() && entries == map[] && nextKey == 3
      ensures issued == {} && !wrapped
    {
      entries, nextKey := map[], 3;
      issued, wrapped := {}, false;
    }

    /** Inserts a resource. Until the counter wraps, the key was never handed out before, so a
        deleted key does not come back and the keys of stdio are never produced. */
    method Push(a: T) returns (r: Result<u32, TableError>)
      requires Valid()
      modifies this
      ensures Valid()
      ensures r.Success? <==> |old(entries)| < MAX_ENTRIES
      ensures r.Failure? ==> r.error == Full && entries == old(entries) && issued == old(issued)
      ensures r.Success? ==>
                && FirstFree(old(entries.Keys), old(nextKey), r.value)
                && r.value !in old(entries)
                && entries == old(entries)[r.value := a]
                && nextKey == Around(r.value, 1)
                && issued == old(issued) + {r.value}
                && (wrapped <==> old(wrapped) || nextKey <= old(nextKey))
                && (!old(wrapped) ==> r.value !in old(issued) && r.value >= 3)
    {
      if |entries| == MAX_ENTRIES {
        return Failure(Full);
      }
      ghost var free := SomeKeyIsFree(entries.Keys);
      ghost var start, d := nextKey, 0;
      while nextKey in entries
        invariant entries == old(entries) && issued == old(issued)
        invariant d <= Steps(start, free)
        invariant nextKey == Around(start, d)
        invariant forall e: u32 :: e < d ==> Around(start, e) in entries
        invariant old(wrapped) ==> wrapped
        invariant !old(wrapped) ==> (wrapped <==> start + d >= TWO_32)
        decreases Steps(start, free) - d
      {
        assert d != Steps(start, free);
        wrapped := wrapped || nextKey + 1 == TWO_32;
        nextKey := Around(nextKey, 1);
        d := d + 1;
      }
      var key := nextKey;
      assert d == Steps(start, key);
      wrapped := wrapped || nextKey + 1 == TWO_32;
      nextKey := Around(nextKey, 1);
      entries := entries[key := a];
      issued := issued + {key};
      return Success(key);
    }

    /** Removes the resource at `key` if it is there and of the wanted type. */
    method Delete(key: u32, ofType: T -> bool) returns (r: Result<(), TableError>)
      requires Valid()
      modifies this
      ensures Valid()
      ensures issued == old(issued) && wrapped == old(wrapped) && nextKey == old(nextKey)
      ensures r == if key !in old(entries) then Failure(NotPresent)
                   else if !ofType(old(entries)[key]) then Failure(WrongType)
                   else Success(())
      ensures entries == if r.Success? then old(entries) - {key} else old(entries)
    {
      if key !in entries {
        return Failure(NotPresent);
      }
      if !ofType(entries[key]) {
        return Failure(WrongType);
      }
      entries := entries - {key};
      return Success(());
    }

    /** What a caller does to a resource it obtained with `get_mut`. */
    method Update(key: u32, a: T)
      requires Valid() && key in entries
      modifies this
      ensures Valid()
      ensures entries == old(entries)[key := a]
      ensures issued == old(issued) && wrapped == old(wrapped) && nextKey == old(nextKey)
    {
      entries := entries[key := a];
      assert entries.Keys == old(entries.Keys);
    }
  }
}
