/**
 * The LionCloud block cache: a recency list of (device, sector, block) ->
 * 256-byte block lines, most recently used first. The doubly-linked list of
 * the C code is the sequence `lines`, index 0 being the list head.
 */
module Cache {
  import opened Bits

  /** A cache key: device id and the 16-bit sector and block numbers the cache stores. */
  datatype CacheKey = CacheKey(did: int, sec: int, blk: int)

  datatype Line = Line(key: CacheKey, block: Block)

  datatype Option<T> = None | Some(value: T)

  /** At most one line per key. */
  ghost predicate UniqueKeys(lines: seq<Line>)
  {
    forall i, j :: 0 <= i < j < |lines| ==> lines[i].key != lines[j].key
  }

  ghost predicate HasKey(lines: seq<Line>, k: CacheKey)
  {
    exists i :: 0 <= i < |lines| && lines[i].key == k
  }

  /** Position of the first line with key `k` in head-to-tail order, or -1. */
  function IndexOf(lines: seq<Line>, k: CacheKey): (r: int)
    ensures -1 <= r < |lines|
    ensures r >= 0 ==> lines[r].key == k && forall j :: 0 <= j < r ==> lines[j].key != k
    ensures r == -1 <==> !HasKey(lines, k)
  {
    if |lines| == 0 then -1
    else if lines[0].key == k then 0
    else
      var r := IndexOf(lines[1..], k);
      if r == -1 then -1 else r + 1
  }

  /** The list after the line at `i` is unlinked and relinked at the head. */
  function MoveToFront(lines: seq<Line>, i: nat): seq<Line>
    requires i < |lines|
  {
    [lines[i]] + lines[..i] + lines[i + 1..]
  }

  /** Promotion puts the promoted line first and keeps every other line, in its old relative order. */
  lemma {:induction false} MoveToFrontOrder(lines: seq<Line>, i: nat)
    requires i < |lines|
    ensures |MoveToFront(lines, i)| == |lines|
    ensures MoveToFront(lines, i)[0] == lines[i]
    ensures forall j :: 0 <= j < i ==> MoveToFront(lines, i)[j + 1] == lines[j]
    ensures forall j :: i < j < |lines| ==> MoveToFront(lines, i)[j] == lines[j]
    ensures multiset(MoveToFront(lines, i)) == multiset(lines)
  {
    var r := MoveToFront(lines, i);
    forall j | 0 <= j < i ensures r[j + 1] == lines[j] {
      assert r[j + 1] == (lines[..i] + lines[i + 1..])[j];
    }
    forall j | i < j < |lines| ensures r[j] == lines[j] {
      assert r[j] == (lines[..i] + lines[i + 1..])[j - 1];
    }
    calc {
      multiset(r);
      multiset([lines[i]]) + multiset(lines[..i]) + multiset(lines[i + 1..]);
      { assert lines == lines[..i] + [lines[i]] + lines[i + 1..]; }
      multiset(lines);
    }
  }

  lemma {:induction false} MoveToFrontUnique(lines: seq<Line>, i: nat)
    requires i < |lines| && UniqueKeys(lines)
    ensures UniqueKeys(MoveToFront(lines, i))
    ensures forall k :: HasKey(MoveToFront(lines, i), k) <==> HasKey(lines, k)
  {
    MoveToFrontOrder(lines, i);
    var r := MoveToFront(lines, i);
    forall a, b | 0 <= a < b < |r| ensures r[a].key != r[b].key {
      var a' := Origin(i, a);
      var b' := Origin(i, b);
      assert r[a] == lines[a'] && r[b] == lines[b'];
    }
    forall k | HasKey(lines, k) ensures HasKey(r, k) {
      var j :| 0 <= j < |lines| && lines[j].key == k;
      if j == i { assert r[0].key == k; }
      else if j < i { assert r[j + 1].key == k; }
      else { assert r[j].key == k; }
    }
    forall k | HasKey(r, k) ensures HasKey(lines, k) {
      var a :| 0 <= a < |r| && r[a].key == k;
      assert lines[Origin(i, a)].key == k;
    }
  }

  /** Where the line at position `a` after MoveToFront(_, i) was before it. */
  function Origin(i: nat, a: nat): (o: nat)
    ensures a == 0 ==> o == i
    ensures 0 < a <= i ==> o == a - 1
    ensures a > i ==> o == a
    ensures a != 0 ==> o != i
  {
    if a == 0 then i else if a <= i then a - 1 else a
  }

  /** The list lcloud_getcache leaves behind for key `k`: promoted on a hit, unchanged on a miss. */
  function Touch(lines: seq<Line>, k: CacheKey): seq<Line>
  {
    var i := IndexOf(lines, k);
    if i < 0 then lines else MoveToFront(lines, i)
  }

  /** The list lcloud_putcache leaves behind: overwrite and promote on a hit, insert at the head on a miss. */
  function Put(lines: seq<Line>, k: CacheKey, b: Block): seq<Line>
  {
    var i := IndexOf(lines, k);
    if i < 0 then [Line(k, b)] + lines else MoveToFront(lines, i)[0 := Line(k, b)]
  }

  /** The block the cache holds for `k`, if any. */
  function Get(lines: seq<Line>, k: CacheKey): Option<Block>
  {
    var i := IndexOf(lines, k);
    if i < 0 then None else Some(lines[i].block)
  }

  /** After a put, the key is the most recent line, holds the new block, and the list still has one line per key. */
  lemma {:induction false} PutThenGet(lines: seq<Line>, k: CacheKey, b: Block)
    requires UniqueKeys(lines)
    ensures Put(lines, k, b)[0] == Line(k, b)
    ensures Get(Put(lines, k, b), k) == Some(b)
    ensures UniqueKeys(Put(lines, k, b))
  {
    var i := IndexOf(lines, k);
    var r := Put(lines, k, b);
    if i < 0 {
      forall a, c | 0 <= a < c < |r| ensures r[a].key != r[c].key {
        if a == 0 { assert r[c] == lines[c - 1]; }
        else { assert r[a] == lines[a - 1] && r[c] == lines[c - 1]; }
      }
    } else {
      MoveToFrontUnique(lines, i);
      MoveToFrontOrder(lines, i);
      var m := MoveToFront(lines, i);
      assert m[0].key == k;
      forall a, c | 0 <= a < c < |r| ensures r[a].key != r[c].key {
        assert r[c] == m[c];
        assert a != 0 ==> r[a] == m[a];
      }
    }
    assert IndexOf(r, k) == 0;
  }

  /** A put never removes a line: every key present before is present after, and the count grows only on a new key. */
  lemma {:induction false} PutKeepsKeys(lines: seq<Line>, k: CacheKey, b: Block)
    requires UniqueKeys(lines)
    ensures forall k' :: HasKey(lines, k') ==> HasKey(Put(lines, k, b), k')
    ensures |Put(lines, k, b)| == if HasKey(lines, k) then |lines| else |lines| + 1
  {
    var i := IndexOf(lines, k);
    var r := Put(lines, k, b);
    if i < 0 {
      forall k' | HasKey(lines, k') ensures HasKey(r, k') {
        var j :| 0 <= j < |lines| && lines[j].key == k';
        assert r[j + 1] == lines[j];
      }
    } else {
      MoveToFrontUnique(lines, i);
      MoveToFrontOrder(lines, i);
      forall k' | HasKey(lines, k') ensures HasKey(r, k') {
        var m := MoveToFront(lines, i);
        assert HasKey(m, k');
        var j :| 0 <= j < |m| && m[j].key == k';
        if j == 0 { assert r[0].key == k' by { assert m[0] == lines[i]; } }
        else { assert r[j] == m[j]; }
      }
    }
  }

  /** A get on a present key returns its block and keeps the key set; on an absent key it changes nothing. */
  lemma {:induction false} TouchKeeps(lines: seq<Line>, k: CacheKey)
    requires UniqueKeys(lines)
    ensures UniqueKeys(Touch(lines, k))
    ensures |Touch(lines, k)| == |lines|
    ensures HasKey(lines, k) ==> Touch(lines, k)[0].key == k && Touch(lines, k)[0].block == Get(lines, k).value
    ensures !HasKey(lines, k) ==> Touch(lines, k) == lines
    ensures forall k' :: HasKey(Touch(lines, k), k') <==> HasKey(lines, k')
  {
    var i := IndexOf(lines, k);
    if i >= 0 {
      MoveToFrontUnique(lines, i);
      MoveToFrontOrder(lines, i);
    }
  }

  class BlockCache {
    var lines: seq<Line>
    var maxblocks: int
    var currentblocks: int

    /** One line per key, `currentblocks` counting them, and never more lines than a positive capacity. */
    ghost predicate Valid()
      reads this
    {
      && currentblocks == |lines| && UniqueKeys(lines)
      && (maxblocks >= 1 ==> currentblocks <= maxblocks)
    }

    /** An empty cache with the given capacity (the state lcloud_initcache sets up). */
    constructor (maxblocks: int)
      ensures Valid() && lines == [] && this.maxblocks == maxblocks && currentblocks == 0
    {
      lines := [];
      this.maxblocks := maxblocks;
      currentblocks := 0;
    }

    /** lcloud_initcache: empty list, the given capacity, no blocks; returns 1. */
    method InitCache(maxblocks: int) returns (r: int)
      modifies this
      ensures Valid() && lines == [] && this.maxblocks == maxblocks && currentblocks == 0
      ensures r == 1
    {
      lines := [];
      this.maxblocks := maxblocks;
      currentblocks := 0;
      r := 1;
    }

    /** lcloud_closecache: releases every line; count and capacity become 0. */
    method CloseCache() returns (r: int)
      modifies this
      ensures Valid() && lines == [] && maxblocks == 0 && currentblocks == 0
      ensures r == 0
    {
      lines := [];
      currentblocks := 0;
      maxblocks := 0;
      r := 0;
    }

    /** cacheReplaceLine: relink the line at `i` as the head, unless its key is the head's. */
    method ReplaceLine(i: nat) returns (r: int)
      requires Valid() && i < |lines|
      modifies this
      ensures Valid() && r == 0
      ensures lines == MoveToFront(old(lines), i)
      ensures maxblocks == old(maxblocks) && currentblocks == old(currentblocks)
    {
      if lines[i].key == lines[0].key {
        assert i == 0;
        assert lines == MoveToFront(lines, 0);
        return 0;
      }
      MoveToFrontUnique(lines, i);
      MoveToFrontOrder(lines, i);
      lines := MoveToFront(lines, i);
      r := 0;
    }

    /** cacheAddLine: a new head line; a full cache doubles its capacity instead of evicting. */
    method AddLine(line: Line) returns (r: int)
      requires Valid() && !HasKey(lines, line.key)
      modifies this
      ensures Valid() && r == 0
      ensures lines == [line] + old(lines)
      ensures currentblocks == old(currentblocks) + 1
      ensures maxblocks == if old(currentblocks) == old(maxblocks) then 2 * old(maxblocks) else old(maxblocks)
    {
      if maxblocks >= 1 {
        CapacityCovers(currentblocks, maxblocks);
      }
      if currentblocks == maxblocks {
        maxblocks := maxblocks * 2;
      }
      var old_lines := lines;
      lines := [line] + lines;
      forall a, c | 0 <= a < c < |lines| ensures lines[a].key != lines[c].key {
        if a == 0 { assert lines[c] == old_lines[c - 1]; }
        else { assert lines[a] == old_lines[a - 1] && lines[c] == old_lines[c - 1]; }
      }
      currentblocks := currentblocks + 1;
      r := 0;
    }

    /**
     * lcloud_getcache: on a hit, the line moves to the head and its block is
     * returned; on a miss (including an empty cache) nothing changes.
     */
    method GetCache(k: CacheKey) returns (found: bool, block: Block)
      requires Valid()
      modifies this
      ensures Valid()
      ensures found <==> HasKey(old(lines), k)
      ensures found ==> Some(block) == Get(old(lines), k)
      ensures lines == Touch(old(lines), k)
      ensures maxblocks == old(maxblocks) && currentblocks == old(currentblocks)
    {
      block := ZeroBlock();
      if |lines| == 0 || currentblocks == 0 {
        return false, block;
      }
      if |lines| == 1 && lines[0].key == k {
        block := lines[0].block;
        var _ := ReplaceLine(0);
        return true, block;
      }
      var i := 0;
      while i < |lines|
        invariant 0 <= i <= |lines|
        invariant forall j :: 0 <= j < i ==> lines[j].key != k
        invariant lines == old(lines)
      {
        if lines[i].key == k {
          assert IndexOf(lines, k) == i;
          block := lines[i].block;
          var _ := ReplaceLine(i);
          return true, block;
        }
        i := i + 1;
      }
      return false, block;
    }

    /** lcloud_putcache on a hit at `i`: the line is relinked as the head, then takes the new block. */
    method RefreshLine(i: nat, k: CacheKey, block: Block)
      requires Valid() && i < |lines| && IndexOf(lines, k) == i
      modifies this
      ensures Valid() && lines == Put(old(lines), k, block)
      ensures maxblocks == old(maxblocks) && currentblocks == old(currentblocks)
    {
      PutThenGet(lines, k, block);
      var _ := ReplaceLine(i);
      lines := lines[0 := Line(k, block)];
    }

    /**
     * lcloud_putcache: a present key gets the new block and moves to the head
     * with the count unchanged; an absent key becomes a new head line.
     */
    method PutCache(k: CacheKey, block: Block) returns (r: int)
      requires Valid()
      modifies this
      ensures Valid() && r == 0
      ensures lines == Put(old(lines), k, block)
      ensures HasKey(old(lines), k) ==> currentblocks == old(currentblocks) && maxblocks == old(maxblocks)
      ensures !HasKey(old(lines), k) ==>
                && currentblocks == old(currentblocks) + 1
                && maxblocks == if old(currentblocks) == old(maxblocks) then 2 * old(maxblocks) else old(maxblocks)
    {
      var i := 0;
      while i < |lines|
        invariant 0 <= i <= |lines|
        invariant forall j :: 0 <= j < i ==> lines[j].key != k
        invariant lines == old(lines)
      {
        if lines[i].key == k {
          assert IndexOf(lines, k) == i;
          RefreshLine(i, k, block);
          return 0;
        }
        i := i + 1;
      }
      r := AddLine(Line(k, block));
    }
  }

  /** Doubling on a full insert keeps the count within the capacity whenever the capacity is positive. */
  lemma CapacityCovers(currentblocks: int, maxblocks: int)
    requires 1 <= maxblocks && 0 <= currentblocks <= maxblocks
    ensures var m := if currentblocks == maxblocks then 2 * maxblocks else maxblocks;
            currentblocks + 1 <= m && m >= 1
  {
  }
}
