/**
 * lcwrite's length bookkeeping. Each written chunk of `wb` bytes updates
 * the file's `length` and `currentLength` (both `uint32_t`) and a signed
 * `int32_t` count `remFileLength` of old-file bytes still ahead of the
 * write position; a negative remainder left at the end is folded back into
 * the length.
 */
module Accounting {
  import opened Bits

  datatype Acct = Acct(length: u32, cur: u32, rem: int)

  /** The state at the start of lcwrite: `remFileLength = length - currentLength` as `int32_t`. */
  function Start(length: u32, cur: u32): (a: Acct)
    ensures cur <= length < TWO31 ==> a.rem == length - cur
  {
    Acct(length, cur, Wrap32Signed(length - cur))
  }

  /**
   * One chunk of the whole-block loop. `wb > remFileLength` compares with
   * the remainder converted to `uint32_t`; past the old end the length grows
   * by the excess and the position moves to the new end.
   */
  function Chunk(a: Acct, wb: u32): (r: Acct)
  {
    if wb > Wrap32(a.rem) then
      var len := Wrap32(a.length + wb - a.rem);
      Acct(len, len, 0)
    else
      Acct(a.length, Wrap32(a.cur + wb), Wrap32Signed(a.rem - wb))
  }

  /** The first, partial-block chunk as the source writes it: the remainder is not reset and the position moves by the excess only. */
  function FirstChunkAsWritten(a: Acct, wb: u32): (r: Acct)
  {
    if wb > Wrap32(a.rem) then
      Acct(Wrap32(a.length + wb - a.rem), Wrap32(a.cur + wb - a.rem), a.rem)
    else
      Acct(a.length, Wrap32(a.cur + wb), Wrap32Signed(a.rem - wb))
  }

  /** The final correction: a negative remainder is added back to the length. */
  function Finish(a: Acct): (r: Acct)
  {
    if a.rem < 0 then
      var len := Wrap32(a.length - a.rem);
      Acct(len, len, a.rem)
    else a
  }

  /** The bookkeeping of a whole write whose chunks are `chunks`, first chunk included. */
  function Chunks(a: Acct, chunks: seq<u32>): Acct
    decreases |chunks|
  {
    if chunks == [] then a else Chunks(Chunk(a, chunks[0]), chunks[1..])
  }

  function Sum(chunks: seq<u32>): (n: int)
    ensures n >= 0
    decreases |chunks|
  {
    if chunks == [] then 0 else chunks[0] + Sum(chunks[1..])
  }

  /** Bookkeeping one more chunk after `chunks` is one more Chunk step, and the byte count grows by it. */
  lemma {:induction false} ChunksSnoc(a: Acct, chunks: seq<u32>, wb: u32)
    ensures Chunks(a, chunks + [wb]) == Chunk(Chunks(a, chunks), wb)
    ensures Sum(chunks + [wb]) == Sum(chunks) + wb
    decreases |chunks|
  {
    if chunks == [] {
      assert [wb][1..] == [];
    } else {
      assert (chunks + [wb])[1..] == chunks[1..] + [wb];
      ChunksSnoc(Chunk(a, chunks[0]), chunks[1..], wb);
    }
  }

  function Max(a: int, b: int): int { if a >= b then a else b }

  ghost predicate Consistent(a: Acct, oldLength: int)
  {
    a.rem >= 0 && a.cur + a.rem == a.length && oldLength <= a.length < TWO31 && (a.length == oldLength || a.length == a.cur)
  }

  lemma {:induction false} ChunksKeepConsistent(a: Acct, oldLength: int, chunks: seq<u32>)
    requires Consistent(a, oldLength)
    requires a.cur + Sum(chunks) < TWO31
    ensures var r := Chunks(a, chunks);
            Consistent(r, oldLength) && r.cur == a.cur + Sum(chunks)
    decreases |chunks|
  {
    if chunks != [] {
      var wb := chunks[0];
      var b := Chunk(a, wb);
      assert Sum(chunks) == wb + Sum(chunks[1..]);
      assert Wrap32(a.rem) == a.rem;
      if wb > a.rem {
        assert a.length + wb - a.rem == a.cur + wb;
      } else {
        assert Wrap32Signed(a.rem - wb) == a.rem - wb;
      }
      assert b.cur == a.cur + wb;
      ChunksKeepConsistent(b, oldLength, chunks[1..]);
    }
  }

  /**
   * The evidently intended effect of a write of `Sum(chunks)` bytes at
   * position `cur` of a file of `length` bytes: the position advances by
   * the bytes written, and the length becomes the larger of the old length
   * and the new position, i.e. grows by exactly the bytes written past the
   * old end.
   */
  lemma {:induction false} WriteAccounting(length: u32, cur: u32, chunks: seq<u32>)
    requires cur <= length < TWO31
    requires cur + Sum(chunks) < TWO31
    ensures var r := Finish(Chunks(Start(length, cur), chunks));
            && r.cur == cur + Sum(chunks)
            && r.length == Max(length, cur + Sum(chunks))
  {
    var a := Start(length, cur);
    assert Consistent(a, length);
    ChunksKeepConsistent(a, length, chunks);
  }

  /** As written, a first chunk that crosses the old end leaves the position behind the bytes written. */
  lemma FirstChunkAsWrittenLosesPosition()
    ensures var r := Finish(FirstChunkAsWritten(Start(100, 50), 100));
            r.length == 150 && r.cur == 100
    ensures var r := Finish(Chunks(Start(100, 50), [100]));
            r.length == 150 && r.cur == 150
  {
  }

  /** As written, a first chunk that crosses the old end followed by a further chunk under-counts the length. */
  lemma FirstChunkAsWrittenLosesLength()
    ensures var r := Finish(Chunk(FirstChunkAsWritten(Start(100, 50), 194), 106));
            r.length == 300
    ensures var r := Finish(Chunks(Start(100, 50), [194, 106]));
            r.length == 350 && r.cur == 350
  {
    assert Chunks(Start(100, 50), [194, 106]) == Chunks(Chunk(Start(100, 50), 194), [106]);
  }
}
