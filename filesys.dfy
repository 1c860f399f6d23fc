/**
 * The LionCloud file layer (lcopen, lcread, lcwrite, lcseek, lcclose):
 * files are chains of 256-byte device blocks whose first 12 bytes link to
 * the next (device, sector, block), with a device table of per-device
 * allocation cursors and file records, a block cache consulted before every
 * device read, and a bus to the devices.
 */
module FileSys {
  import opened Bits
  import Frame
  import opened Cache
  import opened Bus
  import opened Allocator
  import Accounting
  import opened Transfer
  import opened Table

  /** -1 as an `LcFHandle`: the handle value of a failed lcopen. */
  const FAILED_HANDLE: bv32 := 0xffff_ffff

  /** Capacity lcopen gives the cache each time it (re)initialises it. */
  const CACHE_BLOCKS: int := 256

  /**
   * What lcseek does to the record `f` it found on device slot `dev` when
   * the `size_t` target `off` is within the file: within the first block's
   * payload the record returns to the head of its chain at offset `off`.
   * Beyond it only the low 32 bits `w` of the target are used: when they
   * are 0 the record returns to the head at offset 0; below 2^31 the chain
   * walk either succeeds, leaving position `w` at payload offset `w % 244`,
   * or fails with the position counting the whole payloads passed; from
   * 2^31 on `w` is negative as the source's `int`, no block is walked, the
   * position becomes 0 and the result is negative.
   */
  ghost predicate Sought(f: FileInfo, dev: u32, off: int, r: int, g: FileInfo)
  {
    var w := off % TWO32;
    && SameFile(f, g) && g.length == f.length && g.offset <= PAYLOAD_SIZE
    && (0 <= off <= PAYLOAD_SIZE ==>
          r == off && g == f.(device := dev, sector := f.startSector, block := f.startBlock, offset := off, currentLength := off))
    && (PAYLOAD_SIZE < off && w == 0 ==>
          r == 0 && g == f.(device := dev, sector := f.startSector, block := f.startBlock, offset := 0, currentLength := 0))
    && (PAYLOAD_SIZE < off && 0 < w < TWO31 ==>
          || (r == -1 && g == f.(currentLength := g.currentLength) && g.currentLength <= w && g.currentLength % PAYLOAD_SIZE == 0)
          || (r == w && g.currentLength == w && g.offset == w % PAYLOAD_SIZE))
    && (PAYLOAD_SIZE < off && TWO31 <= w ==> r == Signed32(w) && r < 0 && g == f.(currentLength := 0))
  }

  /**
   * What lcread does to the record `f` it found, asked for `len` bytes:
   * either it fails with -1 and no bytes, or it returns at most `len`
   * bytes, the result being their count as the source's `uint32_t`
   * converted to `int`, and the position advances by that many
   * (`uint32_t`). A request that stays inside the file is satisfied in
   * full unless it fails. The record stays the same file of the same
   * length, also on failure.
   */
  ghost predicate ReadOutcome(f: FileInfo, len: u32, r: int, g: FileInfo, data: seq<byte>)
  {
    && SameFile(f, g) && g.length == f.length && g.offset <= PAYLOAD_SIZE
    && ((r == -1 && data == []) ||
        (|data| <= len && r == Signed32(|data|) && g.currentLength == Wrap32(f.currentLength + |data|)))
    && (f.currentLength + len <= f.length ==> (r == -1 && data == []) || |data| == len)
  }

  /**
   * What lcwrite of `n` bytes does to the record `f` it found, `ok` being
   * whether it returns the byte count: the record stays the same file
   * with an offset within a payload, and a successful write that stays
   * below 2^31 moves the position by `n` and makes the length the larger
   * of the old length and the new position.
   */
  ghost predicate WriteOutcome(f: FileInfo, n: int, ok: bool, g: FileInfo)
  {
    && SameFile(f, g) && g.offset <= PAYLOAD_SIZE
    && (ok && f.currentLength <= f.length < TWO31 && f.currentLength + n < TWO31 ==>
          g.currentLength == f.currentLength + n && g.length == Accounting.Max(f.length, f.currentLength + n))
  }

  /** Every slot below `n` that the probe mask `present` names holds a full device. */
  ghost predicate FullBelow(devices: map<int, DeviceInfo>, present: seq<bool>, n: int)
  {
    forall k :: 0 <= k < n && k < |present| && present[k] ==> k in devices && devices[k].isFull
  }

  /** Changing a slot at or above `n` keeps the full devices below it. */
  lemma FullBelowUpdate(devices: map<int, DeviceInfo>, present: seq<bool>, n: int, i: int, d: DeviceInfo)
    requires n <= i
    ensures FullBelow(devices, present, n) ==> FullBelow(devices[i := d], present, n)
  {
  }

  /** A full device at slot `i` extends the full devices below `i` to those below `i + 1`. */
  lemma FullBelowStep(devices: map<int, DeviceInfo>, present: seq<bool>, i: int)
    requires i in devices && devices[i].isFull
    ensures FullBelow(devices, present, i) ==> FullBelow(devices, present, i + 1)
  {
  }

  /** The outcome of lcopen's allocation loop at one slot the probe names. */
  datatype Claim = Dead | Full | Taken

  /** The cache key for a block: the cache keeps sector and block as `uint16_t`. */
  function KeyOf(device: u32, sector: u32, block: u32): CacheKey
  {
    CacheKey(device, sector % 65536, block % 65536)
  }

  class FileSystem {
    /** deviceInfo[16]: the slots holding a device record. */
    var devices: map<int, DeviceInfo>
    var fileHandleCount: bv32
    var powerOn: bool
    var initDone: bool
    const cache: BlockCache
    const bus: DeviceBus

    /**
     * `after` is `before` with device records added only in empty slots,
     * each one what GetNewLcDeviceInfo builds from that device's answer to
     * the init request.
     */
    ghost predicate Grown(before: map<int, DeviceInfo>, after: map<int, DeviceInfo>)
    {
      && (forall d :: d in before ==> d in after && after[d] == before[d])
      && (forall d :: d in after && d !in before ==>
            d in bus.initResponses && after[d] == FromInitResponse(bus.initResponses[d]))
    }

    /**
     * The effect of lcopen's step 1 on the table and the handle counter.
     * Either no record was created (`home` is -1, the result is the
     * failure value or 0) or device `home`, which was `prior` and not
     * full, gained the record at its cursor, its cursor advanced and the
     * handle packs `home` with the counter's old value.
     */
    ghost predicate Created(before: map<int, DeviceInfo>, after: map<int, DeviceInfo>, count0: bv32, count1: bv32,
                            path: string, fh: bv32, home: int, prior: DeviceInfo)
    {
      if home == -1 then
        count1 == count0 && Grown(before, after) && (fh == FAILED_HANDLE || fh == 0)
      else
        && 0 <= home < MAX_DEVICES && home in after && !prior.isFull
        && fh == Frame.PackHandle(home as bv32, count0) && count1 == count0 + 1
        && Grown(before, after[home := prior])
        && after[home] == Advance(prior.(files := prior.files + [NewFile(count0, home, prior, path)])).0
    }

    /** Device `i` answers the init request with a success status. */
    ghost predicate Answers(i: int)
    {
      i in bus.initResponses && Frame.Succeeded(bus.initResponses[i])
    }

    /**
     * Slot `k` is the first one the probe mask `present` names that does
     * not hold a full device, and it stays empty because the device does
     * not answer the init request.
     */
    ghost predicate DeadAt(devices: map<int, DeviceInfo>, present: seq<bool>, k: int)
    {
      0 <= k < MAX_DEVICES && k < |present| && present[k] && k !in devices && !Answers(k) && FullBelow(devices, present, k)
    }

    /**
     * Why lcopen's step 1 created no record, `fh` being its result and
     * `after` the table it leaves: the probe failed (the failure value);
     * every device the probe names is full (0); or the first named device
     * that is not full has no record and does not answer the init request
     * (the failure value).
     */
    ghost predicate Declined(after: map<int, DeviceInfo>, fh: bv32)
    {
      var mask := Frame.DeviceMask(Frame.FieldD0(bus.probeResponse));
      if !Frame.Succeeded(bus.probeResponse) then fh == FAILED_HANDLE
      else
        && (fh == 0 ==> FullBelow(after, mask, MAX_DEVICES))
        && (fh == FAILED_HANDLE ==> exists k :: DeadAt(after, mask, k))
    }

    /**
     * The effect of lcopen, once the devices are on, on the table and the
     * handle counter: the path is looked up in table order; an open record
     * fails the call and changes nothing, a closed one takes the counter as
     * its handle, and a path no record has is Created, or Declined when no
     * record is created.
     */
    ghost predicate Opened(before: map<int, DeviceInfo>, after: map<int, DeviceInfo>, count0: bv32, count1: bv32,
                           path: string, fh: bv32, home: int, prior: DeviceInfo)
    {
      var (fi, fj) := FindPath(before, path, 0);
      if fi == -1 then Created(before, after, count0, count1, path, fh, home, prior) && (home == -1 ==> Declined(after, fh))
      else if before[fi].files[fj].handle != 0 then fh == FAILED_HANDLE && after == before && count1 == count0
      else fh == count0 && count1 == count0 + 1 && after == SetRecord(before, fi, fj, before[fi].files[fj].(handle := count0))
    }

    ghost predicate Valid()
      reads this, cache
    {
      && cache.Valid()
      && TableOk(devices)
    }

    constructor (bus: DeviceBus)
      ensures Valid() && this.bus == bus && fresh(cache)
      ensures devices == map[] && fileHandleCount == 1 && !powerOn && !initDone
    {
      this.bus := bus;
      cache := new BlockCache(CACHE_BLOCKS);
      devices := map[];
      fileHandleCount := 1;
      powerOn := false;
      initDone := false;
    }

    /**
     * The record lookup lcread, lcwrite, lcseek and lcclose share: device
     * `fh >> 24`, first record whose handle is the nonzero `fh & 0xffffff`.
     * A device slot that is empty or outside the table gives -1.
     */
    method Lookup(fh: bv32) returns (dev: int, j: int)
      ensures dev == Frame.DeviceOfHandle(fh) as int
      ensures j == -1 || (dev in devices && 0 <= j < |devices[dev].files|)
      ensures j == if dev in devices && Frame.HandleOf(fh) != 0 then HandleIndex(devices[dev].files, Frame.HandleOf(fh)) else -1
    {
      dev := Frame.DeviceOfHandle(fh) as int;
      var h := Frame.HandleOf(fh);
      if dev !in devices {
        return dev, -1;
      }
      var files := devices[dev].files;
      j := 0;
      while j < |files|
        invariant 0 <= j <= |files|
        invariant h != 0 ==> forall k :: 0 <= k < j ==> files[k].handle != h
      {
        if files[j].handle == h && h != 0 {
          return dev, j;
        }
        j := j + 1;
      }
      return dev, -1;
    }

    /**
     * Where the file layer gets the block at `a` from: the cache line for
     * its key when there is one, else the device, unless the device fails
     * the transfer.
     */
    ghost function Source(lines: seq<Line>, a: BlockAddr): Option<Block>
      reads bus
    {
      var key := KeyOf(a.device, a.sector, a.block);
      if HasKey(lines, key) then Get(lines, key)
      else if a.device in bus.failing then None
      else Some(bus.Stored(a))
    }

    /** The cache after the block at `a` has been obtained: a hit moves the line to the head, a miss adds one. */
    ghost function AfterFetch(lines: seq<Line>, a: BlockAddr): seq<Line>
      reads bus
    {
      var key := KeyOf(a.device, a.sector, a.block);
      if HasKey(lines, key) then Touch(lines, key)
      else if a.device in bus.failing then lines
      else Put(lines, key, bus.Stored(a))
    }

    /** A block that cannot be obtained is on a device that fails its transfers. */
    lemma SourceMissing(lines: seq<Line>, a: BlockAddr)
      ensures Source(lines, a).None? ==> a.device in bus.failing
    {
    }

    /**
     * A block as the file layer obtains it: from the cache when present
     * (the line moves to the head), else by a read transfer whose result is
     * then put in the cache.
     */
    method Fetch(device: u32, sector: u32, block: u32) returns (ok: bool, data: Block)
      requires cache.Valid()
      modifies cache
      ensures cache.Valid()
      ensures ok == Source(old(cache.lines), BlockAddr(device, sector, block)).Some?
      ensures ok ==> data == Source(old(cache.lines), BlockAddr(device, sector, block)).value
      ensures cache.lines == AfterFetch(old(cache.lines), BlockAddr(device, sector, block))
    {
      var key := KeyOf(device, sector, block);
      var found, cached := cache.GetCache(key);
      if found {
        return true, cached;
      }
      ok, data := bus.ReadBlock(BlockAddr(device, sector, block));
      if !ok {
        return;
      }
      var _ := cache.PutCache(key, data);
    }

    /** lcclose: the matching record's handle becomes 0 and nothing else changes; -1 when there is none. */
    method Close(fh: bv32) returns (r: int)
      requires Valid()
      modifies this
      ensures Valid()
      ensures var dev, h := Frame.DeviceOfHandle(fh) as int, Frame.HandleOf(fh);
              var j := if dev in old(devices) && h != 0 then HandleIndex(old(devices)[dev].files, h) else -1;
              && (r == -1 <==> j == -1)
              && (r == 0 ==> devices == SetRecord(old(devices), dev, j, old(devices)[dev].files[j].(handle := 0)))
              && (r == -1 ==> devices == old(devices))
      ensures r == 0 || r == -1
      ensures fileHandleCount == old(fileHandleCount) && powerOn == old(powerOn) && initDone == old(initDone)
    {
      var dev, j := Lookup(fh);
      if j == -1 {
        return -1;
      }
      var f := devices[dev].files[j].(handle := 0);
      SetRecordKeepsTable(devices, dev, j, f);
      devices := SetRecord(devices, dev, j, f);
      return 0;
    }

    /**
     * The chain walk of lcseek: from (device, sector, block), one block per
     * 244 payload bytes of `total`, staying on a block whose link is the
     * end-of-chain sentinel. On success it ends on the block that holds
     * position `total`, at payload offset `total % 244`; on failure
     * `walked` counts the payload bytes passed before the block that could
     * not be obtained.
     */
    method Walk(device: u32, sector: u32, block: u32, total: int)
      returns (ok: bool, atDevice: u32, atSector: u32, atBlock: u32, walked: int)
      requires cache.Valid() && 0 < total
      modifies cache
      ensures cache.Valid()
      ensures 0 <= walked <= total && walked % PAYLOAD_SIZE == 0
      ensures ok ==> walked == total - total % PAYLOAD_SIZE
      ensures !ok ==> bus.failing != {}
    {
      var rem := total;
      atDevice, atSector, atBlock := device, sector, block;
      while rem > 0
        invariant cache.Valid()
        invariant 0 <= rem <= total && (total - rem) % PAYLOAD_SIZE == 0
        decreases rem
      {
        SourceMissing(cache.lines, BlockAddr(atDevice, atSector, atBlock));
        var found, b := Fetch(atDevice, atSector, atBlock);
        if !found {
          return false, atDevice, atSector, atBlock, total - rem;
        }
        if rem < PAYLOAD_SIZE {
          return true, atDevice, atSector, atBlock, total - rem;
        }
        rem := rem - PAYLOAD_SIZE;
        var link := HeaderOf(b);
        if !(link.sector == SENTINEL && link.block == SENTINEL) {
          atDevice, atSector, atBlock := link.device, link.sector, link.block;
        }
      }
      return true, atDevice, atSector, atBlock, total;
    }

    /**
     * lcseek on the record `f` of device slot `dev`, once found and with the
     * target within the file's length. The full `size_t` target `off`
     * decides whether the first block's payload holds it; beyond it the
     * chain is walked from its head for `(int) off` bytes, the low 32 bits.
     * A block that cannot be obtained fails the seek, leaving the position
     * count partly rebuilt; with no failing device the seek reaches its
     * target.
     */
    method SeekRecord(f: FileInfo, dev: u32, off: int) returns (r: int, g: FileInfo)
      requires cache.Valid() && f.offset <= PAYLOAD_SIZE && 0 <= off
      modifies cache
      ensures cache.Valid()
      ensures Sought(f, dev, off, r, g)
      ensures bus.failing == {} && 0 < off % TWO32 < TWO31 ==> r == off % TWO32
    {
      if off <= PAYLOAD_SIZE {
        return off, f.(device := dev, sector := f.startSector, block := f.startBlock, offset := off, currentLength := off);
      }
      var w := off % TWO32;
      if w == 0 {
        return 0, f.(device := dev, sector := f.startSector, block := f.startBlock, offset := 0, currentLength := 0);
      }
      if TWO31 <= w {
        return Signed32(w), f.(currentLength := 0);
      }
      var ok, device, sector, block, walked := Walk(dev, f.startSector, f.startBlock, w);
      if ok {
        return w, f.(device := device, sector := sector, block := block, offset := w % PAYLOAD_SIZE, currentLength := w);
      }
      return -1, f.(currentLength := walked);
    }

    /** lcseek: -1 for a handle with no open record or a target past the end; otherwise SeekRecord on the record. */
    method Seek(fh: bv32, off: int) returns (r: int)
      requires Valid() && 0 <= off < TWO64
      modifies this, cache
      ensures Valid()
      ensures fileHandleCount == old(fileHandleCount) && powerOn == old(powerOn) && initDone == old(initDone)
      ensures var dev, h := Frame.DeviceOfHandle(fh), Frame.HandleOf(fh);
              var j := if dev as int in old(devices) && h != 0 then HandleIndex(old(devices)[dev as int].files, h) else -1;
              && (j == -1 ==> r == -1 && devices == old(devices))
              && (j != -1 ==>
                    var f := old(devices)[dev as int].files[j];
                    && (f.length < off % TWO32 ==> r == -1 && devices == old(devices))
                    && (off % TWO32 <= f.length ==>
                          && dev as int in devices && j < |devices[dev as int].files|
                          && var g := devices[dev as int].files[j];
                             && devices == SetRecord(old(devices), dev as int, j, g) && Sought(f, dev as int, off, r, g)
                             && (bus.failing == {} && 0 < off % TWO32 < TWO31 ==> r == off % TWO32)))
    {
      var dev, j := Lookup(fh);
      if j == -1 {
        return -1;
      }
      var f := devices[dev].files[j];
      if f.length < off % TWO32 {
        return -1;
      }
      var g;
      r, g := SeekRecord(f, dev as u32, off);
      SetRecordKeepsTable(devices, dev, j, g);
      devices := SetRecord(devices, dev, j, g);
    }

    /**
     * One iteration of lcread's block loop on the block the record is
     * positioned on, taken from the cache or the device; false exactly
     * when that block cannot be obtained.
     */
    method ReadNext(st: ReadState) returns (found: bool, step: ReadStep)
      requires cache.Valid() && st.f.offset == 0
      modifies cache
      ensures cache.Valid()
      ensures var src := old(Source(cache.lines, BlockAddr(st.f.device, st.f.sector, st.f.block)));
              && (found <==> src.Some?)
              && (found ==> step == ReadBlockStep(st, src.value))
      ensures cache.lines == AfterFetch(old(cache.lines), BlockAddr(st.f.device, st.f.sector, st.f.block))
    {
      var b;
      found, b := Fetch(st.f.device, st.f.sector, st.f.block);
      step := ReadBlockStep(st, b);
    }

    /**
     * lcread's first step on the block the record is positioned on, taken
     * from the cache or the device; false exactly when that block cannot
     * be obtained.
     */
    method ReadFirstAt(st: ReadState) returns (found: bool, st': ReadState)
      requires cache.Valid() && st.f.offset <= PAYLOAD_SIZE
      modifies cache
      ensures cache.Valid()
      ensures var src := old(Source(cache.lines, BlockAddr(st.f.device, st.f.sector, st.f.block)));
              && (found <==> src.Some?)
              && (found ==> st' == ReadFirst(st, src.value))
      ensures cache.lines == AfterFetch(old(cache.lines), BlockAddr(st.f.device, st.f.sector, st.f.block))
    {
      var b;
      found, b := Fetch(st.f.device, st.f.sector, st.f.block);
      st' := ReadFirst(st, b);
    }

    /**
     * The start of lcread on record `f`: the remainder of the file is
     * `length - currentLength` as `uint32_t`, and when the offset is inside
     * a block the first step copies from it; false exactly when that block
     * cannot be obtained.
     */
    method StartRead(f: FileInfo, len: u32) returns (found: bool, st: ReadState)
      requires cache.Valid() && f.offset <= PAYLOAD_SIZE
      modifies cache
      ensures cache.Valid()
      ensures found <==> f.offset == 0 || old(Source(cache.lines, BlockAddr(f.device, f.sector, f.block))).Some?
      ensures !found ==> bus.failing != {}
      ensures st.f.offset <= PAYLOAD_SIZE && (found && st.remRead > 0 ==> st.f.offset == 0)
      ensures SameFile(f, st.f) && st.f.length == f.length
      ensures st.f.currentLength == Wrap32(f.currentLength + |st.out|) && |st.out| == len - st.remRead
      ensures f.currentLength + len <= f.length ==> st.remFile >= st.remRead
    {
      st := ReadState(f, len, Wrap32(f.length - f.currentLength), []);
      found := true;
      if f.offset > 0 {
        SourceMissing(cache.lines, BlockAddr(f.device, f.sector, f.block));
        var first;
        found, first := ReadFirstAt(st);
        if found {
          st := first;
        }
      }
    }

    /**
     * lcread's block loop, from the start of a block's payload: whole
     * payloads, then the tail of the request, while both the request and
     * the file have bytes left. Fails when a block cannot be obtained or
     * the file ends before the request does. A file that holds the whole
     * request always satisfies it unless a block cannot be obtained.
     */
    method ReadBlocks(st0: ReadState) returns (ok: bool, st: ReadState)
      requires cache.Valid()
      requires st0.f.offset <= PAYLOAD_SIZE && (st0.remRead > 0 ==> st0.f.offset == 0)
      modifies cache
      ensures cache.Valid()
      ensures ReadFrom(st0, st)
      ensures ok && st0.remFile >= st0.remRead ==> st.remRead == 0
      ensures !ok ==> bus.failing != {} || st0.remFile < st0.remRead
    {
      st := st0;
      while st.remRead > 0 && st.remFile > 0
        invariant cache.Valid() && ReadFrom(st0, st)
        decreases st.remRead
      {
        ghost var src := Source(cache.lines, BlockAddr(st.f.device, st.f.sector, st.f.block));
        SourceMissing(cache.lines, BlockAddr(st.f.device, st.f.sector, st.f.block));
        var found, step := ReadNext(st);
        if !found {
          return false, st;
        }
        ReadStepKeeps(st0, st, src.value);
        if step.Short? {
          return false, st;
        }
        st := step.s;
        if step.Tail? {
          break;
        }
      }
      return true, st;
    }

    /**
     * lcread on the record `f` once it has been found: a first partial
     * block when the offset is inside a block, then the block loop.
     * `g` is the record as the read leaves it, also on failure. With no
     * failing device a request inside the file is satisfied in full.
     */
    method ReadRecord(f: FileInfo, len: u32) returns (r: int, g: FileInfo, data: seq<byte>)
      requires cache.Valid() && f.offset <= PAYLOAD_SIZE
      modifies cache
      ensures cache.Valid()
      ensures ReadOutcome(f, len, r, g, data)
      ensures bus.failing == {} && f.currentLength + len <= f.length ==> |data| == len && r == Signed32(len)
    {
      var found, st := StartRead(f, len);
      if !found {
        return -1, f, [];
      }
      var ok, st' := ReadBlocks(st);
      WrapAdd(f.currentLength + |st.out|, |st'.out| - |st.out|);
      if !ok {
        return -1, st'.f, [];
      }
      return Signed32(|st'.out|), st'.f, st'.out;
    }

    /**
     * lcread of up to `len` bytes (`len` as the `uint32_t` the source
     * converts it to). The record is updated as the read goes, and a
     * failure leaves the updates made so far. A read that stays inside the
     * file returns the whole request unless it fails, and with no failing
     * device it does not fail.
     */
    method Read(fh: bv32, len: u32) returns (r: int, data: seq<byte>)
      requires Valid()
      modifies this, cache
      ensures Valid()
      ensures fileHandleCount == old(fileHandleCount) && powerOn == old(powerOn) && initDone == old(initDone)
      ensures var dev, h := Frame.DeviceOfHandle(fh) as int, Frame.HandleOf(fh);
              var j := if dev in old(devices) && h != 0 then HandleIndex(old(devices)[dev].files, h) else -1;
              && (j == -1 ==> r == -1 && data == [] && devices == old(devices))
              && (j != -1 ==>
                    && dev in devices && j < |devices[dev].files|
                    && var g := devices[dev].files[j];
                       && devices == SetRecord(old(devices), dev, j, g) && ReadOutcome(old(devices)[dev].files[j], len, r, g, data)
                       && (bus.failing == {} && old(devices)[dev].files[j].currentLength + len <= old(devices)[dev].files[j].length ==>
                             |data| == len && r == Signed32(len)))
    {
      var dev, j := Lookup(fh);
      if j == -1 {
        return -1, [];
      }
      var g;
      r, g, data := ReadRecord(devices[dev].files[j], len);
      SetRecordKeepsTable(devices, dev, j, g);
      devices := SetRecord(devices, dev, j, g);
    }

    /**
     * One chunk of lcwrite on the block the record `f` is positioned on:
     * obtain the block, decide its link (allocating on the table `devs` when
     * the chain has no successor), send it back with `data` at payload
     * offset `at`, and put the sent block in the cache whatever the
     * transfer's status, which is `sent`. Not `ok` when the block cannot be
     * obtained or the allocation is undefined.
     */
    /**
     * What lcwrite does with the block `b` it obtained: the next device is
     * searched for only when the chain needs a new block and the record's
     * device has run out of room.
     */
    method ChunkPlan(devs: map<int, DeviceInfo>, f: FileInfo, b: Block, at: int, data: seq<byte>, eof: bool) returns (p: Plan)
      requires TableOk(devs) && 0 <= at && at + |data| <= PAYLOAD_SIZE
      ensures p == PlanChunk(devs, f, b, at, data, eof, NextDevice(devs, f.device, 0))
    {
      var next := NO_DEVICE;
      if !Overwrites(HeaderOf(b)) && !eof && f.device in devs && Exhausted(devs[f.device]) {
        next := GetNextDeviceId(devs, f.device);
      }
      p := PlanChunk(devs, f, b, at, data, eof, next);
    }

    method WriteChunk(devs: map<int, DeviceInfo>, f: FileInfo, at: int, data: seq<byte>, eof: bool)
      returns (ok: bool, sent: bool, p: Plan)
      requires cache.Valid() && TableOk(devs) && 0 <= at && at + |data| <= PAYLOAD_SIZE
      modifies cache, bus
      ensures cache.Valid()
      ensures var a := BlockAddr(f.device, f.sector, f.block);
              var src := old(Source(cache.lines, a));
              && (ok <==> src.Some? && PlanChunk(devs, f, src.value, at, data, eof, NextDevice(devs, f.device, 0)).Plan?)
              && (ok ==> && p == PlanChunk(devs, f, src.value, at, data, eof, NextDevice(devs, f.device, 0))
                         && (sent <==> f.device !in bus.failing)
                         && bus.blocks == (if sent then old(bus.blocks)[a := p.block] else old(bus.blocks))
                         && cache.lines == Put(old(AfterFetch(cache.lines, a)), KeyOf(f.device, f.sector, f.block), p.block))
              && (!ok ==> bus.blocks == old(bus.blocks))
      ensures ok ==> p.Plan? && TableOk(p.devices) && SameRecords(devs, p.devices)
    {
      var found, b := Fetch(f.device, f.sector, f.block);
      if !found {
        return false, false, Undefined;
      }
      p := ChunkPlan(devs, f, b, at, data, eof);
      PlanChunkSpec(devs, f, b, at, data, eof);
      if p.Undefined? {
        return false, false, p;
      }
      sent := bus.WriteBlock(BlockAddr(f.device, f.sector, f.block), p.block);
      var _ := cache.PutCache(KeyOf(f.device, f.sector, f.block), p.block);
      ok := true;
    }

    /**
     * A chunk as lcwrite's two branches see it: the plan carried out for
     * the block obtained, the table invariant, whether the transfer went
     * through, and why a chunk fails: its device fails its transfers, or
     * the chain needs a new block and no device has room for one.
     */
    method ChunkAt(devs: map<int, DeviceInfo>, f: FileInfo, at: int, data: seq<byte>, eof: bool)
      returns (ok: bool, sent: bool, p: Plan)
      requires cache.Valid() && TableOk(devs) && 0 <= at && at + |data| <= PAYLOAD_SIZE
      modifies cache, bus
      ensures cache.Valid()
      ensures var src := old(Source(cache.lines, BlockAddr(f.device, f.sector, f.block)));
              && (ok <==> src.Some? && PlanChunk(devs, f, src.value, at, data, eof, NextDevice(devs, f.device, 0)).Plan?)
              && (ok ==> p == PlanChunk(devs, f, src.value, at, data, eof, NextDevice(devs, f.device, 0)))
      ensures ok ==> p.Plan? && TableOk(p.devices) && SameRecords(devs, p.devices) && (sent <==> f.device !in bus.failing)
      ensures !ok ==> f.device in bus.failing || OutOfRoom(devs, f.device)
    {
      ghost var src := Source(cache.lines, BlockAddr(f.device, f.sector, f.block));
      SourceMissing(cache.lines, BlockAddr(f.device, f.sector, f.block));
      if src.Some? {
        PlanChunkSpec(devs, f, src.value, at, data, eof);
      }
      ok, sent, p := WriteChunk(devs, f, at, data, eof);
    }

    /**
     * The first branch of lcwrite, taken when the record's offset is inside
     * a block: a chunk up to the end of that block, or the whole write when
     * it ends sooner. Its transfer status is not consulted. The bookkeeping
     * is the corrected one (Accounting.Chunk).
     */
    method WriteFirst(devs: map<int, DeviceInfo>, f: FileInfo, buf: seq<byte>)
      returns (ok: bool, devs': map<int, DeviceInfo>, g: FileInfo, acct: Accounting.Acct, pos: int, ghost chunks: seq<u32>)
      requires cache.Valid() && TableOk(devs) && f.offset <= PAYLOAD_SIZE
      modifies cache, bus
      ensures cache.Valid() && TableOk(devs') && SameRecords(devs, devs')
      ensures SameFile(f, g) && g.offset <= PAYLOAD_SIZE && 0 <= pos <= |buf|
      ensures ok && pos < |buf| ==> g.offset == 0
      ensures acct == Accounting.Chunks(Accounting.Start(f.length, f.currentLength), chunks) && Accounting.Sum(chunks) == pos
      ensures g.length == acct.length && g.currentLength == acct.cur
      ensures !ok ==> bus.failing != {} || OutOfRoom(devs', g.device)
    {
      devs', g, pos, chunks := devs, f, 0, [];
      acct := Accounting.Start(f.length, f.currentLength);
      if f.offset == 0 {
        return true, devs', g, acct, pos, chunks;
      }
      var room := PAYLOAD_SIZE - f.offset;
      var eof := |buf| < room;
      var wb := if eof then |buf| else room;
      var sent, p;
      ok, sent, p := ChunkAt(devs, f, f.offset, buf[..wb], eof);
      if !ok {
        return;
      }
      devs' := p.devices;
      if eof {
        g := g.(offset := g.offset + wb);
      } else {
        g := g.(device := p.link.device, sector := p.link.sector, block := p.link.block, offset := 0);
      }
      assert Accounting.Chunks(acct, [wb]) == Accounting.Chunk(acct, wb) by {
        Accounting.ChunksSnoc(acct, [], wb);
      }
      acct := Accounting.Chunk(acct, wb);
      g := g.(length := acct.length, currentLength := acct.cur);
      pos, chunks := wb, [wb];
    }

    /**
     * One pass of lcwrite's whole-block loop: `data` written at the start
     * of the record's current block's payload. On success the record moves
     * on by the bytes written, or to the block linked next when the chunk is
     * not the last; when the transfer fails it names the device an
     * allocation moved to. A failed chunk changes nothing.
     */
    method WriteStep(devs: map<int, DeviceInfo>, g: FileInfo, data: seq<byte>, eof: bool)
      returns (ok: bool, sent: bool, devs': map<int, DeviceInfo>, g': FileInfo)
      requires cache.Valid() && TableOk(devs) && g.offset == 0 && 0 < |data| <= PAYLOAD_SIZE
      requires !eof ==> |data| == PAYLOAD_SIZE
      modifies cache, bus
      ensures cache.Valid() && TableOk(devs') && SameRecords(devs, devs')
      ensures SameFile(g, g') && g'.offset <= PAYLOAD_SIZE && g'.length == g.length && g'.currentLength == g.currentLength
      ensures ok && sent && !eof ==> g'.offset == 0
      ensures ok ==> (sent <==> g.device !in bus.failing)
      ensures !ok ==> devs' == devs && g' == g && (g.device in bus.failing || OutOfRoom(devs, g.device))
    {
      var p;
      ok, sent, p := ChunkAt(devs, g, 0, data, eof);
      if !ok {
        return false, false, devs, g;
      }
      devs' := p.devices;
      if !sent {
        g' := g.(device := p.device);
      } else if eof {
        g' := g.(offset := |data|);
      } else {
        g' := g.(device := p.link.device, sector := p.link.sector, block := p.link.block, offset := 0);
      }
    }

    /**
     * The whole-block loop of lcwrite from byte `pos` of `buf`, the record
     * `g` at the start of a block's payload: chunks of 244 bytes, the last
     * one shorter or equal, each written at the start of a payload. Fails
     * when a block cannot be obtained or a transfer fails; the record then
     * names the device an allocation moved to.
     */
    method WriteLoop(devs: map<int, DeviceInfo>, g0: FileInfo, buf: seq<byte>, pos0: int, acct0: Accounting.Acct,
                     ghost a: Accounting.Acct, ghost chunks0: seq<u32>)
      returns (ok: bool, devs': map<int, DeviceInfo>, g: FileInfo, acct: Accounting.Acct, ghost chunks: seq<u32>)
      requires cache.Valid() && TableOk(devs) && g0.offset <= PAYLOAD_SIZE && 0 <= pos0 <= |buf|
      requires pos0 < |buf| ==> g0.offset == 0
      requires acct0 == Accounting.Chunks(a, chunks0) && Accounting.Sum(chunks0) == pos0
      requires g0.length == acct0.length && g0.currentLength == acct0.cur
      modifies cache, bus
      ensures cache.Valid() && TableOk(devs') && SameRecords(devs, devs')
      ensures SameFile(g0, g) && g.offset <= PAYLOAD_SIZE
      ensures ok ==> acct == Accounting.Chunks(a, chunks) && Accounting.Sum(chunks) == |buf|
      ensures ok ==> g.length == acct.length && g.currentLength == acct.cur
      ensures !ok ==> bus.failing != {} || OutOfRoom(devs', g.device)
    {
      devs', g, acct, chunks := devs, g0, acct0, chunks0;
      var pos := pos0;
      while pos < |buf|
        invariant 0 <= pos <= |buf|
        invariant cache.Valid() && TableOk(devs') && SameRecords(devs, devs')
        invariant SameFile(g0, g) && g.offset <= PAYLOAD_SIZE && (pos < |buf| ==> g.offset == 0)
        invariant acct == Accounting.Chunks(a, chunks) && Accounting.Sum(chunks) == pos
        invariant g.length == acct.length && g.currentLength == acct.cur
        decreases |buf| - pos
      {
        var eof := |buf| - pos <= PAYLOAD_SIZE;
        var wb := if eof then |buf| - pos else PAYLOAD_SIZE;
        var sent, mid;
        ok, sent, mid, g := WriteStep(devs', g, buf[pos..pos + wb], eof);
        SameRecordsTrans(devs, devs', mid);
        devs' := mid;
        if !ok || !sent {
          return false, devs', g, acct, chunks;
        }
        Accounting.ChunksSnoc(a, chunks, wb);
        acct := Accounting.Chunk(acct, wb);
        chunks := chunks + [wb];
        pos := pos + wb;
        g := g.(length := acct.length, currentLength := acct.cur);
      }
      ok := true;
    }

    /**
     * lcwrite on the record `f` of the table `devs`: the first branch, the
     * whole-block loop, then the final correction of the length. `devs'` is
     * the table the write leaves, also on failure: the allocations made.
     */
    method WriteFile(devs: map<int, DeviceInfo>, f: FileInfo, buf: seq<byte>)
      returns (ok: bool, devs': map<int, DeviceInfo>, g: FileInfo)
      requires cache.Valid() && TableOk(devs) && f.offset <= PAYLOAD_SIZE
      modifies cache, bus
      ensures cache.Valid() && TableOk(devs') && SameRecords(devs, devs')
      ensures WriteOutcome(f, |buf|, ok, g)
      ensures !ok ==> bus.failing != {} || OutOfRoom(devs', g.device)
    {
      var acct, pos;
      ghost var chunks;
      ok, devs', g, acct, pos, chunks := WriteFirst(devs, f, buf);
      if ok {
        var mid;
        ok, mid, g, acct, chunks := WriteLoop(devs', g, buf, pos, acct, Accounting.Start(f.length, f.currentLength), chunks);
        SameRecordsTrans(devs, devs', mid);
        devs' := mid;
      }
      if ok {
        acct := Accounting.Finish(acct);
        g := g.(length := acct.length, currentLength := acct.cur);
        if f.currentLength <= f.length < TWO31 && f.currentLength + |buf| < TWO31 {
          Accounting.WriteAccounting(f.length, f.currentLength, chunks);
        }
      }
    }

    /**
     * lcwrite on record `j` of device slot `dev` of the table `devs`: the
     * record written back over the table the write leaves.
     */
    method WriteRecord(devs: map<int, DeviceInfo>, dev: int, j: int, buf: seq<byte>)
      returns (ok: bool, devs': map<int, DeviceInfo>)
      requires cache.Valid() && TableOk(devs) && dev in devs && 0 <= j < |devs[dev].files|
      modifies cache, bus
      ensures cache.Valid() && TableOk(devs')
      ensures dev in devs' && j < |devs'[dev].files|
      ensures SameRecords(SetRecord(devs, dev, j, devs'[dev].files[j]), devs')
      ensures WriteOutcome(devs[dev].files[j], |buf|, ok, devs'[dev].files[j])
      ensures !ok ==> bus.failing != {} || OutOfRoom(devs', devs'[dev].files[j].device)
    {
      var f := devs[dev].files[j];
      var mid, g;
      ok, mid, g := WriteFile(devs, f, buf);
      assert dev in mid && mid[dev].files == devs[dev].files;
      SetRecordKeepsTable(mid, dev, j, g);
      SetRecordSameRecords(devs, mid, dev, j, g);
      SetRecordKeepsRoom(mid, dev, j, g, g.device);
      devs' := SetRecord(mid, dev, j, g);
      assert devs'[dev].files[j] == g;
    }

    /**
     * lcwrite of `buf` (its length as the `uint32_t` the source converts
     * it to): the number of bytes written, as the source's `int`, or -1.
     * Only the written record changes, apart from the allocation cursors
     * and full flags of the devices.
     */
    method Write(fh: bv32, buf: seq<byte>) returns (r: int)
      requires Valid() && |buf| < TWO32
      modifies this, cache, bus
      ensures Valid()
      ensures fileHandleCount == old(fileHandleCount) && powerOn == old(powerOn) && initDone == old(initDone)
      ensures var dev, h := Frame.DeviceOfHandle(fh) as int, Frame.HandleOf(fh);
              var j := if dev in old(devices) && h != 0 then HandleIndex(old(devices)[dev].files, h) else -1;
              && (j == -1 ==> r == -1 && devices == old(devices))
              && (j != -1 ==>
                    && dev in devices && j < |devices[dev].files|
                    && var g := devices[dev].files[j];
                       && SameRecords(SetRecord(old(devices), dev, j, g), devices)
                       && (r == -1 || r == Signed32(|buf|))
                       && WriteOutcome(old(devices)[dev].files[j], |buf|, r != -1, g)
                       && (r != Signed32(|buf|) ==> bus.failing != {} || OutOfRoom(devices, g.device)))
    {
      var dev, j := Lookup(fh);
      if j == -1 {
        return -1;
      }
      var ok, after := WriteRecord(devices, dev, j, buf);
      devices := after;
      r := if ok then Signed32(|buf|) else -1;
    }

    /**
     * The search of lcopen's step 0: the first (device slot, record) in
     * table order whose path is `path`.
     */
    method Search(path: string) returns (i: int, j: int)
      ensures (i, j) == FindPath(devices, path, 0)
    {
      i := 0;
      while i < MAX_DEVICES
        invariant 0 <= i <= MAX_DEVICES
        invariant FindPath(devices, path, 0) == FindPath(devices, path, i)
      {
        if i in devices {
          var files := devices[i].files;
          j := 0;
          while j < |files|
            invariant 0 <= j <= |files|
            invariant forall k :: 0 <= k < j ==> files[k].path != path
          {
            if files[j].path == path {
              return i, j;
            }
            j := j + 1;
          }
        }
        i := i + 1;
      }
      return -1, -1;
    }

    /**
     * GetNewLcDeviceInfo: the init request to device `i`; on a success
     * status the record built from the response's geometry.
     */
    method NewDevice(i: int) returns (ok: bool, d: DeviceInfo)
      requires 0 <= i < MAX_DEVICES
      ensures ok <==> i in bus.initResponses && Frame.Succeeded(bus.initResponses[i])
      ensures ok ==> d == FromInitResponse(bus.initResponses[i])
    {
      var response := bus.DevInit(i);
      ok := Frame.Succeeded(response);
      d := FromInitResponse(response);
    }

    /** Fills an empty slot `i` with a new device record; an occupied slot is left as it is. */
    method AddDevice(i: int) returns (ok: bool)
      requires TableOk(devices) && 0 <= i < MAX_DEVICES
      modifies this
      ensures TableOk(devices) && Grown(old(devices), devices)
      ensures ok <==> i in devices
      ensures i in devices <==> i in old(devices) || (i in bus.initResponses && Frame.Succeeded(bus.initResponses[i]))
      ensures i in old(devices) ==> devices == old(devices)
      ensures devices.Keys <= old(devices).Keys + {i}
      ensures fileHandleCount == old(fileHandleCount) && powerOn == old(powerOn) && initDone == old(initDone)
    {
      if i in devices {
        return true;
      }
      var created, d := NewDevice(i);
      if !created {
        return false;
      }
      AddDeviceKeepsTable(devices, i, d);
      devices := devices[i := d];
      return true;
    }

    /** Device records added by the init request have no files, so a path no record had is still unused. */
    lemma GrownKeepsNoPath(before: map<int, DeviceInfo>, after: map<int, DeviceInfo>, path: string)
      requires Grown(before, after) && NoPath(before, path)
      ensures NoPath(after, path)
    {
    }

    /**
     * The first loop of lcopen's step 1: every device the probe mask names
     * gets a record if it has none and answers the init request; no other
     * slot is filled.
     */
    method InitDevices(present: seq<bool>)
      requires |present| == MAX_DEVICES
      requires TableOk(devices)
      modifies this
      ensures TableOk(devices) && Grown(old(devices), devices)
      ensures forall k :: k in devices && k !in old(devices) ==> 0 <= k < MAX_DEVICES && present[k]
      ensures forall k :: 0 <= k < MAX_DEVICES && present[k] ==>
                (k in devices <==> k in old(devices) || (k in bus.initResponses && Frame.Succeeded(bus.initResponses[k])))
      ensures fileHandleCount == old(fileHandleCount) && powerOn == old(powerOn) && initDone == old(initDone)
    {
      var i := 0;
      while i < MAX_DEVICES
        invariant 0 <= i <= MAX_DEVICES
        invariant TableOk(devices) && Grown(old(devices), devices)
        invariant forall k :: k in devices && k !in old(devices) ==> 0 <= k < i && present[k]
        invariant forall k :: 0 <= k < i && present[k] ==>
                    (k in devices <==> k in old(devices) || (k in bus.initResponses && Frame.Succeeded(bus.initResponses[k])))
        invariant fileHandleCount == old(fileHandleCount) && powerOn == old(powerOn) && initDone == old(initDone)
      {
        if present[i] {
          var _ := AddDevice(i);
        }
        i := i + 1;
      }
    }

    /** lcopen's device initialisation, done on the first call that reaches step 1 only. */
    method InitOnce(present: seq<bool>)
      requires |present| == MAX_DEVICES
      requires TableOk(devices)
      modifies this
      ensures TableOk(devices) && Grown(old(devices), devices) && initDone
      ensures old(initDone) ==> devices == old(devices)
      ensures !old(initDone) ==> forall k :: 0 <= k < MAX_DEVICES && present[k] ==>
                (k in devices <==> k in old(devices) || (k in bus.initResponses && Frame.Succeeded(bus.initResponses[k])))
      ensures fileHandleCount == old(fileHandleCount) && powerOn == old(powerOn)
    {
      if !initDone {
        InitDevices(present);
        initDone := true;
      }
    }

    /**
     * A new record for `path` at the cursor of device `i`, which is not
     * full: the record takes the handle counter, the cursor advances, and
     * the result is the device packed with the handle.
     */
    method PlaceFile(i: int, path: string) returns (fh: bv32)
      requires TableOk(devices) && NoPath(devices, path) && i in devices && !devices[i].isFull
      modifies this
      ensures TableOk(devices)
      ensures 0 <= i < MAX_DEVICES
      ensures var d := old(devices)[i];
              devices == old(devices)[i := Advance(d.(files := d.files + [NewFile(old(fileHandleCount), i, d, path)])).0]
      ensures fh == Frame.PackHandle(i as bv32, old(fileHandleCount)) && fileHandleCount == old(fileHandleCount) + 1
      ensures powerOn == old(powerOn) && initDone == old(initDone)
    {
      var d := devices[i];
      var f := NewFile(fileHandleCount, i, d, path);
      AppendFileKeepsTable(devices, i, f);
      devices := devices[i := d.(files := d.files + [f])];
      SetDeviceKeepsTable(devices, i, Advance(devices[i]).0);
      devices := devices[i := Advance(devices[i]).0];
      fh := Frame.PackHandle(i as bv32, fileHandleCount);
      fileHandleCount := fileHandleCount + 1;
    }

    lemma GrownTrans(a: map<int, DeviceInfo>, b: map<int, DeviceInfo>, c: map<int, DeviceInfo>)
      requires Grown(a, b) && Grown(b, c)
      ensures Grown(a, c)
    {
    }

    /** Records added by the init request before step 1 allocates do not change what it created. */
    lemma {:induction false} GrownThenCreated(a: map<int, DeviceInfo>, b: map<int, DeviceInfo>, c: map<int, DeviceInfo>,
                                              count0: bv32, count1: bv32, path: string, fh: bv32, home: int, prior: DeviceInfo)
      requires Grown(a, b) && Created(b, c, count0, count1, path, fh, home, prior)
      ensures Created(a, c, count0, count1, path, fh, home, prior)
    {
      if home == -1 {
        GrownTrans(a, b, c);
      } else {
        GrownTrans(a, b, c[home := prior]);
      }
    }

    /** A table that only gains devices keeps the full devices it had. */
    lemma GrownKeepsFullBelow(a: map<int, DeviceInfo>, b: map<int, DeviceInfo>, present: seq<bool>, n: int)
      requires Grown(a, b)
      ensures FullBelow(a, present, n) ==> FullBelow(b, present, n)
    {
    }

    /**
     * lcopen's second loop has passed the slots below `i`: the table, which
     * only gained the records the init request added to `origin`, still
     * has no record for `path`, the handle counter is still `count`, and
     * every slot below `i` the probe mask `present` names holds a full
     * device.
     */
    ghost predicate Scanned(origin: map<int, DeviceInfo>, path: string, present: seq<bool>, count: bv32, i: int)
      reads this
    {
      && TableOk(devices) && Grown(origin, devices) && NoPath(devices, path)
      && fileHandleCount == count && FullBelow(devices, present, i)
    }

    /**
     * How lcopen's second loop ends, from the table `origin` and the handle
     * counter `count`: the table invariant holds and `path` was Created;
     * a record goes to slot `home`, named by `present` with every named
     * slot before it full; no record and the result 0 means every named
     * slot is full; no record and the failure value means some named slot
     * is DeadAt.
     */
    ghost predicate Placed(origin: map<int, DeviceInfo>, path: string, present: seq<bool>, count: bv32,
                           fh: bv32, home: int, prior: DeviceInfo)
      reads this
    {
      && TableOk(devices)
      && Created(origin, devices, count, fileHandleCount, path, fh, home, prior)
      && (home != -1 ==> 0 <= home < |present| && present[home] && FullBelow(devices, present, home))
      && (home == -1 && fh == 0 ==> FullBelow(devices, present, MAX_DEVICES))
      && (home == -1 && fh == FAILED_HANDLE ==> exists k :: DeadAt(devices, present, k))
    }

    /**
     * One slot of the second loop of lcopen's step 1, every earlier slot
     * the probe names holding a full device: a device named by the probe
     * gets a record if it has none (Dead when its init request fails, which
     * ends the loop with the failure value); a full device is passed over
     * (Full); otherwise the new record for `path` goes at its cursor
     * (Taken, `home` being the slot).
     */
    method ClaimSlot(i: int, path: string, ghost origin: map<int, DeviceInfo>, ghost present: seq<bool>)
      returns (claim: Claim, fh: bv32, ghost home: int, ghost prior: DeviceInfo)
      requires Scanned(origin, path, present, fileHandleCount, i) && 0 <= i < MAX_DEVICES && i < |present| && present[i]
      modifies this
      ensures powerOn == old(powerOn) && initDone == old(initDone)
      ensures claim == Full ==> Scanned(origin, path, present, old(fileHandleCount), i + 1)
      ensures claim != Full ==> Placed(origin, path, present, old(fileHandleCount), fh, home, prior)
      ensures claim == Dead ==> home == -1 && fh == FAILED_HANDLE && DeadAt(devices, present, i)
      ensures claim == Taken ==> home == i
    {
      home, prior := -1, DeviceInfo(0, 0, 0, [], 0, 0, false);  // `prior` matters only when the slot is taken
      var ok := AddDevice(i);
      GrownTrans(origin, old(devices), devices);
      GrownKeepsFullBelow(old(devices), devices, present, i);
      if !ok {
        assert DeadAt(devices, present, i);
        return Dead, FAILED_HANDLE, home, prior;
      }
      GrownKeepsNoPath(old(devices), devices, path);
      if devices[i].isFull {
        FullBelowStep(devices, present, i);
        return Full, 0, home, prior;
      }
      fh, prior := TakeSlot(i, path, origin, present);
      claim, home := Taken, i;
    }

    /** The new record for `path` at the cursor of device `i`, which is not full. */
    method TakeSlot(i: int, path: string, ghost origin: map<int, DeviceInfo>, ghost present: seq<bool>)
      returns (fh: bv32, ghost prior: DeviceInfo)
      requires TableOk(devices) && NoPath(devices, path) && i in devices && !devices[i].isFull
      requires Grown(origin, devices)
      modifies this
      ensures TableOk(devices) && powerOn == old(powerOn) && initDone == old(initDone)
      ensures Created(origin, devices, old(fileHandleCount), fileHandleCount, path, fh, i, prior)
      ensures FullBelow(old(devices), present, i) ==> FullBelow(devices, present, i)
    {
      prior := devices[i];
      fh := PlaceFile(i, path);
      assert devices[i := prior] == old(devices);
      FullBelowUpdate(old(devices), present, i, i, devices[i]);
    }

    /**
     * The second loop of lcopen's step 1: a new record for `path` at the
     * cursor of the first device, in slot order, that the probe mask
     * `present` names and that is not full, initialising a named device that has no
     * record. 0 when every named device is full; the failure value when
     * the first named device that is not full has no record and cannot be
     * initialised.
     */
    method Place(present: seq<bool>, path: string, ghost origin: map<int, DeviceInfo>)
      returns (fh: bv32, ghost home: int, ghost prior: DeviceInfo)
      requires TableOk(devices) && NoPath(devices, path) && |present| == MAX_DEVICES
      requires Grown(origin, devices)
      modifies this
      ensures powerOn == old(powerOn) && initDone == old(initDone)
      ensures Placed(origin, path, present, old(fileHandleCount), fh, home, prior)
    {
      prior := DeviceInfo(0, 0, 0, [], 0, 0, false);  // `prior` matters only when `home` is a slot
      var i := 0;
      while i < MAX_DEVICES
        invariant 0 <= i <= MAX_DEVICES
        invariant Scanned(origin, path, present, old(fileHandleCount), i)
        invariant powerOn == old(powerOn) && initDone == old(initDone)
      {
        if present[i] {
          var claim;
          claim, fh, home, prior := ClaimSlot(i, path, origin, present);
          if claim != Full {
            return;
          }
        }
        i := i + 1;
      }
      return 0, -1, prior;
    }

    /**
     * Step 1 of lcopen, for a path no record has: probe for the devices
     * present, initialise every one of them on the first call, then Place.
     * The failure value when the probe fails; otherwise Place says why no
     * record was created, if none was.
     */
    method Create(path: string) returns (fh: bv32, ghost home: int, ghost prior: DeviceInfo)
      requires TableOk(devices) && NoPath(devices, path)
      modifies this
      ensures TableOk(devices) && powerOn == old(powerOn)
      ensures Created(old(devices), devices, old(fileHandleCount), fileHandleCount, path, fh, home, prior)
      ensures !Frame.Succeeded(bus.probeResponse) ==> fh == FAILED_HANDLE && devices == old(devices)
      ensures home != -1 ==>
                && Frame.DeviceMask(Frame.FieldD0(bus.probeResponse))[home]
                && forall k :: 0 <= k < home && Frame.DeviceMask(Frame.FieldD0(bus.probeResponse))[k] ==>
                     k in devices && devices[k].isFull
      ensures home == -1 ==> Declined(devices, fh)
    {
      home, prior := -1, DeviceInfo(0, 0, 0, [], 0, 0, false);  // `prior` matters only when `home` is a slot
      var response := bus.Probe();
      if !Frame.Succeeded(response) {
        return FAILED_HANDLE, home, prior;
      }
      var present := Frame.DeviceMask(Frame.FieldD0(response));
      InitOnce(present);
      GrownKeepsNoPath(old(devices), devices, path);
      fh, home, prior := Place(present, path, old(devices));
    }

    /** lcopen on a closed file's record: it takes the next handle number, which is also the result. */
    method Reopen(fi: int, fj: int) returns (fh: bv32)
      requires TableOk(devices) && fi in devices && 0 <= fj < |devices[fi].files|
      modifies this
      ensures TableOk(devices)
      ensures fh == old(fileHandleCount) && fileHandleCount == old(fileHandleCount) + 1
      ensures devices == SetRecord(old(devices), fi, fj, old(devices)[fi].files[fj].(handle := old(fileHandleCount)))
      ensures powerOn == old(powerOn) && initDone == old(initDone)
    {
      var f := devices[fi].files[fj].(handle := fileHandleCount);
      SetRecordKeepsTable(devices, fi, fj, f);
      devices := SetRecord(devices, fi, fj, f);
      fh := fileHandleCount;
      fileHandleCount := fileHandleCount + 1;
    }

    /**
     * lcopen once the devices are powered on and the cache is reset: look the
     * path up. An open file fails; a closed one is reopened; a new path gets
     * a record from Create.
     */
    method OpenPath(path: string) returns (fh: bv32, ghost home: int, ghost prior: DeviceInfo)
      requires TableOk(devices)
      modifies this
      ensures TableOk(devices) && powerOn == old(powerOn)
      ensures Opened(old(devices), devices, old(fileHandleCount), fileHandleCount, path, fh, home, prior)
    {
      home, prior := -1, DeviceInfo(0, 0, 0, [], 0, 0, false);  // `prior` matters only when `home` is a slot
      var fi, fj := Search(path);
      if fi == -1 {
        FindPathMisses(devices, path, 0);
        fh, home, prior := Create(path);
      } else if devices[fi].files[fj].handle != 0 {
        fh := FAILED_HANDLE;
      } else {
        fh := Reopen(fi, fj);
      }
    }

    /** The power-on request lcopen sends while the devices are off. */
    method PowerUp() returns (on: bool)
      modifies this
      ensures on == (old(powerOn) || Frame.Succeeded(bus.powerOnResponse)) && powerOn == on
      ensures devices == old(devices) && fileHandleCount == old(fileHandleCount) && initDone == old(initDone)
    {
      if !powerOn {
        var response := bus.PowerOn();
        powerOn := Frame.Succeeded(response);
      }
      on := powerOn;
    }

    /**
     * lcopen: power the devices on if they are not (the failure value when
     * that fails, the cache untouched), reinitialise the cache, then
     * OpenPath.
     */
    method Open(path: string) returns (fh: bv32, ghost home: int, ghost prior: DeviceInfo)
      requires Valid()
      modifies this, cache
      ensures Valid()
      ensures !old(powerOn) && !Frame.Succeeded(bus.powerOnResponse) ==>
                && fh == FAILED_HANDLE && devices == old(devices) && fileHandleCount == old(fileHandleCount) && !powerOn
                && cache.lines == old(cache.lines) && cache.maxblocks == old(cache.maxblocks)
                && cache.currentblocks == old(cache.currentblocks)
      ensures old(powerOn) || Frame.Succeeded(bus.powerOnResponse) ==>
                && powerOn && cache.lines == [] && cache.maxblocks == CACHE_BLOCKS
                && Opened(old(devices), devices, old(fileHandleCount), fileHandleCount, path, fh, home, prior)
    {
      home, prior := -1, DeviceInfo(0, 0, 0, [], 0, 0, false);  // `prior` matters only when `home` is a slot
      var on := PowerUp();
      if !on {
        return FAILED_HANDLE, home, prior;
      }
      var _ := cache.InitCache(CACHE_BLOCKS);
      fh, home, prior := OpenPath(path);
    }
  }
}
