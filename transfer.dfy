/**
 * The per-block steps of lcread and lcwrite, as functions of the block the
 * file layer has just obtained: what a read copies out of it and how the
 * file record moves, and what a write puts into it (payload bytes and the
 * link to the next block of the chain, allocating that block when the
 * chain has no successor).
 */
module Transfer {
  import opened Bits
  import opened Allocator
  import opened Table

  /** The record of the file being read, the `uint32_t` request and file remainders, and the bytes copied so far. */
  datatype ReadState = ReadState(f: FileInfo, remRead: u32, remFile: u32, out: seq<byte>)

  /** Fields of a record that reading and writing never change. */
  predicate SameFile(f: FileInfo, g: FileInfo)
  {
    f.handle == g.handle && f.path == g.path && f.startSector == g.startSector && f.startBlock == g.startBlock
  }

  /** The record positioned on the block `link` names, unless `link` is the end-of-chain sentinel. */
  function Follow(f: FileInfo, link: Link): (g: FileInfo)
    ensures SameFile(f, g) && g.length == f.length && g.offset == f.offset && g.currentLength == f.currentLength
  {
    if link.sector != SENTINEL && link.block != SENTINEL
    then f.(device := link.device, sector := link.sector, block := link.block)
    else f
  }

  /** The bytes lcread's first step copies: up to the end of the payload, or fewer if fewer were requested. */
  function FirstCount(s: ReadState): (wb: int)
    requires s.f.offset <= PAYLOAD_SIZE
    ensures 0 <= wb <= s.remRead && s.f.offset + wb <= PAYLOAD_SIZE
    ensures wb == PAYLOAD_SIZE - s.f.offset || wb == s.remRead
  {
    if s.remRead >= PAYLOAD_SIZE - s.f.offset then PAYLOAD_SIZE - s.f.offset else s.remRead
  }

  /**
   * lcread's first step when the record's offset is inside a block. The
   * file length is not consulted, so `remFile` can wrap. The record
   * follows the block's link only when the request reaches the end of the
   * block.
   */
  function ReadFirst(s: ReadState, b: Block): (r: ReadState)
    requires s.f.offset <= PAYLOAD_SIZE
    ensures var wb := FirstCount(s);
            && r.out == s.out + b[HEADER_SIZE + s.f.offset .. HEADER_SIZE + s.f.offset + wb]
            && r.remRead == s.remRead - wb && r.remFile == Wrap32(s.remFile - wb)
            && r.f.currentLength == Wrap32(s.f.currentLength + wb)
    ensures r.remRead == 0 || r.f.offset == 0
    ensures r.f.offset <= PAYLOAD_SIZE
    ensures SameFile(s.f, r.f) && r.f.length == s.f.length
  {
    var off := s.f.offset;
    var wb := FirstCount(s);
    var f := if wb == PAYLOAD_SIZE - off then Follow(s.f, HeaderOf(b)).(offset := 0) else s.f.(offset := off + wb);
    ReadState(f.(currentLength := Wrap32(f.currentLength + wb)), s.remRead - wb, Wrap32(s.remFile - wb),
              s.out + b[HEADER_SIZE + off .. HEADER_SIZE + off + wb])
  }

  /** The outcome of one step of lcread's block loop. */
  datatype ReadStep = Whole(s: ReadState) | Tail(s: ReadState) | Short

  /**
   * One iteration of lcread's loop, always at the start of a block's
   * payload: a whole payload when both remainders reach 244, else the tail
   * of the request when the file still holds it, else failure.
   */
  function ReadBlockStep(s: ReadState, b: Block): (r: ReadStep)
    requires s.f.offset == 0
    ensures r.Whole? <==> s.remFile >= PAYLOAD_SIZE && s.remRead >= PAYLOAD_SIZE
    ensures r.Short? <==> s.remFile < PAYLOAD_SIZE && s.remFile < s.remRead
    ensures r.Whole? ==> && r.s.out == s.out + b[HEADER_SIZE..] && |b[HEADER_SIZE..]| == PAYLOAD_SIZE
                         && r.s.remRead == s.remRead - PAYLOAD_SIZE && r.s.remFile == s.remFile - PAYLOAD_SIZE
                         && r.s.f.offset == 0 && r.s.f.currentLength == Wrap32(s.f.currentLength + PAYLOAD_SIZE)
    ensures r.Tail? ==> && r.s.out == s.out + b[HEADER_SIZE .. HEADER_SIZE + s.remRead]
                        && s.remRead < PAYLOAD_SIZE && s.remRead <= s.remFile
                        && r.s.remRead == 0 && r.s.f.offset == s.remRead
                        && r.s.f.currentLength == Wrap32(s.f.currentLength + s.remRead)
    ensures !r.Short? ==> SameFile(s.f, r.s.f) && r.s.f.length == s.f.length
  {
    if s.remFile >= PAYLOAD_SIZE && s.remRead >= PAYLOAD_SIZE then
      var f := Follow(s.f, HeaderOf(b));
      Whole(ReadState(f.(currentLength := Wrap32(f.currentLength + PAYLOAD_SIZE), offset := 0),
                      s.remRead - PAYLOAD_SIZE, s.remFile - PAYLOAD_SIZE, s.out + b[HEADER_SIZE..]))
    else if s.remFile >= s.remRead then
      var f := s.f.(offset := s.f.offset + s.remRead, currentLength := Wrap32(s.f.currentLength + s.remRead));
      Tail(ReadState(f, 0, s.remFile, s.out + b[HEADER_SIZE .. HEADER_SIZE + s.remRead]))
    else
      Short
  }

  /**
   * `st` is where lcread's block loop has got to from `st0`: the bytes
   * copied so far are those the request has lost, the position has moved
   * by as many (`uint32_t`), the record is the same file, and a file that
   * held the whole request still holds what is left of it.
   */
  ghost predicate ReadFrom(st0: ReadState, st: ReadState)
  {
    && st.f.offset <= PAYLOAD_SIZE && (st.remRead > 0 ==> st.f.offset == 0)
    && |st.out| == |st0.out| + st0.remRead - st.remRead
    && SameFile(st0.f, st.f) && st.f.length == st0.f.length
    && st.f.currentLength == Wrap32(st0.f.currentLength + |st.out| - |st0.out|)
    && (st0.remFile >= st0.remRead ==> st.remFile >= st.remRead)
  }

  /**
   * One step of lcread's block loop keeps ReadFrom and shortens the
   * request; it can fall Short only on a file that did not hold the whole
   * request.
   */
  lemma ReadStepKeeps(st0: ReadState, st: ReadState, b: Block)
    requires ReadFrom(st0, st) && st.remRead > 0
    ensures ReadBlockStep(st, b).Short? ==> st0.remFile < st0.remRead
    ensures !ReadBlockStep(st, b).Short? ==>
              ReadFrom(st0, ReadBlockStep(st, b).s) && ReadBlockStep(st, b).s.remRead < st.remRead
  {
    var step := ReadBlockStep(st, b);
    if !step.Short? {
      WrapAdd(st0.f.currentLength + |st.out| - |st0.out|, |step.s.out| - |st.out|);
    }
  }

  /**
   * `(int)sector > 0 || (int)block > 0`: the block's header links to a
   * successor, so a write into it keeps the link. A zero header (a block
   * never written) and the all-ones end-of-chain sentinel do not.
   */
  predicate Overwrites(h: Link)
  {
    Signed32(h.sector) > 0 || Signed32(h.block) > 0
  }

  lemma SentinelIsNotALink()
    ensures !Overwrites(END_OF_CHAIN) && !Overwrites(Link(0, 0, 0))
  {
    assert Signed32(SENTINEL) == -1;
  }

  /**
   * lcwrite's test for a device that can hand out no further block: its
   * cursor is at (or past) the last block of the last sector (`uint32_t`
   * arithmetic), or it is already marked full.
   */
  predicate Exhausted(d: DeviceInfo)
  {
    (d.curSector == Wrap32(d.sectors - 1) && d.curBlock >= Wrap32(d.blocks - 1)) || d.isFull
  }

  /** The result of allocating a successor block. `Stuck` is a dereference of a missing device record in the source. */
  datatype Alloc = Alloc(devices: map<int, DeviceInfo>, link: Link) | Stuck

  /**
   * lcwrite's allocation of a successor block for a block on device `dev`:
   * the block at the cursor of `dev`, whose cursor then advances; if `dev`
   * is exhausted it is marked full and the cursor of device `next` (what
   * GetNextDeviceId returned) is used instead.
   */
  function Allocate(devices: map<int, DeviceInfo>, dev: int, next: int): (r: Alloc)
  {
    if dev !in devices then Stuck
    else
      var d := devices[dev];
      var devs := if Exhausted(d) then devices[dev := d.(isFull := true)] else devices;
      var target := if Exhausted(d) then next else dev;
      if target !in devs || !(0 <= target < MAX_DEVICES) then Stuck
      else
        var e := devs[target];
        Alloc(devs[target := Advance(e).0], Link(target, e.curSector, e.curBlock))
  }

  /**
   * The block an allocation links to is the cursor position of a device
   * that was not full: the file's own device unless that was exhausted, in
   * which case it is marked full and the spill-over device is used. That
   * device's cursor then advances and no other device changes. Allocation
   * is stuck exactly when the file's device has no record, or it is
   * exhausted and there is no other device with room.
   */
  lemma {:induction false} AllocateSpec(devices: map<int, DeviceInfo>, dev: int, next: int)
    requires forall i :: i in devices ==> 0 <= i < MAX_DEVICES
    requires next == NO_DEVICE || (next in devices && !devices[next].isFull && next != dev)
    ensures var r := Allocate(devices, dev, next);
            && (r.Stuck? <==> dev !in devices || (Exhausted(devices[dev]) && next == NO_DEVICE))
            && (r.Alloc? ==>
                  var t := r.link.device as int;
                  && t in devices && !devices[t].isFull
                  && (t == dev <==> !Exhausted(devices[dev]))
                  && r.link.sector == devices[t].curSector && r.link.block == devices[t].curBlock
                  && r.devices.Keys == devices.Keys
                  && r.devices[t] == Advance(devices[t]).0
                  && (t != dev ==> r.devices[dev] == devices[dev].(isFull := true))
                  && forall i :: i in devices && i != t && i != dev ==> r.devices[i] == devices[i])
  {
  }

  /**
   * An allocated block is never handed out again: when the cursor it was
   * taken from lies inside the device's geometry, the device is afterwards
   * either full or its cursor lies strictly beyond the allocated block.
   */
  lemma {:induction false} AllocateFresh(devices: map<int, DeviceInfo>, dev: int, next: int)
    requires forall i :: i in devices ==> 0 <= i < MAX_DEVICES
    requires next == NO_DEVICE || (next in devices && !devices[next].isFull && next != dev)
    requires forall i :: i in devices ==> CursorInGeometry(devices[i])
    ensures var r := Allocate(devices, dev, next);
            r.Alloc? ==>
              var t := r.link.device as int;
              var e := r.devices[t];
              e.isFull || r.link.sector * e.blocks + r.link.block < Ordinal(e)
  {
    var r := Allocate(devices, dev, next);
    if r.Alloc? {
      AllocateSpec(devices, dev, next);
      var t := r.link.device as int;
      AdvanceSpec(devices[t]);
    }
  }

  /**
   * The block lcwrite sends back: the block as obtained with `data` placed
   * `at` bytes into its payload and the header set to `link`. A block never
   * receives more than its 244 payload bytes; the bytes around the written
   * range keep their old values.
   */
  function ChunkBlock(b: Block, link: Link, at: int, data: seq<byte>): (r: Block)
    requires 0 <= at && at + |data| <= PAYLOAD_SIZE
    ensures HeaderOf(r) == link
    ensures r[HEADER_SIZE + at .. HEADER_SIZE + at + |data|] == data
    ensures r[HEADER_SIZE .. HEADER_SIZE + at] == b[HEADER_SIZE .. HEADER_SIZE + at]
    ensures r[HEADER_SIZE + at + |data| ..] == b[HEADER_SIZE + at + |data| ..]
  {
    var p := Overwrite(b, HEADER_SIZE + at, data);
    HeaderOfWithHeader(p, link);
    var r := WithHeader(p, link);
    assert r[HEADER_SIZE..] == p[HEADER_SIZE..];
    assert r[HEADER_SIZE + at .. HEADER_SIZE + at + |data|] == p[HEADER_SIZE..][at .. at + |data|];
    assert r[HEADER_SIZE .. HEADER_SIZE + at] == p[HEADER_SIZE..][..at];
    assert r[HEADER_SIZE + at + |data| ..] == p[HEADER_SIZE..][at + |data| ..];
    r
  }

  /**
   * The link lcwrite gives a block whose header is `h`: a block that
   * already links on keeps its link; otherwise the last chunk of a write
   * ends the chain, and any other chunk allocates a successor on device
   * `dev` (or the spill-over device when `dev` is exhausted).
   */
  function LinkFor(devices: map<int, DeviceInfo>, dev: int, h: Link, eof: bool, next: int): Alloc
  {
    if Overwrites(h) then Alloc(devices, h)
    else if eof then Alloc(devices, END_OF_CHAIN)
    else Allocate(devices, dev, next)
  }

  /**
   * One chunk of lcwrite as decided from the block `b` at the record's
   * position: the table after any allocation, the block's new link, the
   * device the record names afterwards (the spill-over device once an
   * allocation has moved to it), and the block that is sent back. `next`
   * is what GetNextDeviceId returned; it is used only when the record's
   * device is exhausted.
   */
  datatype Plan = Plan(devices: map<int, DeviceInfo>, link: Link, device: u32, block: Block) | Undefined

  function PlanChunk(devices: map<int, DeviceInfo>, f: FileInfo, b: Block, at: int, data: seq<byte>, eof: bool, next: int): Plan
    requires 0 <= at && at + |data| <= PAYLOAD_SIZE
  {
    var h := HeaderOf(b);
    match LinkFor(devices, f.device, h, eof, next)
    case Stuck => Undefined
    case Alloc(devs, link) =>
      Plan(devs, link, if Overwrites(h) || eof then f.device else link.device, ChunkBlock(b, link, at, data))
  }

  /**
   * Allocation for a block of device `dev` cannot go on: the device has no
   * record, or it is exhausted and no other device has room.
   */
  ghost predicate OutOfRoom(devices: map<int, DeviceInfo>, dev: int)
  {
    dev !in devices || (Exhausted(devices[dev]) && NextDevice(devices, dev, 0) == NO_DEVICE)
  }

  /** Replacing a file record leaves the devices' room as it was. */
  lemma SetRecordKeepsRoom(devices: map<int, DeviceInfo>, dev: int, j: int, f: FileInfo, x: int)
    requires dev in devices && 0 <= j < |devices[dev].files|
    ensures OutOfRoom(SetRecord(devices, dev, j, f), x) == OutOfRoom(devices, x)
  {
    NextDeviceSameFlags(SetRecord(devices, dev, j, f), devices, x, 0);
  }

  /**
   * A chunk writes `data` at payload offset `at` and the link into the
   * header, leaving the other payload bytes. A block that links on keeps
   * its link; the last chunk of a write ends an unlinked chain; otherwise
   * the link is the cursor of a device that was not full (the record's own
   * unless it is exhausted), whose cursor advances. The chunk is undefined
   * exactly when that allocation reaches a missing device record. File
   * records are never touched, so the table's invariant is kept.
   */
  lemma {:induction false} PlanChunkSpec(devices: map<int, DeviceInfo>, f: FileInfo, b: Block, at: int, data: seq<byte>, eof: bool)
    requires TableOk(devices) && 0 <= at && at + |data| <= PAYLOAD_SIZE
    ensures var h, r := HeaderOf(b), PlanChunk(devices, f, b, at, data, eof, NextDevice(devices, f.device, 0));
            && (r.Undefined? <==>
                  !Overwrites(h) && !eof && OutOfRoom(devices, f.device))
            && (r.Plan? ==>
                  && HeaderOf(r.block) == r.link
                  && r.block[HEADER_SIZE + at .. HEADER_SIZE + at + |data|] == data
                  && r.block[HEADER_SIZE .. HEADER_SIZE + at] == b[HEADER_SIZE .. HEADER_SIZE + at]
                  && r.block[HEADER_SIZE + at + |data| ..] == b[HEADER_SIZE + at + |data| ..]
                  && SameRecords(devices, r.devices) && TableOk(r.devices)
                  && (Overwrites(h) ==> r.link == h && r.devices == devices && r.device == f.device)
                  && (!Overwrites(h) && eof ==> r.link == END_OF_CHAIN && r.devices == devices && r.device == f.device)
                  && (!Overwrites(h) && !eof ==>
                        var t := r.link.device as int;
                        && r.device == r.link.device && t in devices && !devices[t].isFull
                        && (t == f.device as int <==> !Exhausted(devices[f.device]))
                        && r.link.sector == devices[t].curSector && r.link.block == devices[t].curBlock
                        && r.devices[t] == Advance(devices[t]).0))
  {
    var h := HeaderOf(b);
    if !Overwrites(h) && !eof {
      var next := NextDevice(devices, f.device, 0);
      NextDeviceSpec(devices, f.device, 0);
      AllocateSpec(devices, f.device, next);
      var a := Allocate(devices, f.device, next);
      if a.Alloc? {
        assert SameRecords(devices, a.devices);
        SameRecordsKeepTable(devices, a.devices);
      }
    }
  }
}
