/**
 * Per-device bookkeeping of the LionCloud filesystem: the device geometry,
 * its allocation cursor and the file records anchored on it
 * (LcDeviceInfo / LcFileInfo), with the cursor operations
 * GetNewLcDeviceInfo, SetDevicePositionToNext and GetNextDeviceId.
 */
module Allocator {
  import opened Bits
  import Frame

  /** An LcFileInfo record. `handle` 0 means the file is closed. */
  datatype FileInfo = FileInfo(
    handle: bv32,
    device: u32, sector: u32, block: u32, offset: u32,
    length: u32, currentLength: u32,
    startSector: u32, startBlock: u32,
    path: string)

  /** An LcDeviceInfo record; `|files|` is its currentCount. `filesSize` is recorded but never consulted. */
  datatype DeviceInfo = DeviceInfo(
    sectors: u32, blocks: u32, filesSize: int,
    files: seq<FileInfo>,
    curSector: u32, curBlock: u32, isFull: bool)

  /** Number of slots in the device table. */
  const MAX_DEVICES: int := 16

  /** The value GetNextDeviceId returns when no other device has room. */
  const NO_DEVICE: int := 20

  /**
   * GetNewLcDeviceInfo after a successful init request: geometry from the
   * D0 (sectors) and D1 (blocks per sector) fields of the response, cursor
   * at (sector 0, block 1), not full, no files.
   */
  function FromInitResponse(response: bv64): (d: DeviceInfo)
  {
    var s := Frame.WordD0(response) as int;
    var b := Frame.WordD1(response) as int;
    DeviceInfo(s, b, (s * b) / 50, [], 0, 1, false)
  }

  /** A device answering init with status 0 and geometry (s, b) gets exactly that geometry and a fresh cursor. */
  lemma {:induction false} NewDeviceFromResponse(s: bv16, b: bv16)
    ensures var d := FromInitResponse(Frame.Response(0, s, b));
            && Frame.Succeeded(Frame.Response(0, s, b))
            && d.sectors == s as int && d.blocks == b as int
            && d.curSector == 0 && d.curBlock == 1 && !d.isFull && d.files == []
  {
    Frame.ResponseDecodes(0, s, b);
    Frame.ResponseWords(0, s, b);
  }

  /**
   * SetDevicePositionToNext on one device record: the next block of the
   * sector, or block 0 of the next sector; at the end of the device the
   * record is marked full, the cursor stays, and the result is -1.
   * The `deviceXSize - 1` comparisons are `uint32_t` arithmetic.
   */
  function Advance(d: DeviceInfo): (r: (DeviceInfo, int))
  {
    var lastBlock := Wrap32(d.blocks - 1);
    var lastSector := Wrap32(d.sectors - 1);
    if d.curBlock == lastBlock && d.curSector < lastSector then
      (d.(curBlock := 0, curSector := d.curSector + 1), 1)
    else if d.curSector <= lastSector && d.curBlock < lastBlock then
      (d.(curBlock := d.curBlock + 1), 1)
    else
      (d.(isFull := true), -1)
  }

  ghost predicate CursorInGeometry(d: DeviceInfo)
  {
    d.sectors >= 1 && d.blocks >= 1 && d.curSector < d.sectors && d.curBlock < d.blocks
  }

  /** Position of the cursor in allocation order. */
  function Ordinal(d: DeviceInfo): int
  {
    d.curSector * d.blocks + d.curBlock
  }

  /**
   * On a device whose cursor lies inside its geometry, Advance succeeds
   * exactly when the cursor is not at the last block of the last sector;
   * success moves the cursor to the very next position in allocation order
   * (so no position is handed out twice), failure only sets the full flag.
   * Geometry and files never change.
   */
  lemma {:induction false} AdvanceSpec(d: DeviceInfo)
    requires CursorInGeometry(d)
    ensures var (d', r) := Advance(d);
            && (r == 1 || r == -1)
            && (r == -1 <==> d.curSector == d.sectors - 1 && d.curBlock == d.blocks - 1)
            && (r == 1 ==> CursorInGeometry(d') && Ordinal(d') == Ordinal(d) + 1 && d'.isFull == d.isFull)
            && (r == -1 ==> d' == d.(isFull := true))
            && d'.sectors == d.sectors && d'.blocks == d.blocks && d'.files == d.files
  {
    var (d', r) := Advance(d);
    assert Wrap32(d.blocks - 1) == d.blocks - 1;
    assert Wrap32(d.sectors - 1) == d.sectors - 1;
    if d.curBlock == d.blocks - 1 && d.curSector < d.sectors - 1 {
      assert Ordinal(d') == (d.curSector + 1) * d.blocks;
    }
  }

  /** A first device with the fresh (0, 1) cursor has its cursor in geometry whenever it has at least two blocks. */
  lemma FreshCursorInGeometry(s: bv16, b: bv16)
    requires s >= 1 && b >= 2
    ensures CursorInGeometry(FromInitResponse(Frame.Response(0, s, b)))
  {
    NewDeviceFromResponse(s, b);
  }

  /** The lowest-numbered slot from `i` on, other than `device`, holding a device that is not full; 20 when there is none. */
  function NextDevice(devices: map<int, DeviceInfo>, device: int, i: int): int
    requires 0 <= i <= MAX_DEVICES
    decreases MAX_DEVICES - i
  {
    if i == MAX_DEVICES then NO_DEVICE
    else if i in devices && !devices[i].isFull && i != device then i
    else NextDevice(devices, device, i + 1)
  }

  /**
   * The spill-over device is a slot of the table, other than `device`,
   * holding a device that is not full, and every lower slot from `i` on
   * holds none or a full one; 20 exactly when every other device from
   * slot `i` on is full.
   */
  lemma {:induction false} NextDeviceSpec(devices: map<int, DeviceInfo>, device: int, i: int)
    requires 0 <= i <= MAX_DEVICES
    ensures var r := NextDevice(devices, device, i);
            && (r == NO_DEVICE || (i <= r < MAX_DEVICES && r in devices && !devices[r].isFull && r != device))
            && (r == NO_DEVICE <==> forall k :: i <= k < MAX_DEVICES && k in devices && k != device ==> devices[k].isFull)
            && (r != NO_DEVICE ==> forall k :: i <= k < r && k in devices && k != device ==> devices[k].isFull)
    decreases MAX_DEVICES - i
  {
    if i < MAX_DEVICES {
      NextDeviceSpec(devices, device, i + 1);
    }
  }

  /** The spill-over device depends only on which slots hold a device and which of those are full. */
  lemma {:induction false} NextDeviceSameFlags(a: map<int, DeviceInfo>, b: map<int, DeviceInfo>, device: int, i: int)
    requires 0 <= i <= MAX_DEVICES
    requires a.Keys == b.Keys && forall d :: d in a ==> a[d].isFull == b[d].isFull
    ensures NextDevice(a, device, i) == NextDevice(b, device, i)
    decreases MAX_DEVICES - i
  {
    if i < MAX_DEVICES {
      NextDeviceSameFlags(a, b, device, i + 1);
    }
  }

  /** GetNextDeviceId: the scan of the table for the spill-over device. */
  method GetNextDeviceId(devices: map<int, DeviceInfo>, device: int) returns (r: int)
    ensures r == NextDevice(devices, device, 0)
  {
    var i := 0;
    while i < MAX_DEVICES
      invariant 0 <= i <= MAX_DEVICES
      invariant NextDevice(devices, device, i) == NextDevice(devices, device, 0)
    {
      if i in devices && !devices[i].isFull && device != i {
        return i;
      }
      i := i + 1;
    }
    return NO_DEVICE;
  }
}
