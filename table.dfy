/**
 * The device table of the LionCloud file layer (deviceInfo[16] and the
 * file records each device holds): record lookup by handle and by path,
 * the table's invariant, and the updates that keep it.
 */
module Table {
  import opened Bits
  import opened Allocator

  /** Position of the first record with handle number `h`, or -1. */
  function HandleIndex(files: seq<FileInfo>, h: bv32): (r: int)
    ensures -1 <= r < |files|
    ensures r >= 0 ==> files[r].handle == h && forall k :: 0 <= k < r ==> files[k].handle != h
    ensures r == -1 <==> forall k :: 0 <= k < |files| ==> files[k].handle != h
  {
    if |files| == 0 then -1
    else if files[0].handle == h then 0
    else
      var r := HandleIndex(files[1..], h);
      if r == -1 then -1 else r + 1
  }

  /** Position of the first record with path `path`, or -1. */
  function PathIndex(files: seq<FileInfo>, path: string): (r: int)
    ensures -1 <= r < |files|
    ensures r >= 0 ==> files[r].path == path && forall k :: 0 <= k < r ==> files[k].path != path
    ensures r == -1 <==> forall k :: 0 <= k < |files| ==> files[k].path != path
  {
    if |files| == 0 then -1
    else if files[0].path == path then 0
    else
      var r := PathIndex(files[1..], path);
      if r == -1 then -1 else r + 1
  }

  /** The (device slot, record) of `path` in table order from slot `i` on, or (-1, -1). */
  function FindPath(devices: map<int, DeviceInfo>, path: string, i: int): (r: (int, int))
    requires 0 <= i <= MAX_DEVICES
    decreases MAX_DEVICES - i
    ensures r.0 == -1 ==> r.1 == -1
    ensures r.0 != -1 ==> && i <= r.0 < MAX_DEVICES && r.0 in devices
                          && 0 <= r.1 < |devices[r.0].files| && devices[r.0].files[r.1].path == path
  {
    if i == MAX_DEVICES then (-1, -1)
    else if i in devices && PathIndex(devices[i].files, path) >= 0 then (i, PathIndex(devices[i].files, path))
    else FindPath(devices, path, i + 1)
  }

  /** The search from slot `i` finds nothing exactly when no record in slots `i` onwards has the path. */
  lemma {:induction false} FindPathMisses(devices: map<int, DeviceInfo>, path: string, i: int)
    requires 0 <= i <= MAX_DEVICES
    ensures FindPath(devices, path, i).0 == -1 <==>
              forall d, k :: i <= d < MAX_DEVICES && d in devices && 0 <= k < |devices[d].files| ==>
                devices[d].files[k].path != path
    decreases MAX_DEVICES - i
  {
    if i < MAX_DEVICES {
      FindPathMisses(devices, path, i + 1);
    }
  }

  /** Every path names at most one record in the whole table. */
  ghost predicate UniquePaths(devices: map<int, DeviceInfo>)
  {
    forall d, k, d', k' ::
      (d in devices && d' in devices && 0 <= k < |devices[d].files| && 0 <= k' < |devices[d'].files| &&
       devices[d].files[k].path == devices[d'].files[k'].path) ==> d == d' && k == k'
  }

  /** The device table's invariant: slots within the table, record offsets within a payload, unique paths. */
  ghost predicate TableOk(devices: map<int, DeviceInfo>)
  {
    && (forall d :: d in devices ==> 0 <= d < MAX_DEVICES)
    && (forall d, k :: d in devices && 0 <= k < |devices[d].files| ==> devices[d].files[k].offset <= PAYLOAD_SIZE)
    && UniquePaths(devices)
  }

  /** The table with record `j` of device `dev` replaced by `f`. */
  function SetRecord(devices: map<int, DeviceInfo>, dev: int, j: int, f: FileInfo): (r: map<int, DeviceInfo>)
    requires dev in devices && 0 <= j < |devices[dev].files|
    ensures r.Keys == devices.Keys && r[dev].files == devices[dev].files[j := f]
    ensures forall d :: d in devices && d != dev ==> r[d] == devices[d]
  {
    devices[dev := devices[dev].(files := devices[dev].files[j := f])]
  }

  /** Replacing a record by one with the same path and an offset within a payload keeps the table's invariant. */
  lemma {:induction false} SetRecordKeepsTable(devices: map<int, DeviceInfo>, dev: int, j: int, f: FileInfo)
    requires TableOk(devices) && dev in devices && 0 <= j < |devices[dev].files|
    requires f.path == devices[dev].files[j].path && f.offset <= PAYLOAD_SIZE
    ensures TableOk(SetRecord(devices, dev, j, f))
  {
    var r := SetRecord(devices, dev, j, f);
    assert forall d, k :: d in r && 0 <= k < |r[d].files| ==>
      r[d].files[k].path == devices[d].files[k].path && (r[d].files[k].offset == devices[d].files[k].offset || (d == dev && k == j));
  }

  /** The record lcopen creates for a new path at the device's cursor. */
  function NewFile(handle: bv32, device: int, d: DeviceInfo, path: string): (f: FileInfo)
    requires 0 <= device < MAX_DEVICES
  {
    FileInfo(handle, device, d.curSector, d.curBlock, 0, 0, 0, d.curSector, d.curBlock, path)
  }

  /** No record of the table has path `path`. */
  ghost predicate NoPath(devices: map<int, DeviceInfo>, path: string)
  {
    forall d, k :: d in devices && 0 <= k < |devices[d].files| ==> devices[d].files[k].path != path
  }

  /** Installing a device record with no files in a table slot keeps the table's invariant. */
  lemma {:induction false} AddDeviceKeepsTable(devices: map<int, DeviceInfo>, i: int, e: DeviceInfo)
    requires TableOk(devices) && 0 <= i < MAX_DEVICES && i !in devices && e.files == []
    ensures TableOk(devices[i := e])
  {
    var r := devices[i := e];
    assert forall d, k :: d in r && 0 <= k < |r[d].files| ==> d != i && r[d].files[k] == devices[d].files[k];
  }

  /** Changing a device record without touching its files keeps the table's invariant. */
  lemma {:induction false} SetDeviceKeepsTable(devices: map<int, DeviceInfo>, i: int, e: DeviceInfo)
    requires TableOk(devices) && i in devices && e.files == devices[i].files
    ensures TableOk(devices[i := e])
  {
    var r := devices[i := e];
    assert forall d, k :: d in r && 0 <= k < |r[d].files| ==> r[d].files[k] == devices[d].files[k];
  }

  /** Appending a record whose path no record has, at offset 0, keeps the table's invariant. */
  lemma {:induction false} AppendFileKeepsTable(devices: map<int, DeviceInfo>, i: int, f: FileInfo)
    requires TableOk(devices) && i in devices && f.offset == 0 && NoPath(devices, f.path)
    ensures TableOk(devices[i := devices[i].(files := devices[i].files + [f])])
  {
    var r := devices[i := devices[i].(files := devices[i].files + [f])];
    assert forall d, k :: d in r && 0 <= k < |r[d].files| ==>
      (d == i && k == |devices[i].files| && r[d].files[k] == f) ||
      (d in devices && k < |devices[d].files| && r[d].files[k] == devices[d].files[k]);
  }

  /** `after` has the same slots and the same file records as `before`; device cursors and full flags may differ. */
  ghost predicate SameRecords(before: map<int, DeviceInfo>, after: map<int, DeviceInfo>)
  {
    before.Keys == after.Keys && forall d :: d in before ==> after[d].files == before[d].files
  }

  /** The table's invariant speaks only of slots and records, so moving cursors keeps it. */
  lemma SameRecordsKeepTable(before: map<int, DeviceInfo>, after: map<int, DeviceInfo>)
    requires TableOk(before) && SameRecords(before, after)
    ensures TableOk(after)
  {
  }

  /** Having the same records is transitive. */
  lemma SameRecordsTrans(a: map<int, DeviceInfo>, b: map<int, DeviceInfo>, c: map<int, DeviceInfo>)
    requires SameRecords(a, b) && SameRecords(b, c)
    ensures SameRecords(a, c)
  {
  }

  /** Replacing the same record in two tables with the same records gives two tables with the same records. */
  lemma SetRecordSameRecords(a: map<int, DeviceInfo>, b: map<int, DeviceInfo>, dev: int, j: int, f: FileInfo)
    requires SameRecords(a, b) && dev in a && 0 <= j < |a[dev].files|
    ensures SameRecords(SetRecord(a, dev, j, f), SetRecord(b, dev, j, f))
  {
  }
}
