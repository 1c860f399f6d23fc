/**
 * The LionCloud register frame: a 64-bit command/response word whose bit
 * ranges are B0 (60-63), B1 (56-59, response status), C0 (48-55, opcode),
 * C1 (40-47, device), C2 (32-39, transfer direction), D0 (16-31) and
 * D1 (0-15). Also the 32-bit file handle that carries a device id in its
 * top 8 bits and a per-device handle number in its low 24 bits.
 */
module Frame {

  const MASK_B0: bv64 := 0xf000_0000_0000_0000
  const MASK_B1: bv64 := 0x0f00_0000_0000_0000
  const MASK_C0: bv64 := 0x00ff_0000_0000_0000
  const MASK_C1: bv64 := 0x0000_ff00_0000_0000
  const MASK_C2: bv64 := 0x0000_00ff_0000_0000
  const MASK_D0: bv64 := 0x0000_0000_ffff_0000
  const MASK_D1: bv64 := 0x0000_0000_0000_ffff

  const SHIFT_B1: bv64 := 56
  const SHIFT_C0: bv64 := 48
  const SHIFT_C1: bv64 := 40
  const SHIFT_C2: bv64 := 32
  const SHIFT_D0: bv64 := 16

  /** Status value a device reports for a successful request. */
  const LC_SUCCESS: bv64 := 0

  function FieldB1(f: bv64): bv64 { (f & MASK_B1) >> SHIFT_B1 }
  function FieldC0(f: bv64): bv64 { (f & MASK_C0) >> SHIFT_C0 }
  function FieldC1(f: bv64): bv64 { (f & MASK_C1) >> SHIFT_C1 }
  function FieldC2(f: bv64): bv64 { (f & MASK_C2) >> SHIFT_C2 }
  function FieldD0(f: bv64): bv64 { (f & MASK_D0) >> SHIFT_D0 }
  function FieldD1(f: bv64): bv64 { f & MASK_D1 }

  /** The D0 and D1 fields narrowed to the 16-bit values they carry. */
  function WordD0(f: bv64): bv16 { (FieldD0(f) & 0xffff) as bv16 }
  function WordD1(f: bv64): bv16 { (FieldD1(f) & 0xffff) as bv16 }

  /**
   * LCRequestFramePackaging: device `c1`, direction `c2`, sector `d0`,
   * block `d1`, each shifted into place from a 64-bit widening of its
   * `uint32_t` argument. Out-of-range arguments are not rejected: their
   * high bits spill into neighbouring fields or off the top of the word.
   */
  function Packaging(c1: bv32, c2: bv32, d0: bv32, d1: bv32): (f: bv64)
    ensures c1 < 256 && c2 < 256 && d0 < 65536 && d1 < 65536 ==>
              && FieldC1(f) == c1 as bv64 && FieldC2(f) == c2 as bv64
              && FieldD0(f) == d0 as bv64 && FieldD1(f) == d1 as bv64
              && f & (MASK_B0 | MASK_B1 | MASK_C0) == 0
  {
    ((c1 as bv64) << SHIFT_C1) | ((c2 as bv64) << SHIFT_C2) | ((d0 as bv64) << SHIFT_D0) | (d1 as bv64)
  }

  /** The request word LCRequestFrame sends: the opcode ORed into bits 48-55. */
  function WithOpcode(request: bv64, op: bv32): (f: bv64)
    ensures op < 256 && request & MASK_C0 == 0 ==>
              && FieldC0(f) == op as bv64
              && f & !MASK_C0 == request
  {
    request | ((op as bv64) << SHIFT_C0)
  }

  /** LCRequestFrame's acceptance test on a response word. */
  predicate Succeeded(response: bv64)
  {
    FieldB1(response) == LC_SUCCESS
  }

  /** A response word as a device would build it from a status and two data fields. */
  function Response(status: bv4, d0: bv16, d1: bv16): (f: bv64)
  {
    ((status as bv64) << SHIFT_B1) | ((d0 as bv64) << SHIFT_D0) | (d1 as bv64)
  }

  /** A device's response fields are what the file layer decodes, and its status alone decides success. */
  lemma ResponseDecodes(status: bv4, d0: bv16, d1: bv16)
    ensures FieldB1(Response(status, d0, d1)) == status as bv64
    ensures FieldD0(Response(status, d0, d1)) == d0 as bv64
    ensures FieldD1(Response(status, d0, d1)) == d1 as bv64
    ensures Succeeded(Response(status, d0, d1)) <==> status == 0
  {
  }

  /** The 16-bit geometry words a device puts in a response are the ones the file layer reads back. */
  lemma ResponseWords(status: bv4, d0: bv16, d1: bv16)
    ensures WordD0(Response(status, d0, d1)) == d0 && WordD1(Response(status, d0, d1)) == d1
  {
    ResponseDecodes(status, d0, d1);
  }

  /** Bit `i` of the device-presence mask that a probe response carries in D0. */
  predicate DeviceBit(ids: bv64, i: nat)
    requires i < 16
  {
    (ids >> i) & 1 == 1
  }

  /** The first `n` bits of the presence mask, one flag per device slot. */
  function MaskBits(ids: bv64, n: nat): (present: seq<bool>)
    requires n <= 16
    ensures |present| == n
  {
    if n == 0 then [] else MaskBits(ids, n - 1) + [DeviceBit(ids, n - 1)]
  }

  /** The presence mask as one flag per device slot. */
  function DeviceMask(ids: bv64): (present: seq<bool>)
    ensures |present| == 16
  {
    MaskBits(ids, 16)
  }

  /** Flag `i` of the mask is bit `i` of the probe's D0 field. */
  lemma {:induction false} MaskBitsSpec(ids: bv64, n: nat, i: nat)
    requires i < n <= 16
    ensures MaskBits(ids, n)[i] == DeviceBit(ids, i)
  {
    if i < n - 1 {
      MaskBitsSpec(ids, n - 1, i);
    }
  }

  const LCFHANDLE_MASK_ID: bv32 := 0xff00_0000
  const LCFHANDLE_MASK_HANDLE: bv32 := 0x00ff_ffff

  /** The external handle lcopen returns for a new file: device in bits 24-31, handle in bits 0-23. */
  function PackHandle(device: bv32, handle: bv32): (fh: bv32)
    ensures device < 256 && handle < 0x100_0000 ==>
              DeviceOfHandle(fh) == device && HandleOf(fh) == handle
  {
    ((device << 24) & LCFHANDLE_MASK_ID) | (handle & LCFHANDLE_MASK_HANDLE)
  }

  /** `fh >> 24`: the device a handle names. */
  function DeviceOfHandle(fh: bv32): (d: bv32)
    ensures d < 256
  {
    fh >> 24
  }

  /** `fh & LCFHANDLE_MASK_HANDLE`: the per-file handle number. */
  function HandleOf(fh: bv32): (h: bv32)
    ensures h < 0x100_0000
  {
    fh & LCFHANDLE_MASK_HANDLE
  }

  /** Splitting and re-packing a handle gives it back: no bit is lost. */
  lemma SplitPackHandle(fh: bv32)
    ensures PackHandle(DeviceOfHandle(fh), HandleOf(fh)) == fh
  {
  }
}
