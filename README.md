# LionCloud file layer and block cache, in Dafny

This project models the LionCloud client's file layer (`lcloud_filesys.c`)
and its block cache (`lcloud_cache.c`), and proves properties of the model.

A LionCloud file is a chain of 256-byte device blocks. Each block starts
with a 12-byte link header: the next device, sector and block as three
little-endian `uint32_t` values. All three at -1 mark the end of the chain.
The other 244 bytes are payload.

The file layer keeps a table of up to 16 devices. Each device has:
- its geometry (sectors, blocks per sector);
- an allocation cursor and a full flag;
- the records of the files anchored on it.

It talks to the devices through 64-bit register frames, and it consults a
recency cache before every block read.

Modules:

- `Bits`: the values the C code works with.
  - `uint32_t` with explicit wrap-around, and its reading as `int`.
  - Bytes, blocks, and the `memcpy` encoding of a `uint32_t`.
  - The link header.
- `Frame`: the register frame (`LCRequestFramePackaging`, the opcode OR and
  status test of `LCRequestFrame`), the probe's device mask, and file-handle
  packing and splitting.
- `Cache`: the recency list as a sequence whose head is index 0, as pure
  functions (`Touch`, `Put`, `Get`).
  - Class `BlockCache` holds the list and its counters. Its methods are
    `lcloud_getcache`, `lcloud_putcache`, `lcloud_initcache`,
    `lcloud_closecache`, `cacheReplaceLine` and `cacheAddLine`.
- `Bus`: the devices behind `LCRequestFrame`.
  - Control requests answer with fixed response frames.
  - Block transfers read or write a map from (device, sector, block) to
    blocks. Transfers to a device in a failing set fail.
- `Allocator`: the device and file records, plus the cursor operations
  `GetNewLcDeviceInfo`, `SetDevicePositionToNext` and `GetNextDeviceId`.
- `Table`: lookups of records by handle and by path, the table invariant,
  and the record updates that keep it. The invariant has three parts:
  - every slot is within the table;
  - every offset is within a payload;
  - every path names at most one record.
- `Transfer`: what one block does in `lcread` and `lcwrite`.
  - For a read: the bytes copied and how the record moves.
  - For a write: the payload written, the link chosen, and the allocation of
    a successor block.
- `Accounting`: `lcwrite`'s bookkeeping of `length`, `currentLength` and
  the signed remainder `remFileLength`.
- `FileSys`: class `FileSystem`, holding the device table, the handle
  counter, the power and init flags, the cache and the bus. Its methods are
  `lcopen`, `lcread`, `lcwrite`, `lcseek` and `lcclose`.
  - Each C function is split into small methods that mirror its branches
    and loops.
  - A record under work is a value that the top-level method writes back
    into the table.

Throughout, the C `uint32_t` and `int32_t` arithmetic is explicit. These C
quirks are reproduced as written:
- `sector <= -1` on a `uint32_t` is always true, so `lcwrite` allocates a
  block whenever the block does not link on and the chunk is not the last.
- "Overwrite" is `(int)sector > 0 || (int)block > 0`.
- A reopened file's handle carries no device bits.
- The cache doubles its capacity instead of evicting.
- `lcopen` empties the cache on every call.
- `lcwrite` ignores the status of the first, partial-block transfer.

## Model

| member | source | states |
|---|---|---|
| Bits.DecodeEncodeLE32 | lcloud_filesys.c:504-506 | a `uint32_t` copied into a block header reads back as the same value |
| Bits.EncodeDecodeLE32 | lcloud_filesys.c:464-466 | four header bytes read as a `uint32_t` and written back are the same four bytes |
| Bits.HeaderOfWithHeader | lcloud_filesys.c:631-633 | the link written into a block's first 12 bytes is the link read from them |
| Bits.Signed32 | lcloud_filesys.c:716 | `(int)` of a `uint32_t` is in the `int32_t` range, wraps back to the same value, and is negative exactly from 2^31 up |
| Frame.Packaging | lcloud_filesys.c:927-935 | for c1, c2 < 256 and d0, d1 < 65536 the C1, C2, D0 and D1 fields of the frame give back c1, c2, d0, d1 and bits 48-63 are zero |
| Frame.WithOpcode | lcloud_filesys.c:917 | an opcode below 256 ORed into a request with an empty C0 field is exactly the C0 field, and the rest of the request is unchanged |
| Frame.ResponseDecodes | lcloud_filesys.c:921-924 | a response's status, D0 and D1 decode to what the device put there, and the request succeeds exactly when the status is 0 |
| Frame.ResponseWords | lcloud_filesys.c:961-962 | the 16-bit geometry words of an init response are the ones the device sent |
| Frame.MaskBitsSpec | lcloud_filesys.c:156-162 | flag i of the probe mask is bit i of the response's D0 field |
| Frame.PackHandle | lcloud_filesys.c:191-192 | for a device below 256 and a handle below 2^24, splitting the packed handle gives back the device and the handle |
| Frame.DeviceOfHandle | lcloud_filesys.c:216 | the device id of a handle is below 256 |
| Frame.HandleOf | lcloud_filesys.c:217 | the per-file handle number is below 2^24 |
| Frame.SplitPackHandle | lcloud_filesys.c:216-217 | repacking a split handle gives the handle back |
| Cache.IndexOf | lcloud_cache.c:95-104 | the position of the first line with the key, or -1 exactly when no line has it |
| Cache.MoveToFrontOrder | lcloud_cache.c:173-183 | relinking a line as the head puts it first and keeps every other line in its old relative order, as a permutation |
| Cache.MoveToFrontUnique | lcloud_cache.c:164-186 | relinking keeps one line per key and the same set of keys |
| Cache.PutThenGet | lcloud_cache.c:91-114 | after a put the key is the head line, a get returns the new block, and there is still one line per key |
| Cache.PutKeepsKeys | lcloud_cache.c:106-112 | a put never removes a key, and the count grows by one exactly on an absent key |
| Cache.TouchKeeps | lcloud_cache.c:58-79 | a get on a present key moves its line to the head with its block; on an absent key it changes nothing; keys and count are kept |
| Cache.CapacityCovers | lcloud_cache.c:196-198 | with doubling on a full insert the count stays within a positive capacity; AddLine uses it to keep `BlockCache.Valid`, which bounds the count by a positive capacity |
| Cache.BlockCache.InitCache | lcloud_cache.c:124-132 | empty list, the given capacity, count 0, result 1 |
| Cache.BlockCache.CloseCache | lcloud_cache.c:142-155 | empty list, count and capacity 0, result 0 |
| Cache.BlockCache.ReplaceLine | lcloud_cache.c:164-186 | the list becomes the line moved to the head; counters unchanged; one line per key kept |
| Cache.BlockCache.AddLine | lcloud_cache.c:195-221 | the new line becomes the head, the count grows by one, and the capacity doubles when the count had reached it; the count stays within a positive capacity |
| Cache.BlockCache.GetCache | lcloud_cache.c:58-79 | found exactly when the key is present (never on an empty cache); then the block is that key's; the list becomes Touch of the old list |
| Cache.BlockCache.RefreshLine | lcloud_cache.c:97-100 | a put on a present key relinks its line as the head and overwrites its block: the list becomes Put of the old list, counters unchanged |
| Cache.BlockCache.PutCache | lcloud_cache.c:91-114 | the list becomes Put of the old list; the count is unchanged on a present key and grows by one (with doubling) on an absent key |
| Bus.DeviceBus.DevInit | lcloud_filesys.c:956-960 | the init request returns the device's response, and a failure status for a device that does not answer |
| Bus.DeviceBus.ReadBlock | lcloud_filesys.c:328-333 | a read transfer fails exactly on a failing device and otherwise returns the stored block |
| Bus.DeviceBus.WriteBlock | lcloud_filesys.c:638-640 | a write transfer fails exactly on a failing device and otherwise stores the block at that address only |
| Allocator.NewDeviceFromResponse | lcloud_filesys.c:952-970 | a device answering init with status 0 gets the response's geometry, cursor (0, 1), not full, no files |
| Allocator.AdvanceSpec | lcloud_filesys.c:973-988 | inside the geometry: result -1 exactly at the last block of the last sector, which only sets the full flag; otherwise result 1 and the cursor moves to the very next position in allocation order |
| Allocator.FreshCursorInGeometry | lcloud_filesys.c:965-966 | the fresh (0, 1) cursor lies inside any geometry with at least two blocks |
| Allocator.NextDeviceSpec | lcloud_filesys.c:990-999 | the spill-over device is the lowest slot holding a non-full device other than the given one, and is 20 exactly when every other device is full |
| Allocator.GetNextDeviceId | lcloud_filesys.c:990-999 | the loop returns NextDevice of the table |
| Allocator.NextDeviceSameFlags | lcloud_filesys.c:990-999 | the spill-over device depends only on which slots hold devices and their full flags |
| Accounting.Start | lcloud_filesys.c:424 | the signed remainder is length - currentLength whenever currentLength <= length < 2^31 |
| Accounting.ChunksSnoc | lcloud_filesys.c:656-667 | one more chunk is one more bookkeeping step, and the byte count grows by it |
| Accounting.ChunksKeepConsistent | lcloud_filesys.c:657-665 | while below 2^31 the chunks keep position + remainder == length, never shrink the length, and advance the position by the bytes written |
| Accounting.WriteAccounting | lcloud_filesys.c:657-696 | with the corrected first chunk, a write of n bytes at position p of a file of length L ends at position p + n with length max(L, p + n) |
| Accounting.FirstChunkAsWrittenLosesPosition | lcloud_filesys.c:538-545 | as written, length 100, position 50, a write of 100 bytes ends at position 100 instead of 150 |
| Accounting.FirstChunkAsWrittenLosesLength | lcloud_filesys.c:538-545 | as written, length 100, position 50, a write of 194 + 106 bytes ends with length 300 instead of 350 |
| Table.HandleIndex | lcloud_filesys.c:234-240 | the first record with the handle, or -1 exactly when no record has it |
| Table.PathIndex | lcloud_filesys.c:133-134 | the first record with the path, or -1 exactly when no record has it |
| Table.FindPath | lcloud_filesys.c:131-146 | a found (slot, record) is in the table and has the path |
| Table.FindPathMisses | lcloud_filesys.c:131-151 | the search finds nothing exactly when no record of the table has the path |
| Table.SetRecord | lcloud_filesys.c:138 | replacing one record keeps the slots and every other record |
| Table.SetRecordKeepsTable | lcloud_filesys.c:291-308 | a record replaced by one with the same path and an offset within a payload keeps the table invariant |
| Table.AddDeviceKeepsTable | lcloud_filesys.c:163-166 | installing a device with no files in an empty slot keeps the table invariant |
| Table.SetDeviceKeepsTable | lcloud_filesys.c:189 | changing a device's cursor or flag keeps the table invariant |
| Table.AppendFileKeepsTable | lcloud_filesys.c:181-193 | appending a record for a path no record has, at offset 0, keeps the table invariant |
| Transfer.Follow | lcloud_filesys.c:344-348 | the record follows a link unless it is the end-of-chain sentinel, keeping file identity, length, offset and position |
| Transfer.FirstCount | lcloud_filesys.c:255-260 | the first read step copies up to the end of the payload or the whole request, never past either |
| Transfer.ReadFirst | lcloud_filesys.c:253-310 | the first read step appends the payload bytes from the offset, moves request, file remainder and position by that count, and moves to the next block exactly when the request reaches the payload's end |
| Transfer.ReadBlockStep | lcloud_filesys.c:338-371 | a whole 244-byte payload (header skipped) when both remainders reach 244; else the request's tail when the file holds it; else failure exactly when the file remainder is below both 244 and the request |
| Transfer.ReadStepKeeps | lcloud_filesys.c:338-371 | a loop step keeps the copied bytes equal to the request used and the position moved by them (`uint32_t`), shortens the request, and can fail only on a file that did not hold the whole request |
| Transfer.SentinelIsNotALink | lcloud_filesys.c:469-471 | neither the end-of-chain header nor a zero header counts as a link to overwrite through |
| Transfer.AllocateSpec | lcloud_filesys.c:482-499 | an allocated link is the cursor of a non-full device (the file's own unless exhausted, then the spill-over device, with the exhausted one marked full); that cursor advances and nothing else changes; stuck exactly when the device record is missing, or when it is exhausted and no other device has room |
| Transfer.AllocateFresh | lcloud_filesys.c:496-498 | an allocated block is never handed out again: the device is full or its cursor has moved past it |
| Transfer.ChunkBlock | lcloud_filesys.c:631-634 | the sent block carries the link in its header and the data at its payload offset, with the other payload bytes unchanged |
| Transfer.PlanChunkSpec | lcloud_filesys.c:585-634 | a block that links on keeps its link; the last chunk ends an unlinked chain with (-1, -1, -1); other chunks link to a freshly allocated cursor block; undefined exactly when a new block is needed and the record's device is missing, or is exhausted with no other device having room; file records and the table invariant are kept |
| Transfer.SetRecordKeepsRoom | lcloud_filesys.c:482-499 | replacing a file record does not change whether a device has room for a new block |
| FileSys.FileSystem.constructor | lcloud_filesys.c:73-83 | empty device table, handle counter 1, power and init flags off |
| FileSys.FileSystem.Lookup | lcloud_filesys.c:410-421 | the device is the handle's top byte; -1 when that slot is empty or the handle number is 0, else the first record with the handle number (-1 exactly when none has it, by Table.HandleIndex) |
| FileSys.FileSystem.Fetch | lcloud_filesys.c:318-336 | a block is obtained exactly when the cache holds the key or the device answers; the result is the cached block or the stored one; the cache is touched or gets the block |
| FileSys.FileSystem.Close | lcloud_filesys.c:828-851 | -1 exactly when no open record matches; otherwise only that record's handle becomes 0 and the result is 0 |
| FileSys.FileSystem.Walk | lcloud_filesys.c:763-807 | the walk passes whole payloads only; on success it has passed every whole payload before the target; it fails only when some device fails its transfers |
| FileSys.FileSystem.SeekRecord | lcloud_filesys.c:742-816 | the `size_t` target decides the first-payload branch: there the record returns to the chain head at offset and position `off`; beyond it the low 32 bits `w` are used: 0 returns to the head at 0, below 2^31 the seek ends at position `w` and payload offset `w % 244` or fails at a payload boundary, from 2^31 on the result is negative and the position 0; with no failing device a target with 0 < w < 2^31 is reached |
| FileSys.FileSystem.Seek | lcloud_filesys.c:710-818 | -1 and no change for an unknown handle or when the low 32 bits of the target exceed the length; otherwise only the record changes, as SeekRecord states, and with no failing device the seek reaches its target |
| FileSys.FileSystem.ReadNext | lcloud_filesys.c:317-336 | the block is obtained exactly when Source (cache line, else device) gives one, and the loop step is ReadBlockStep on that block; the cache is left as Fetch leaves it |
| FileSys.FileSystem.ReadFirstAt | lcloud_filesys.c:262-289 | the block is obtained exactly when Source gives one, and the first step is ReadFirst on that block; the cache is left as Fetch leaves it |
| FileSys.FileSystem.StartRead | lcloud_filesys.c:249-310 | the file remainder is length - currentLength as `uint32_t`; the bytes copied match the position moved; a request within the file stays within the remainder; it fails exactly when the record is inside a block that Source does not give, so only on a failing device |
| FileSys.FileSystem.ReadBlocks | lcloud_filesys.c:313-372 | the loop keeps Transfer.ReadFrom: the bytes copied match the request used and the position moved; when the file holds the request, success uses up the whole request; failure means a failing device or a file that does not hold the request |
| FileSys.FileSystem.ReadRecord | lcloud_filesys.c:249-376 | -1 with no bytes, or at most `len` bytes with the result their count as `(int)` of the `uint32_t`, the position moved by them; a request within the file is met in full unless the read fails, and with no failing device it is met and returns `(int) len` |
| FileSys.FileSystem.Read | lcloud_filesys.c:213-377 | -1 and no change for an unknown handle; otherwise only the record changes, as ReadRecord states, and with no failing device a request within the file returns all `len` bytes |
| FileSys.FileSystem.WriteChunk | lcloud_filesys.c:566-642 | a chunk succeeds exactly when the block is obtained and its plan is defined; the sent block is the plan's; the device stores it exactly when the transfer succeeds; the cache gets it either way |
| FileSys.FileSystem.ChunkAt | lcloud_filesys.c:441-514 | a chunk succeeds exactly when Source gives the block and PlanChunk for it is defined, and then carries out that plan, keeping the records and the table invariant, its transfer going through exactly off the failing devices; a failed chunk is on a failing device or needed a block no device had room for |
| FileSys.FileSystem.ChunkPlan | lcloud_filesys.c:585-612 | the plan for the obtained block uses NextDevice of the table as the spill-over device |
| FileSys.FileSystem.WriteFirst | lcloud_filesys.c:431-548 | the first, partial-block chunk keeps the records, leaves the record at a payload start when bytes remain, and its bookkeeping is the corrected chunk step; it fails only on a failing device or when no device has room for a needed block |
| FileSys.FileSystem.WriteStep | lcloud_filesys.c:566-684 | one whole-block chunk keeps the records and the file; a non-final successful chunk leaves the record at a payload start; the transfer goes through exactly off the failing devices; a failed chunk changes nothing and is on a failing device or needed a block no device had room for |
| FileSys.FileSystem.WriteLoop | lcloud_filesys.c:552-691 | on success the whole buffer was written, and the bookkeeping is the chunk steps over chunks summing to it; failure means a failing device or a needed block no device had room for |
| FileSys.FileSystem.WriteFile | lcloud_filesys.c:424-698 | a successful write that stays below 2^31 moves the position by the bytes written and makes the length max(old length, new position); records and table invariant are kept; failure means a failing device or a needed block no device had room for |
| FileSys.FileSystem.WriteRecord | lcloud_filesys.c:419-698 | the written record is put back and, apart from device cursors and full flags, is the only record that changes; failure means a failing device or a needed block no device had room for |
| FileSys.FileSystem.Write | lcloud_filesys.c:387-699 | -1 and no change for an unknown handle; otherwise the result is -1 or `(int)` of the byte count, only the written record changes apart from cursors and flags, it moves as WriteFile states, and a result other than the byte count means a failing device or a needed block no device had room for |
| FileSys.FileSystem.Search | lcloud_filesys.c:131-146 | the step-0 scan finds FindPath of the table |
| FileSys.FileSystem.NewDevice | lcloud_filesys.c:952-970 | the init request succeeds exactly on a success status, and the record is built from that response |
| FileSys.FileSystem.AddDevice | lcloud_filesys.c:175-178 | an empty slot gets the record its init response builds, if the request succeeds; an occupied slot is left alone |
| FileSys.FileSystem.InitDevices | lcloud_filesys.c:160-170 | every slot the probe names that had no device gets one exactly when it answers init; no other slot is filled |
| FileSys.FileSystem.InitOnce | lcloud_filesys.c:160-170 | the devices are initialised on the first call only; later calls leave the table alone |
| FileSys.FileSystem.PlaceFile | lcloud_filesys.c:180-195 | the device gains a record at its cursor with the counter as handle and offset 0; the cursor advances; the counter grows by one; the result packs device and handle |
| FileSys.FileSystem.ClaimSlot | lcloud_filesys.c:172-198 | one named slot, every earlier named slot full: Dead exactly leaves the slot empty because the device does not answer init (failure value); Full moves on with every named slot up to this one full; Taken creates the record there |
| FileSys.FileSystem.TakeSlot | lcloud_filesys.c:180-195 | the record is created on the given non-full device, and the full devices before it stay full |
| FileSys.FileSystem.Place | lcloud_filesys.c:172-198 | the record goes on the first named device that is not full, every named device before it full; 0 and no record only when every named device is full; the failure value and no record only when the first named non-full slot is empty and its device does not answer init |
| FileSys.FileSystem.Create | lcloud_filesys.c:149-199 | probe failure gives -1 and no change; otherwise only devices are added and at most one record is created, on the first named non-full device; no record is created only for the reasons Declined gives (probe failed, every named device full, or the first named non-full slot's device does not answer init) |
| FileSys.FileSystem.Reopen | lcloud_filesys.c:137-141 | a closed record takes the counter as its handle; the result is the bare handle number |
| FileSys.FileSystem.OpenPath | lcloud_filesys.c:130-199 | an open path fails with -1 and no change; a closed one is reopened; a new path is created, or declined only for the reasons Create states |
| FileSys.FileSystem.PowerUp | lcloud_filesys.c:120-126 | the devices are on afterwards exactly when they were already, or the power-on request succeeds |
| FileSys.FileSystem.Open | lcloud_filesys.c:109-202 | power-on failure gives -1 and changes neither the table nor the cache; otherwise the cache is emptied with capacity 256 and the path is opened as OpenPath states |

## Left out

- `lcshutdown` (`lcloud_filesys.c:861-894`) is not modelled. It frees memory, prints the hit/miss statistics (including a floating-point ratio), and sends the power-off request.
- The `hit`/`miss` counters are not modelled; they are statistics only.
- `LCFileInfoToChar` and `GetFileInfoFromBuffer` are not modelled; the file operations do not use them.
- lcloud_client.c is not part of this model: socket I/O and byte-order conversion. `LCRequestFrame`'s transport becomes the `Bus` class, and a transfer's status is decided by the device (the failing set).
- `respondFrame < 0` is taken to detect every failure status. The frame type and `LC_SUCCESS` (taken to be 0) come from a header that is not part of this model.
- Memory layout is not modelled.
  - The 300-slot file array, `malloc`/`free`, and the cache leaked on re-initialisation are not modelled.
  - The linked list's `prev`/`next`/`tail` pointers are not modelled. Recency is the order of a sequence, and the stale `tail` never changes that order.
  - Fields of a freshly `malloc`ed record that `lcopen` does not set (`length`, `offset`, `currentLength`) are taken to be 0.
  - The 64-byte path copy and the NUL byte `lcread` stores after the data are not modelled.
- Undefined behaviour becomes the -1 failure result. This covers a handle whose device slot is empty, `lcread`'s dereference before its null check, and the `deviceInfo[20]` access when no spill-over device exists.
- The cache key keeps the sector and block as `uint16_t`. The device id is kept whole, because the width of `LcDeviceId` comes from a header that is not part of this model.
- Transfer.AllocateFresh: assumes every cursor lies inside its device's geometry. The table invariant does not carry this, because a device that reports fewer than two blocks per sector gets the (0, 1) cursor outside its geometry.
- FileSys.FileSystem.Write: `len` is taken below 2^32. The source truncates `size_t` to `uint32_t` silently.
- FileSys.FileSystem.Write: the corrected first-chunk bookkeeping is used (see Findings), not the one as written.
- FileSys.FileSystem.Write: a failure is traced to a failing device or to a needed block no device had room for, not to the chunk it happened on.
- FileSys.FileSystem.Write: does not state the bus contents or the record's final block after the whole write. Each chunk's block and link are stated by WriteChunk and Transfer.PlanChunkSpec.
- FileSys.FileSystem.Read: states the number of bytes returned and each block's copy, on the block Source gives (the cache line for its key, else the device's stored block). It does not state the returned bytes as one function of the chain, because that needs the chain of links followed through Source from the record's block, which the model does not define.
- FileSys.FileSystem.Read: takes `len` as the `uint32_t` lcread converts its `size_t` argument to; lcread uses nothing else of it.
- FileSys.FileSystem.Read: does not state the cache after a call that reads several blocks; each block's effect on it is stated by Fetch, ReadNext and ReadFirstAt.
- FileSys.FileSystem.Seek: does not state the cache after a seek that walks several blocks, for the same reason as Read.
- FileSys.FileSystem.Walk: does not state the cache after the walk; each block's effect on it is stated by Fetch.
- FileSys.FileSystem.Walk: does not state which block the walk ends on, for the same reason as Read: the chain of links through Source is not defined as a function.
- FileSys.FileSystem.SeekRecord: does not state the final (device, sector, block), only the position and payload offset.
- FileSys.FileSystem.Seek: `size_t` is taken as 64 bits wide.
- FileSys.FileSystem.Create: when a named device does not answer init, the model states that some named slot is DeadAt; Place fixes it as the first named slot that is not full.

## Findings

| source | as written | input that shows it | evidently intended | confidence | as-written member | corrected member |
|---|---|---|---|---|---|---|
| lcloud_filesys.c:538-545 | a first, partial-block chunk that crosses the old end of file adds `writeBytes - remFileLength` to `currentLength` and leaves `remFileLength` unchanged | length 100, position 50 (payload offset 50), a write of 100 bytes: length 150 but position 100; a write of 194 + 106 bytes: length 300 instead of 350 | the position advances by the bytes written and the remainder drops to 0, as the whole-block loop does at lines 657-661 | high; not executed | Accounting.FirstChunkAsWrittenLosesPosition | Accounting.WriteAccounting |
