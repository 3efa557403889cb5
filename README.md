# canadensis core, modelled in Dafny

canadensis is a Rust implementation of the Cyphal (formerly UAVCAN) protocol stack. This
project models the sequential core of the stack and proves what that core promises. It covers
seven parts:

- **`BitArray`** (`bits.dfy`, module `Bits`). A fixed-capacity bit vector stored in a byte
  array in DSDL bit order: bit `i` is bit `i % 8` of byte `i / 8`, least significant bit
  first. The model covers `new`, `default`, `len`, `is_empty`, `get`, `set`, `fill`,
  `split_index`, the iterator, equality and the total order.
- **`RedundantQueue`** (`redundant_queue.dfy`, module `RedundantQueues`). A frame sink that
  fans out to two inner sinks, which may themselves be redundant queues. It remembers the
  outcome of each inner `try_reserve` and pushes only to the sinks that reserved
  successfully.
- **The serial transmitter** (`serial_tx.dfy`, module `SerialTransmit`):
  - `TransmitQueue`, a bounded byte deque;
  - `SerialTransmitter::push`, which queues one COBS-escaped frame between two zero
    delimiters, all or nothing;
  - `flush`, which drains the queue into a byte driver and returns a refused byte to the
    front.
- **Cyphal/CAN transmit framing** (`can_tx.dfy`, `crc.dfy`, `can_tx_vectors.dfy`, modules
  `CanTransmit`, `TransferCrc`, `CanTransmitVectors`). This part follows sections 4.2.1 and
  4.2.2 of the Cyphal Specification v1.0 as the transmitter's test vectors pin it down:
  - the 29-bit CAN ID of messages and services;
  - the tail byte;
  - the split into frames with a CRC-16/CCITT-FALSE trailer;
  - padding to valid CAN FD lengths, using the DLC table of ISO 11898-1.

  Every vector of the transmitter test suite is proved as a lemma.
- **The bxCAN driver** (`bxcan.dfy`, module `BxCan`):
  - the three-slot `DeadlineTracker`;
  - `try_reserve`;
  - the deadline decisions of `transmit` and `clean_expired_frames`;
  - the frame conversions.
- **The code generator's module tree** (`module_tree.dfy`, module `ModuleTrees`).
  `ModuleTree` with `default`, `add_item`, `from_iter` and the order its `Display` writes
  modules in.
- **The code generator's naming logic** (`codegen.dfy`, module `Codegen`):
  - `external_module`;
  - the Rust type names of messages and services, and their `Display`;
  - `to_rust_type`, `round_up_integer_size` and `make_rust_identifier`;
  - the zero-copy predicates;
  - `generate_code`, which filters external types and collects items into a module tree.

`wrappers.dfy` (module `Wrappers`) holds the shared `Option`, `Ordering`, `Status` (the
`Result<(), OutOfMemoryError>` of the source) and `byte` types.

Parts of the system are not visible to this model: the hardware, the byte driver, the COBS
encoder, the CRC-32 of the serial transport, the serial header, the `heck` case conversions
and `overflow_safe_compare`. Each enters the model as a parameter:

- hardware and driver answers appear as reply values or reply functions, such as
  `HardwareReply`, `reply: nat -> SendReply<E>` and the allocator's answer
  `bufferAllocated`;
- the calls a method makes on the hardware are returned as out-parameters (`aborted`,
  `handed`, `sent`);
- pure foreign functions appear as function-typed parameters (`Cobs`, `Cases`, `compare`),
  with the contract the code relies on stated as a predicate (`Cobs.Valid`).

The CAN transmitter's own source is not part of this model. The CAN framing functions are
reconstructed from the test vectors in `canadensis_can/tests/tx.rs`, and the anonymous pseudo
node ID is an input.

## Model

| member | source | states |
|---|---|---|
| Bits.SplitIndex | canadensis_encoding/src/bits.rs:113-119 | Defined only for `i < bit_length`. The byte index and the bit-in-byte index recombine to `i`, and the bit index is below 8. |
| Bits.SetByteBitReads | canadensis_encoding/src/bits.rs:45-54 | Setting bit `k` of a byte with a mask sets that bit to `v` and leaves the other seven bits alone. |
| Bits.BitsOfIndex | canadensis_encoding/src/bits.rs:37-42 | Element `i` of the abstract bit sequence is the bit `get` reads from byte `i / 8` at position `i % 8`. |
| Bits.BitsOfSetByteBit | canadensis_encoding/src/bits.rs:45-54 | Writing bit `k` of byte `j` changes exactly bit `8j + k` of the array's bits. |
| Bits.BitsOfUniform | canadensis_encoding/src/bits.rs:57-63 | A buffer of all-`0xff` (all-`0x00`) bytes reads true (false) at every index. |
| Bits.BitsIgnoreUnusedBytes | canadensis_encoding/src/bits.rs:204-217 | Bytes wholly beyond the bit length do not contribute to the bits, so equality ignores them. |
| Bits.BitsOfExt | canadensis_encoding/src/bits.rs:204-217 | Buffers that agree on the first `n` bits have equal bit sequences. |
| Bits.FirstDifferenceDecides | canadensis_encoding/src/bits.rs:233-250 | At equal length, the first differing bit decides `compare`, with true greater than false. |
| Bits.CompareEqualIff | canadensis_encoding/src/bits.rs:233-250 | `compare` returns `Equal` exactly when lengths and all bits agree, which is when `eq` holds. |
| Bits.CompareAntisymmetric | canadensis_encoding/src/bits.rs:221-250 | Swapping the operands reverses the ordering. |
| Bits.CompareTransitive | canadensis_encoding/src/bits.rs:227-250 | `Less` is transitive, so `Ord` is a total order. |
| Bits.ShorterIsLess | canadensis_encoding/src/bits.rs:233-239 | A shorter array is less than a longer one, whatever the bits. |
| Bits.BitArray.New | canadensis_encoding/src/bits.rs:19-25 | Requires `bit_length <= BYTES * 8`. Yields `bit_length` bits, all false, over zeroed storage. |
| Bits.BitArray.Default | canadensis_encoding/src/bits.rs:132-139 | The default array has zeroed storage and no bits. |
| Bits.BitArray.Len | canadensis_encoding/src/bits.rs:27-29 | The length is the number of bits. |
| Bits.BitArray.IsEmpty | canadensis_encoding/src/bits.rs:32-34 | True exactly when the array holds no bits. |
| Bits.BitArray.Get | canadensis_encoding/src/bits.rs:37-42 | Requires an index below the length. Returns that element of the bit sequence. |
| Bits.BitArray.Set | canadensis_encoding/src/bits.rs:45-54 | The bit sequence becomes the old one with bit `i` replaced by `v`. The length and every other storage byte are unchanged. |
| Bits.BitArray.Fill | canadensis_encoding/src/bits.rs:57-63 | Every storage byte becomes `0xff` or `0x00`; every bit reads `v`; the length is unchanged. |
| Bits.BitArray.Equals | canadensis_encoding/src/bits.rs:203-217 | True iff the lengths match and every bit agrees; storage beyond the length is ignored. |
| Bits.Iter.constructor | canadensis_encoding/src/bits.rs:101-107 | A fresh iterator stands at the first bit of the array. |
| Bits.Iter.Next | canadensis_encoding/src/bits.rs:151-159 | Yields the bit at the cursor and advances. At the end it yields `None` and stays put. |
| Bits.CollectBits | canadensis_encoding/src/bits.rs:162-169 | Iterating an array yields exactly `len()` values, the k-th being `get(k)`. |
| Bits.Compare | canadensis_encoding/src/bits.rs:233-250 | The zipped loop with early return computes the length-first lexicographic order. |
| TransferCrc.CrcBytes | canadensis_can/tests/tx.rs:158-170 | The trailer is the CRC in big-endian byte order. |
| TransferCrc.AddAppend | canadensis_can/tests/tx.rs:158-170 | Feeding a concatenation equals feeding its parts in turn. |
| TransferCrc.CrcOfTrailedPayload | canadensis_can/tests/tx.rs:158-170 | A payload followed by its big-endian CRC has CRC zero. |
| TransferCrc.CheckValue | canadensis_can/tests/tx.rs:158-170 | The standard CRC-16/CCITT-FALSE check value: `0x29B1` for the bytes of "123456789". |
| CanTransmit.PriorityCode | canadensis_can/tests/tx.rs:27-44 | Priorities take three-bit codes, with 0 only for `Exceptional`. |
| CanTransmit.Capacity | canadensis_can/tests/tx.rs:158-170 | A frame carries one byte fewer than the MTU, because of the tail byte. |
| CanTransmit.MessageCanIdFields | canadensis_can/tests/tx.rs:27-44 | Message CAN ID layout: priority in bits 26-28, bits 21-22 set, subject in bits 8-20, source in bits 0-6. An anonymous transfer sets bit 24 and carries the pseudo-ID. The ID fits in 29 bits. |
| CanTransmit.ServiceCanIdFields | canadensis_can/tests/tx.rs:106-124 | Service CAN ID layout: bit 25 set, bit 24 set for requests, service ID in bits 14-22, destination in bits 7-13, source in bits 0-6. The ID fits in 29 bits. |
| CanTransmit.ParseTailByte | canadensis_can/tests/tx.rs:43-44 | The tail byte holds start in bit 7, end in bit 6, toggle in bit 5 and the transfer ID in bits 0-4. Each reads back as written. |
| CanTransmit.RoundUpLength | canadensis_can/tests/tx.rs:91-100 | The smallest valid frame length holding `n` bytes. |
| CanTransmit.FrameCountSum | canadensis_can/tests/tx.rs:158-170 | The full frames plus the last chunk add up to the stream length. |
| CanTransmit.LastChunkGrow | canadensis_can/tests/tx.rs:204-224 | Bytes that fit into the last frame do not add a frame. |
| CanTransmit.Zeros | canadensis_can/tests/tx.rs:91-100 | Padding is `n` zero bytes. |
| CanTransmit.SplitCount | canadensis_can/tests/tx.rs:158-170 | A split has one frame per started frame's worth of bytes, and at least one frame. |
| CanTransmit.SplitBodies | canadensis_can/tests/tx.rs:158-170 | Concatenating the frame bodies, tail bytes dropped, gives back the stream. |
| CanTransmit.SplitFrameAt | canadensis_can/tests/tx.rs:158-170 | Every frame has the same deadline and ID, `cap` bytes except the last, and a tail. Start is set only on the first frame and end only on the last. The toggle alternates starting at 1, and the transfer ID is constant. |
| CanTransmit.StreamLastFrame | canadensis_can/tests/tx.rs:204-224 | The padding fills the last frame to exactly a valid length. |
| CanTransmit.TransferFrameAt | canadensis_can/tests/tx.rs:158-170 | Each frame of a transfer carries the header's deadline and CAN ID and has a valid length. Every frame but the last is MTU-sized. |
| CanTransmit.SingleFrameTransfer | canadensis_can/tests/tx.rs:43-44 | A payload that fits one frame becomes one frame: the payload, its zero padding and the tail byte with start, end and toggle set. There is no CRC. |
| CanTransmit.EmptyTransfer | canadensis_can/tests/tx.rs:117-129 | An empty payload becomes one frame holding only the tail byte. |
| CanTransmit.MultiFrameTransfer | canadensis_can/tests/tx.rs:158-170 | A longer payload spans several frames. Their bodies are the payload, its padding and the big-endian CRC over both, and a receiver that checks the CRC sees zero. |
| CanTransmit.ClassicCanHasNoPadding | canadensis_can/tests/tx.rs:158-170 | Classic CAN frames are never padded. |
| CanTransmitVectors.HeartbeatFrames | canadensis_can/tests/tx.rs:25-48 | The heartbeat from node 42 on subject 7509 at priority nominal is one frame: ID `0x107d552a`, the payload and tail `0xe0`. |
| CanTransmitVectors.HeartbeatNextFrames | canadensis_can/tests/tx.rs:49-71 | Transfer ID 1 changes only the tail, to `0xe1`. |
| CanTransmitVectors.StringFrames | canadensis_can/tests/tx.rs:75-103 | The anonymous CAN FD message: ID `0x1173376c`, 14 data bytes and one byte of padding before the tail, 16 bytes in all. |
| CanTransmitVectors.NodeInfoRequestFrames | canadensis_can/tests/tx.rs:106-130 | The empty request to node 42 is one tail-only frame with ID `0x136b957b`. |
| CanTransmitVectors.ResponseCrc | canadensis_can/tests/tx.rs:133-177 | The response payload has CRC `0x9ae7`. |
| CanTransmitVectors.NodeInfoResponseFrames | canadensis_can/tests/tx.rs:133-177 | The 69-byte response takes eleven classic CAN frames with ID `0x126bbdaa`. The toggle alternates, and the CRC spills into the eleventh frame. |
| CanTransmitVectors.ArrayCrc | canadensis_can/tests/tx.rs:181-225 | The CRC over the array payload and its 14 padding bytes is the one in the vector. |
| CanTransmitVectors.ArrayFrames | canadensis_can/tests/tx.rs:181-225 | The 94-byte CAN FD transfer is two frames: 63 bytes and a tail, then 31 bytes, 14 zeros, the CRC and a tail, 48 bytes in all. |
| Wrappers.Status.Or | canadensis_can/src/redundant/redundant_queue.rs:46 | `Result::or` on statuses: `Ok` iff either is `Ok`. |
| RedundantQueues.Reserve | canadensis_can/src/redundant/redundant_queue.rs:41-47 | Reserving changes no queue contents. |
| RedundantQueues.Push | canadensis_can/src/redundant/redundant_queue.rs:60-75 | Pushing keeps every recorded status and the number of leaf queues. |
| RedundantQueues.ReserveFits | canadensis_can/src/redundant/redundant_queue.rs:41-47 | If some leaf queue has room, reserving succeeds and leaves every status on the path to that leaf `Ok`. |
| RedundantQueues.ReserveOutcome | canadensis_can/src/redundant/redundant_queue.rs:41-47 | `try_reserve` is `Ok` iff at least one leaf queue has room for the reservation, at any nesting depth. |
| RedundantQueues.PushAt | canadensis_can/src/redundant/redundant_queue.rs:60-75 | A leaf gains the identical frame iff every status on its path is `Ok` and it has room; otherwise it is untouched. |
| RedundantQueues.PushOutcome | canadensis_can/src/redundant/redundant_queue.rs:60-75 | `push_frame` is `Ok` iff the frame landed on at least one leaf queue. |
| RedundantQueues.ReserveThenPush | canadensis_can/src/redundant/redundant_queue.rs:41-75 | After a successful reservation of at least one frame, the next push succeeds. |
| RedundantQueues.ShrinkKeeps | canadensis_can/src/redundant/redundant_queue.rs:49-52 | `shrink_to_fit` changes neither contents nor statuses. |
| RedundantQueues.TripleRedundancy | canadensis_can/src/redundant/redundant_queue.rs:9 | With three leaves (a nested redundant queue), reserve and push are `Ok` iff one of the three queues succeeded. |
| RedundantQueues.RedundantQueue.constructor | canadensis_can/src/redundant/redundant_queue.rs:23-30 | Both recorded statuses start `Ok`. |
| RedundantQueues.RedundantQueue.TryReserve | canadensis_can/src/redundant/redundant_queue.rs:41-47 | Calls both inner queues and stores each result. Returns `Ok` iff either stored status is `Ok`. |
| RedundantQueues.RedundantQueue.ShrinkToFit | canadensis_can/src/redundant/redundant_queue.rs:49-52 | Shrinks both inner queues; the statuses stay as they are. |
| RedundantQueues.RedundantQueue.PushFrame | canadensis_can/src/redundant/redundant_queue.rs:60-75 | Leaves the statuses alone and leaves untouched any queue whose last reserve failed. Pushes the same frame to the others and returns `Ok` iff one of them accepted. |
| SerialTransmit.WireFrame | canadensis_serial/src/tx.rs:94-98 | A queued frame is `[0] ++ escaped ++ [0]`, two bytes longer than the escaped data. |
| SerialTransmit.DelimitersOnlyAtEnds | canadensis_serial/src/tx.rs:94-98 | With delimiter-free escaped data, the delimiter appears exactly at the frame's two ends. |
| SerialTransmit.FirstRefused | canadensis_serial/src/tx.rs:107-121 | The index of the first byte the driver does not accept; every earlier byte was accepted. |
| SerialTransmit.TransmitQueue.PushBack | canadensis_serial/src/tx.rs:140-142 | Appends iff there is room; otherwise `OutOfMemory` and nothing changes. |
| SerialTransmit.TransmitQueue.PushFront | canadensis_serial/src/tx.rs:157-159 | Prepends iff there is room; otherwise `OutOfMemory` and nothing changes. |
| SerialTransmit.TransmitQueue.PopFront | canadensis_serial/src/tx.rs:153-155 | Removes and returns the oldest byte. Returns `None` when the queue is empty. |
| SerialTransmit.TransmitQueue.Free | canadensis_serial/src/tx.rs:144-151 | Free space is capacity minus length. |
| SerialTransmit.SerialTransmitter.Push | canadensis_serial/src/tx.rs:53-101 | `Pushed` iff the worst-case wire length `escaped_size(len + 4) + 2` fits the free space and the escape buffer is allocated. Then the queue is the old contents plus `[0] ++ escape(header ++ payload ++ crc) ++ [0]`. Otherwise the queue is unchanged: no partial frame, and no `push_back` fails. |
| SerialTransmit.SerialTransmitter.Flush | canadensis_serial/src/tx.rs:103-124 | Sends bytes in FIFO order up to the first refusal, which is put back at the front (`push_front` cannot fail there). Leaves the original queue minus the sent prefix, and reports `WouldBlock`, the driver error or success. |
| SerialTransmit.SerialTransmitter.Mtu | canadensis_serial/src/tx.rs:126-129 | The MTU is `usize::MAX`. |
| SerialTransmit.UnrefusedPrefix | canadensis_serial/src/tx.rs:107-121 | When the first `i` bytes are accepted and byte `i` is refused or absent, the first refusal is at `i`. |
| SerialTransmit.FlushAllAccepted | canadensis_serial/src/tx.rs:107-123 | With a driver that accepts everything, flush sends the whole queue and leaves it empty. |
| BxCan.Mailbox.Index | canadensis_bxcan/src/lib.rs:238-241 | Mailboxes index the three tracker slots. |
| BxCan.BxcanFrameToUavcan | canadensis_bxcan/src/lib.rs:259-274 | Converts iff the frame has an extended ID that is a valid CAN ID and carries data. The result keeps ID and data and takes the given timestamp. |
| BxCan.UavcanFrameToBxcan | canadensis_bxcan/src/lib.rs:249-253 | Yields an extended-ID data frame of at most 8 bytes. |
| BxCan.FrameRoundTrip | canadensis_bxcan/src/lib.rs:249-274 | Converting to bxCAN and back gives the same ID and data. |
| BxCan.ExtendedRejectedOnlyWithoutData | canadensis_bxcan/src/lib.rs:263-268 | An extended frame is rejected only when it has no data. |
| BxCan.TryReserve | canadensis_bxcan/src/lib.rs:80-88 | `Ok` iff exactly one frame is reserved. |
| BxCan.SentFrameNotExpired | canadensis_bxcan/src/lib.rs:93-96 | With an antisymmetric comparison, a frame `transmit` does not drop is not expired at the same instant. |
| BxCan.DeadlineTracker.constructor | canadensis_bxcan/src/lib.rs:227-231 | All three slots start empty. |
| BxCan.DeadlineTracker.Get | canadensis_bxcan/src/lib.rs:233-235 | Returns the deadline held in the mailbox's own slot. |
| BxCan.DeadlineTracker.Replace | canadensis_bxcan/src/lib.rs:238-241 | Stores the deadline in slot `m` and returns the previous one. The other slots are unchanged. |
| BxCan.CleanExpiredFrames | canadensis_bxcan/src/lib.rs:199-213 | Aborts exactly the mailboxes whose stored deadline is strictly before `now`, in mailbox order. The tracker is not modified. |
| BxCan.Evicted | canadensis_bxcan/src/lib.rs:101-117 | An evicted frame is handed back iff it converts and its mailbox had a deadline, and it is stamped with that deadline. |
| BxCan.BxCanDriver.Transmit | canadensis_bxcan/src/lib.rs:90-127 | First aborts the expired mailboxes. A frame whose deadline is before `now` is dropped without reaching the hardware. One with a deadline equal to `now` is sent; when queued, its deadline replaces the mailbox's and any evicted frame is returned. |
| ModuleTrees.Empty | canadensis_codegen_rust/src/module_tree.rs:12-19 | `ModuleTree::default()`: no items and no children. `EmptyAt` states that it holds nothing at any path. |
| ModuleTrees.AddItem | canadensis_codegen_rust/src/module_tree.rs:22-33 | `add_item`: appends at the root for an empty path, else recurses into the named child, created empty when missing. `AddItemAt` and `AddItemCount` state its effect. |
| ModuleTrees.Placed | canadensis_codegen_rust/src/module_tree.rs:36-47 | The items destined for one path, in input order. |
| ModuleTrees.FromIter | canadensis_codegen_rust/src/module_tree.rs:36-47 | The loop builds the tree in which each node holds exactly the items whose path addresses it, in insertion order. |
| ModuleTrees.AddItemAt | canadensis_codegen_rust/src/module_tree.rs:22-33 | `add_item(path, x)` appends `x` at `path`, creating nodes as needed. Every other node's items are unchanged. |
| ModuleTrees.EmptyAt | canadensis_codegen_rust/src/module_tree.rs:12-19 | The default tree holds no items anywhere. |
| ModuleTrees.CollectAt | canadensis_codegen_rust/src/module_tree.rs:36-47 | Collecting places every item at the node its path names, keeping order. |
| ModuleTrees.PlacedNone | canadensis_codegen_rust/src/module_tree.rs:36-47 | A path no item names holds nothing. |
| ModuleTrees.NoRootItems | canadensis_codegen_rust/src/module_tree.rs:36-47 | If no item has an empty path, the root holds no items. |
| ModuleTrees.AddItemCount | canadensis_codegen_rust/src/module_tree.rs:22-33 | Adding an item grows the total item count by one. |
| ModuleTrees.CollectCount | canadensis_codegen_rust/src/module_tree.rs:36-47 | The tree holds as many items as the input. |
| ModuleTrees.StrLessTotal | canadensis_codegen_rust/src/module_tree.rs:8 | The order of the `BTreeMap<String, _>` keys is total. |
| ModuleTrees.StrLessTransitive | canadensis_codegen_rust/src/module_tree.rs:8 | The key order is transitive. |
| ModuleTrees.LeastExists | canadensis_codegen_rust/src/module_tree.rs:58 | A non-empty key set has a least key. |
| ModuleTrees.SortedKeys | canadensis_codegen_rust/src/module_tree.rs:58 | A node's children are visited once each, in ascending key order. |
| ModuleTrees.ItemLines | canadensis_codegen_rust/src/module_tree.rs:55-57 | One line per item, in order. |
| ModuleTrees.Render | canadensis_codegen_rust/src/module_tree.rs:53-65 | `Display for ModuleTree`: the node's item lines, then one block per child in key order. Its shape is stated by `RenderBlocks` and `RenderOrder`. |
| ModuleTrees.RenderOrder | canadensis_codegen_rust/src/module_tree.rs:53-65 | The rendering starts with the node's items, in order. With any children, the next line is `pub mod k {` for the least key `k`. |
| ModuleTrees.Blocks | canadensis_codegen_rust/src/module_tree.rs:58-62 | Entry `j` is the block of child `keys[j]`: `pub mod name {`, the child's rendering, `}`. |
| ModuleTrees.ConcatAt | canadensis_codegen_rust/src/module_tree.rs:58-62 | Block `i` of a concatenation sits unchanged between offsets `Start(i)` and `Start(i + 1)`, which differ by the block's length. |
| ModuleTrees.ConcatLength | canadensis_codegen_rust/src/module_tree.rs:58-62 | Nothing follows the last block: the concatenation ends where a block after the last would start. |
| ModuleTrees.RenderChildrenConcat | canadensis_codegen_rust/src/module_tree.rs:58-62 | The rendered children are exactly their blocks, concatenated in the order of the keys. |
| ModuleTrees.RenderBlocks | canadensis_codegen_rust/src/module_tree.rs:53-65 | A rendered node is its item lines plus the blocks `pub mod k {`, the child's rendering, `}`, one per child, in ascending key order (as `SortedKeys` orders them), and nothing else. |
| Codegen.ExternalModule | canadensis_codegen_rust/src/lib.rs:64-83 | The prefix loop computes the external module, as `External` defines it. |
| Codegen.ExternalLongestPrefix | canadensis_codegen_rust/src/lib.rs:69-82 | Returns the mapping of the longest non-empty matching prefix followed by the unmatched segments: `len(rust_module) + len(package) - i` segments. Returns `None` iff no non-empty prefix is a key. |
| Codegen.EmptyPathNotExternal | canadensis_codegen_rust/src/lib.rs:69 | An empty path is never external. |
| Codegen.ExternalHit | canadensis_codegen_rust/src/lib.rs:69-80 | The longest matching prefix decides the result. |
| Codegen.ExternalMiss | canadensis_codegen_rust/src/lib.rs:82 | With no matching prefix the result is `None`. |
| Codegen.ExternalModuleExamples | canadensis_codegen_rust/src/lib.rs:844-899 | The unit test's six lookups, with three nested external packages. |
| Codegen.RoundUpIntegerSize | canadensis_codegen_rust/src/lib.rs:534-542 | Panics above 64. Returns the smallest of 8, 16, 32 and 64 that holds `bits`; 0 maps to 8. |
| Codegen.MakeRustIdentifier | canadensis_codegen_rust/src/lib.rs:624-632 | Never returns `_`. Maps `_` to `_0` and leaves every other identifier unchanged. |
| Codegen.MakeRustIdentifierIdempotent | canadensis_codegen_rust/src/lib.rs:624-632 | Applying it twice equals applying it once. |
| Codegen.NatToString | canadensis_codegen_rust/src/lib.rs:559-564 | Decimal formatting yields a non-empty string of digits. |
| Codegen.NatToStringValue | canadensis_codegen_rust/src/lib.rs:559-564 | The digits read back as the number. |
| Codegen.ForMessageType | canadensis_codegen_rust/src/lib.rs:555-597 | Internal iff the package is not external. An external type sits at the external module plus the version module; an internal one at its package path, each segment made a Rust identifier, plus the version module. The type name is the identifier of the DSDL name. |
| Codegen.IdentifierPath | canadensis_codegen_rust/src/lib.rs:582-589 | Each package segment becomes a Rust identifier. |
| Codegen.ForServiceType | canadensis_codegen_rust/src/lib.rs:606-622 | Keeps the base path and `internal` flag and appends `Request` or `Response` to the type name. The two names always differ. |
| Codegen.RustTypeNameString | canadensis_codegen_rust/src/lib.rs:644-656 | Starts with `crate::` for internal types and with `::` for external ones, and ends with the type name. |
| Codegen.BitArrayBytes | canadensis_codegen_rust/src/lib.rs:484-496 | Returns `(len + 7) / 8`, the fewest bytes with `bytes * 8 >= len`. |
| Codegen.ScalarToRustType | canadensis_codegen_rust/src/lib.rs:514-532 | `scalar_to_rust_type`. Its properties are stated by `IntegerRustTypes` and `CompositeRustType`. |
| Codegen.ToRustType | canadensis_codegen_rust/src/lib.rs:478-512 | `to_rust_type`. Its properties are stated by `ArrayRustTypes` and `CompositeRustType`. |
| Codegen.IntegerRustTypes | canadensis_codegen_rust/src/lib.rs:514-532 | A DSDL integer of at most 64 bits becomes `i` (signed) or `u` (unsigned) followed by decimal digits. The digits read back to the narrowest of 8, 16, 32 and 64 bits that holds the integer. |
| Codegen.IntegerNameWidth | canadensis_codegen_rust/src/lib.rs:514-532 | A letter followed by the digits of a Rust integer width reads back to that width. |
| Codegen.EmbedsNumberAt | canadensis_codegen_rust/src/lib.rs:478-512 | Text put around a decimal number still reads back to that number. |
| Codegen.ArrayRustTypes | canadensis_codegen_rust/src/lib.rs:478-512 | A boolean array, fixed or variable, is `BitArray<n>`, where `n` reads back to the fewest bytes that hold the bits. Both kinds give the same type for the same bound. Any other fixed array is `[elem; len]` and any other variable array `::heapless::Vec<elem, cap>`, with the length or capacity read back from the digits. |
| Codegen.CompositeRustType | canadensis_codegen_rust/src/lib.rs:514-532 | A composite's Rust type depends only on its key. It starts with `crate::` iff the package is not external, and it ends with the type's Rust identifier. |
| Codegen.ScalarSupportsZeroCopy | canadensis_codegen_rust/src/lib.rs:383-398 | `scalar_supports_zero_copy`: composites whose message qualifies, integers of exactly 8, 16, 32 or 64 bits, and all floats. Never booleans or void. |
| Codegen.TypeSupportsZeroCopy | canadensis_codegen_rust/src/lib.rs:375-381 | `type_supports_zero_copy`: qualifying scalars and fixed arrays of them. Never variable arrays. |
| Codegen.MessageSupportsZeroCopy | canadensis_codegen_rust/src/lib.rs:400-423 | `message_supports_zero_copy`: a fixed-size struct whose every field is always aligned, is not padding, and has a qualifying type. |
| Codegen.ZeroCopyIntegersExact | canadensis_codegen_rust/src/lib.rs:383-398 | An integer qualifies for zero-copy iff its Rust width equals its DSDL width (8, 16, 32 or 64 bits). |
| Codegen.GeneratedSupportsZeroCopy | canadensis_codegen_rust/src/lib.rs:320-347 | `GeneratedType::supports_zero_copy`: a fixed-size struct of data fields of qualifying types. Unlike the message check, alignment is not consulted. |
| Codegen.ZeroCopyExclusions | canadensis_codegen_rust/src/lib.rs:320-347 | Enums, variable-size types and structs with a padding field never support zero-copy. |
| Codegen.GenerateRustType | canadensis_codegen_rust/src/lib.rs:166-198 | A struct for a DSDL structure and an enum for a union. The name and size are kept, and the structure has one field per DSDL field, padding where the DSDL field is padding. |
| Codegen.MessageZeroCopyGenerated | canadensis_codegen_rust/src/lib.rs:320-423 | A message that passes `message_supports_zero_copy` yields a generated type that passes `supports_zero_copy`. |
| Codegen.UnalignedFieldExcluded | canadensis_codegen_rust/src/lib.rs:400-423 | A message with a field that is not always aligned does not support zero-copy. |
| Codegen.FieldZeroCopyAt | canadensis_codegen_rust/src/lib.rs:400-423 | Every field of a qualifying message is a data field of a qualifying type. |
| Codegen.GenerateFromDsdl | canadensis_codegen_rust/src/lib.rs:85-159 | A message yields its generated type, preceded by a `SUBJECT` constant of type `::canadensis_core::SubjectId` when it has a fixed port ID. A service yields its request type, then its response type, preceded by a `SERVICE` constant of type `::canadensis_core::ServiceId` when it has one. In every case that is all it yields. |
| Codegen.GeneratedItemsShareModule | canadensis_codegen_rust/src/lib.rs:85-159 | Every item generated from one DSDL file lives in that type's version module. |
| Codegen.DsdlItemsInternal | canadensis_codegen_rust/src/lib.rs:85-159 | Every item generated for a type of a non-external package is internal, under a non-empty path. |
| Codegen.GenerateCode | canadensis_codegen_rust/src/lib.rs:46-60 | The tree places every item of the non-external types at its path, in package order. The root holds no items. |
| Codegen.GeneratedInternal | canadensis_codegen_rust/src/lib.rs:46-60 | Every generated item is named inside the crate under a non-empty path. |
| Codegen.GeneratedTreeHasNoRootItems | canadensis_codegen_rust/src/lib.rs:802-805 | The "Top-level types are not allowed" assertion of the module's rendering never fails. |

## Left out

- `BitArray::serialize`, `deserialize_in_place` and `deserialize`: the read and write cursors are not part of this model. Their fast paths also differ: `bit_length == BYTES * 8` when writing, `bit_length % 8 == 0` when reading.
- `Debug` for `BitArray` and the owning `IntoIter`. `IntoIter` moves the array but steps like `Iter`, so `Bits.Iter` stands for both.
- `Bits.Iter`: it keeps a ghost snapshot of the array's bits. The model therefore does not capture a borrow that would keep the array from changing while an iterator exists.
- The CAN transmitter, the frame queue and the receiver are not part of this model. The framing in `CanTransmit` is reconstructed from the test vectors. The anonymous pseudo node ID is an input because its derivation is not shown.
- RedundantQueues: the inner queues' own `try_reserve` and `push_frame` are modelled as a bounded sequence whose rule is "room for `n` more frames". The real queue types are not shown.
- RedundantQueues.RedundantQueue.ShrinkToFit: `shrink_to_fit` only releases memory, so the model keeps the contents as they are.
- The nested redundant queues are values (`Sink`) rather than objects: a redundant queue inside another cannot be aliased, so nothing is lost.
- COBS escaping, `escaped_size`, the CRC-32 payload CRC and the serial header layout are parameters. The contract the transmitter relies on is `Cobs.Valid`: the escaped data has no zero byte and is at most `escaped_size` long.
- SerialTransmit.SerialTransmitter.Push: `escape_buffer` is not modelled as a separate allocation. Its allocation outcome is the `bufferAllocated` input, and the escaped bytes are the result of `escape`.
- SerialTransmit.SerialTransmitter.Push: lengths are unbounded integers, so an overflow of `usize` in the length computations is not modelled. Such lengths cannot occur with a queue that fits in memory.
- `SerialTransmitter::flush`: the clock parameter is unused and is left out.
- The bxCAN hardware (`Can::transmit`, `abort`, `receive`, filters) is an oracle. Its replies are parameters, and the calls are returned as `aborted` and `handed`.
- The receive loop and the filter configuration of the bxCAN driver are left out; they depend entirely on the hardware.
- `overflow_safe_compare` is a parameter of the deadline decisions; its wrap-around arithmetic is not part of this model.
- `CanId::try_from` is modelled as the check that the value fits in 29 bits.
- BxCan.UavcanFrameToBxcan: it requires a valid CAN ID and at most 8 data bytes, instead of modelling the panics of the source.
- ModuleTrees: `add_item` and `from_iter` mutate the tree in place. The tree is modelled as a value (`Tree` with a `map` of children), because recursion into a map entry of nested objects would need a footprint for every subtree. `from_iter` is still a loop.
- Rendering of the module tree: only the order of what is written is modelled. The text of each item comes from the `Display` of generated types, which is left out.
- `to_snake_case` and `to_camel_case` of the `heck` crate are the parameter `Cases`.
- `Display` for `GeneratedType`, `GeneratedField`, `GeneratedVariant` and `GeneratedModule` are left out, and so are constants, the extent and the `impl_*` modules. These are bulk text emission. The lint lines written for each top-level module are also left out.
- The DSDL frontend (`CompiledPackage`, `BitLengthSet`, cast modes, discriminant bits) is reduced to small datatypes. A bit length set becomes one flag saying whether it is a single value. A package is a sequence in its iteration order.
- Codegen.RoundUpIntegerSize: it requires `bits <= 64` instead of modelling the panic. The DSDL frontend admits no wider integers.
- `generated_code_dependencies` is a constant list of crate names and is left out.
- Floating point appears only as type-name strings.
- UDP loopback tests and the UDP receive example are input and output plumbing and are left out.
