# Kamen Rider Ride Gate device stub, modelled in Dafny

This project models the emulated Kamen Rider "Ride Gate" USB peripheral of
the nsyshid HID layer (`KamenRider.cpp`) and proves properties of that model:

- **`HexDump`** renders a byte buffer as text, in rows of 16 bytes. Each row
  has a zero-padded offset of at least six lower-case hex digits and ": ". Then
  comes a 48-character hex column (`xx ` per byte, three spaces past the end),
  one space, an ASCII column (the byte if printable, else `.`, no padding) and
  a newline. The method `HexDumping.HexDump` appends to a string in nested
  loops, as the source does. It is proved equal to the specification
  `DumpText`, which is built from `RowText`. Lemmas about `DumpText`:
  - the layout of each row;
  - one newline per row;
  - the empty dump;
  - reading the hex columns back (`Undump`) gives the dumped bytes.
- **`GetDescriptor`** fills a 0x29-byte USB configuration descriptor block
  field by field, through a write position that advances descriptor by
  descriptor. The block holds a configuration, an interface, a HID and two
  endpoint descriptors, and its 16-bit fields are stored high byte first. The
  method copies the first min(outputMaxLength, 0x29) bytes to the caller's
  buffer and leaves the rest of that buffer alone. The block is proved:
  - byte by byte;
  - to be a well-formed descriptor chain (each bLength tiles the block exactly
    into descriptors of types 2, 4, 0x21, 5, 5);
  - to have a big-endian wTotalLength equal to its length;
  - to announce as many endpoints as follow the interface.
- **Lifecycle and transfer stubs.** A new gate is closed. `Open` always
  succeeds and leaves it open. `Close` leaves it closed. `IsOpened` reports
  the flag and changes nothing. `Read` and `Write` report the whole requested
  length as transferred, succeed and touch no other field. `SetProtocol` and
  `SetReport` succeed.

Files:
- `hex_format.dfy` (module `HexFormat`): the byte type and lower-case hex
  rendering (`{:02x}`, `{:06x}`), with the reading of hex digits back into
  numbers.
- `hex_dump.dfy` (module `HexDumping`): the dump specification, the dump
  method and its lemmas.
- `gate_descriptor.dfy` (module `GateDescriptor`): the descriptor block, its
  big-endian fields, the descriptor-chain walk and the step-by-step builder.
- `gate_device.dfy` (module `GateDevice`): the device class and the message
  classes.

## Model

| member | source | states |
|---|---|---|
| `HexFormat.HexDigit` | src/Cafe/OS/libs/nsyshid/KamenRider.cpp:52 | a nibble becomes one lower-case hex digit that reads back as the nibble |
| `HexFormat.HexByte` | src/Cafe/OS/libs/nsyshid/KamenRider.cpp:52 | `{:02x}` of a byte is exactly two lower-case hex digits, high nibble first, reading back as the byte |
| `HexFormat.PaddedHex` | src/Cafe/OS/libs/nsyshid/KamenRider.cpp:47 | zero-padded hex of a number reads back as the number; it is at least the requested width, exactly that width when the number fits, and has no leading zero beyond the padding |
| `HexFormat.Offset` | src/Cafe/OS/libs/nsyshid/KamenRider.cpp:47 | `{:06x}` of a row offset: hex digits reading back as the offset, at least six of them, exactly six below 0x1000000, and no leading zero at or above it |
| `HexDumping.AsciiChar` | src/Cafe/OS/libs/nsyshid/KamenRider.cpp:64-65 | the ASCII-column character is the byte itself when it is printable (0x20 to 0x7E), `.` otherwise, and never a newline |
| `HexDumping.HexCells` | src/Cafe/OS/libs/nsyshid/KamenRider.cpp:48-58 | the hex column takes three characters per position whether or not the byte exists, so a row's hex column is always 48 characters |
| `HexDumping.AsciiCells` | src/Cafe/OS/libs/nsyshid/KamenRider.cpp:60-67 | the ASCII column has one character per existing byte of the row and no padding |
| `HexDumping.HexDump` | src/Cafe/OS/libs/nsyshid/KamenRider.cpp:40-71 | the text built by the nested loops over `row_start` and `i` is exactly the dump specification `DumpText` of the first `size` bytes |
| `HexDumping.AppendRow` | src/Cafe/OS/libs/nsyshid/KamenRider.cpp:47-68 | one pass of the outer loop appends exactly the text of the row starting at `row_start` |
| `HexDumping.AppendHexColumn` | src/Cafe/OS/libs/nsyshid/KamenRider.cpp:48-58 | the first inner loop appends exactly the row's 16 hex cells |
| `HexDumping.AppendAsciiColumn` | src/Cafe/OS/libs/nsyshid/KamenRider.cpp:60-67 | the second inner loop appends exactly the row's ASCII characters |
| `HexDumping.EmptyDump` | src/Cafe/OS/libs/nsyshid/KamenRider.cpp:45 | dumping zero bytes gives the empty string |
| `HexDumping.RowsFromCount` | src/Cafe/OS/libs/nsyshid/KamenRider.cpp:45 | the dump has one row per started group of 16 bytes, ceil(size / 16) in all |
| `HexDumping.RowLayout` | src/Cafe/OS/libs/nsyshid/KamenRider.cpp:47-68 | a row starts with six hex digits reading back as its start offset, then ": "; the separator space is at column 56; it ends in a newline; it is 58 characters plus one per byte, and 74 exactly when it holds 16 bytes |
| `HexDumping.RowHexCell` | src/Cafe/OS/libs/nsyshid/KamenRider.cpp:48-58 | hex cell `j` of a row is two lower-case digits reading back as byte `start + j` followed by a space, or three spaces past the end of the data |
| `HexDumping.RowAsciiChar` | src/Cafe/OS/libs/nsyshid/KamenRider.cpp:59-67 | ASCII character `i` of a row, right after the single separator space, is byte `start + i` if printable and `.` otherwise |
| `HexDumping.RowNewline` | src/Cafe/OS/libs/nsyshid/KamenRider.cpp:68 | every row ends in a newline and contains no other |
| `HexDumping.DumpNewlines` | src/Cafe/OS/libs/nsyshid/KamenRider.cpp:45-68 | a dump holds exactly ceil(size / 16) newlines and, unless empty, ends in one |
| `HexDumping.DecodeHexCells` | src/Cafe/OS/libs/nsyshid/KamenRider.cpp:48-58 | reading a hex column back gives the row's bytes; the space padding reads as nothing |
| `HexDumping.UndumpRowsFrom` | src/Cafe/OS/libs/nsyshid/KamenRider.cpp:45-58 | reading the rows from a start offset back gives the bytes from that offset on |
| `HexDumping.UndumpDump` | src/Cafe/OS/libs/nsyshid/KamenRider.cpp:40-71 | reading the hex columns of a dump back, row after row, gives exactly the dumped bytes |
| `GateDescriptor.U16BE` | src/Cafe/OS/libs/nsyshid/KamenRider.cpp:100 | a `uint16be` store puts the high byte first: 256 * first + second is the value |
| `GateDescriptor.DescriptorBlock` | src/Cafe/OS/libs/nsyshid/KamenRider.cpp:92-144 | the whole block is 0x29 bytes, the size of `configurationDescriptor` |
| `GateDescriptor.DescriptorBlockBytes` | src/Cafe/OS/libs/nsyshid/KamenRider.cpp:97-142 | the block is, byte by byte, `09 02 00 29 01 01 00 80 FA`, `09 04 00 00 02 03 00 00 00`, `09 21 01 11 00 01 22 00 1D`, `07 05 81 03 00 40 01`, `07 05 02 03 00 40 01` |
| `GateDescriptor.DescriptorChain` | src/Cafe/OS/libs/nsyshid/KamenRider.cpp:97-144 | walking the block by bLength visits descriptors of types 2, 4, 0x21, 5, 5 and ends exactly at its end; wTotalLength read high byte first equals the block length; bNumEndpoints is 2, the number of endpoint descriptors |
| `GateDescriptor.DescriptorFields` | src/Cafe/OS/libs/nsyshid/KamenRider.cpp:97-142 | the fields mean what their comments say: wTotalLength 0x29, one interface, configuration 1, attributes 0x80, 500 mA; interface class 3 with two endpoints; bcdHID 0x0111, one report descriptor (type 0x22) of 0x1D bytes; endpoints 0x81 and 0x02, both interrupt, 64-byte packets, interval 1 |
| `GateDescriptor.ChainOfFive` | src/Cafe/OS/libs/nsyshid/KamenRider.cpp:97-142 | five descriptors, each with a bLength equal to its own size, written one after another, form a descriptor chain that lists their five types in order |
| `GateDescriptor.TypesCons` | src/Cafe/OS/libs/nsyshid/KamenRider.cpp:106 | advancing the write position by a descriptor's bLength lands on the next descriptor of the chain |
| `GateDescriptor.WriteConfigurationDescriptor` | src/Cafe/OS/libs/nsyshid/KamenRider.cpp:97-105 | the field stores write exactly the configuration descriptor at the write position and nothing else |
| `GateDescriptor.WriteInterfaceDescriptor` | src/Cafe/OS/libs/nsyshid/KamenRider.cpp:108-116 | the field stores write exactly the interface descriptor at the write position and nothing else |
| `GateDescriptor.WriteHidDescriptor` | src/Cafe/OS/libs/nsyshid/KamenRider.cpp:119-125 | the field stores write exactly the HID descriptor at the write position and nothing else |
| `GateDescriptor.WriteEndpointDescriptor` | src/Cafe/OS/libs/nsyshid/KamenRider.cpp:128-141 | the field stores write exactly an endpoint descriptor for the given address at the write position and nothing else |
| `GateDescriptor.BuildConfigurationDescriptor` | src/Cafe/OS/libs/nsyshid/KamenRider.cpp:92-144 | filling the local array descriptor by descriptor ends with the write position at exactly 0x29 and the array equal to the descriptor block |
| `GateDevice.CopyLength` | src/Cafe/OS/libs/nsyshid/KamenRider.cpp:146-147 | the copy length is `std::min(outputMaxLength, 0x29)`: no more than either, and equal to one of them |
| `GateDevice.KamenRiderGateDevice.GetDescriptor` | src/Cafe/OS/libs/nsyshid/KamenRider.cpp:86-149 | always returns true; the first min(outputMaxLength, 0x29) bytes of `output` equal the start of the descriptor block and every later byte of `output` is unchanged, whatever type, index and language are asked for |
| `GateDevice.KamenRiderGateDevice.constructor` | src/Cafe/OS/libs/nsyshid/KamenRider.cpp:12-16 | a new gate is closed |
| `GateDevice.KamenRiderGateDevice.Open` | src/Cafe/OS/libs/nsyshid/KamenRider.cpp:18-25 | opening always returns true and leaves the gate open, whether or not it was open before |
| `GateDevice.KamenRiderGateDevice.Close` | src/Cafe/OS/libs/nsyshid/KamenRider.cpp:27-33 | closing leaves the gate closed, whether or not it was open before |
| `GateDevice.KamenRiderGateDevice.IsOpened` | src/Cafe/OS/libs/nsyshid/KamenRider.cpp:35-38 | reports the open flag and modifies nothing |
| `GateDevice.KamenRiderGateDevice.Read` | src/Cafe/OS/libs/nsyshid/KamenRider.cpp:73-77 | sets `bytesRead` to the requested `length`, returns Success and changes no other field and no buffer |
| `GateDevice.KamenRiderGateDevice.Write` | src/Cafe/OS/libs/nsyshid/KamenRider.cpp:79-84 | sets `bytesWritten` to `length`, returns Success and changes no other field and no buffer |
| `GateDevice.KamenRiderGateDevice.SetProtocol` | src/Cafe/OS/libs/nsyshid/KamenRider.cpp:151-155 | always returns true |
| `GateDevice.KamenRiderGateDevice.SetReport` | src/Cafe/OS/libs/nsyshid/KamenRider.cpp:157-161 | always returns true |

## Left out

- `RideGateUSB` (src/Cafe/OS/libs/nsyshid/KamenRider.h:46-88): command dispatch, figure slots, queries, block reads and writes, figure creation and checksums. It is only declared, and its definitions are not part of this model.
- The mutex and the two reply/notification queues (KamenRider.h): concurrency and asynchronous delivery, with no code to model.
- The `cemuLog_log` calls in `Write`, `SetProtocol` and `SetReport`: logging I/O. `Write` and `SetReport` build a hex dump only to log it, and the model leaves that call out of them. The dump itself is modelled on its own.
- The `Device` base class and the identity passed to its constructor (vendor 0x0E6F, product 0x200A, interface 1, subclass 2, protocol 0): `Backend.h` and `nsyshid.h` are not part of this model.
- `SetIdle`: declared in KamenRider.h but not defined in KamenRider.cpp.
- The `lang` parameter is `uint8` in KamenRider.cpp but `uint16` in KamenRider.h. The model follows KamenRider.cpp. `GetDescriptor` ignores the parameter either way.
- `fmt::format` and `std::isprint` are replaced by the model's own lower-case hex rendering and a printable-ASCII predicate (0x20 to 0x7E, the classic locale).
- The `size_t` arithmetic of `row_start + i` is modelled with unbounded integers. It could only wrap for buffers near 2^64 bytes.
- `ReadResult` and `WriteResult` have more values in `Backend.h`, which is not part of this model. The model's `ReadError` and `WriteError` stand for all of them, and this device never returns one.
- `GetDescriptor` requires `output` to hold min(outputMaxLength, 0x29) bytes. A shorter buffer is undefined behaviour in the source's `memcpy`.
- The source leaves `configurationDescriptor` uninitialised before filling it. The model's array starts zero-filled. Every byte is written before it is read, so this makes no difference.
- The `cemu_assert_debug` that the write position ends at 0x29 is a proof obligation in `BuildConfigurationDescriptor`, not a run-time check.
- HexDumping.RowLayout: stated only for data of at most 0x1000000 bytes (16 MiB). Beyond that, the offset of a late row takes more than six digits and the columns shift. `Offset` still pins down those longer offsets exactly: the digits read back as the offset and carry no leading zero.
- HexDumping.RowHexCell: stated only for data of at most 16 MiB, for the same reason.
- HexDumping.RowAsciiChar: stated only for data of at most 16 MiB, for the same reason.
- HexDumping.UndumpDump: proved only for data of at most 16 MiB, because `Undump` reads six-digit offsets.
- Rows are indexed by their start byte, as the source's `row_start` loop indexes them. That row `r` starts at byte 16·r is the definition of `RowsFrom`, and no separate lemma states it.
