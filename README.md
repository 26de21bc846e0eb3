# go2dpf command framing, modelled in Dafny

This project models the USB transport core of go2dpf (`dpf.go`), a driver
for AX206-based hacked digital photo frames. The driver tunnels three vendor
commands inside the USB Mass Storage Bulk-Only Transport (BOT, Rev 1.0)
envelope:

- "read dimensions";
- "set brightness";
- "blit a rectangle of pixels".

For each command it writes a 31-byte Command Block Wrapper (CBW, section 5.1
of the BOT specification) holding a 16-byte command block on the bulk OUT
endpoint. It then writes or reads an optional data stage. Last, it reads a
13-byte Command Status Wrapper (CSW, section 5.2) on the bulk IN endpoint. It
accepts that status when its first four bytes are "USBS".

Modules, one per layer of the driver:

- `Wrappers`: an `Option` type, standing for Go's nil slices and nil errors.
- `Bytes`: Go's `byte(x)` and `byte(x >> k)` conversions, the little-endian
  16- and 32-bit fields, and their round-trip lemmas. Dafny's Euclidean `/`
  and `%` with a positive divisor are exactly Go's arithmetic shift and
  low-byte truncation. This holds for negative values too.
- `Bot`: the CBW (`scsiCmdPrepare`) and the CSW acceptance test. `Parse`
  is the inverse of `Frame`: it accepts exactly the frames `Frame` builds
  from command blocks of at most 16 bytes, and gives back their fields. The two are proved inverse to each other on such blocks.
- `Cdb`: the command blocks built by `GetDimensions`, `Brightness` and
  `Blit`, the brightness clamp, and the decoding of the dimensions reply.
- `Transport`: the driver as pure functions over a `Bus` value. A `Bus`
  holds the log of every transfer issued, the scripted outcomes of the
  coming OUT writes, and the scripted answers of the coming IN reads. The
  lemmas about ordering, early return and what is returned are proved here.
- `Device`: the `DPF` handle as a class whose fields are that bus state.
  Its methods perform the driver's steps in the source's order. They fill
  freshly allocated read buffers (`array<byte>`) in place. Each method is
  proved to produce exactly the state and results of the matching
  `Transport` function.

The endpoints are abstract. A write succeeds or fails by script; a script
that has run out fails every further transfer. A read delivers the scripted
bytes, cut to the buffer's size, or fails. The driver discards the byte
count that a write returns (dpf.go:198, 202, 211). So a short write counts
as a success, and the model's write outcome is only a flag.

The code makes none of the following checks or distinctions, and the model
adds none:

- A command block longer than 16 bytes is not rejected. `copy` keeps its
  first 16 bytes, and the length byte is `len(cmd)` modulo 256.
- An empty blit rectangle is not rejected. Its frame is sent like any other.
- A short status reply and a reply with a wrong signature are the same error
  (`InvalidAck`).
- A dimensions reply shorter than 4 bytes, when `scsiRead` returns no error,
  is not a protocol error in the code. `data[3]` is out of range there, and Go
  panics. The model reports this as the distinct outcome `Panic`.

## Model

| member | source | states |
|---|---|---|
| `Bytes.Low8` | dpf.go:134 | Go's `byte(x)` is the byte congruent to x modulo 256, and x itself when x is already a byte |
| `Bytes.Le16` | dpf.go:147-150 | the two bytes `byte(x), byte(x >> 8)` decode to x modulo 2^16, for every integer x |
| `Bytes.Le32` | dpf.go:166 | the four bytes `byte(x), byte(x>>8), byte(x>>16), byte(x>>24)` decode to x modulo 2^32, for every integer x |
| `Bytes.ReadLe16` | dpf.go:117-118 | the value lo + 256 hi decoded from two bytes is below 2^16 |
| `Bytes.ReadLe16Encodes` | dpf.go:117-118 | re-encoding a decoded 16-bit field restores the two bytes (the other direction of the round trip) |
| `Bytes.ReadLe32Encodes` | dpf.go:166 | re-encoding a decoded 32-bit field restores the four bytes |
| `Bytes.Le16IgnoresWrap` | dpf.go:147-150 | integers equal modulo 2^64 give the same two bytes, so 64-bit wrap-around of `Max.X - 1` cannot change the wire bytes |
| `Bot.CdbField` | dpf.go:171-172 | the 16-byte block holds cmd's first bytes at their positions and zeros after cmd ends |
| `Bot.Frame` | dpf.go:156-179 | the frame is 31 bytes: "USBC" at 0-3, tag de ad be ef at 4-7; bytes 8-11 decode to blockLen modulo 2^32; flags 0x00 when out, else 0x80; reserved 0 at 13; byte 14 is len(cmd) modulo 256; cmd and then zeros at 15-30 |
| `Bot.Parse` | dpf.go:163-173 | the inverse of `Frame` on blocks of at most 16 bytes: what it accepts has a command block of at most 16 bytes and a 32-bit data length |
| `Bot.ParseFrame` | dpf.go:163-173 | a frame built from a command block of at most 16 bytes parses back to that block, blockLen modulo 2^32, and the direction |
| `Bot.FrameParse` | dpf.go:163-173 | every frame `Parse` accepts is exactly the frame built from its parsed fields |
| `Bot.FrameInjective` | dpf.go:156-173 | two equal frames come from the same command block, the same length modulo 2^32 and the same direction |
| `Cdb.DimensionsCdb` | dpf.go:107-112 | the query block is 16 bytes: 0xcd at byte 0, 2 at byte 5, zeros elsewhere |
| `Cdb.Clamp` | dpf.go:123-128 | the clamped level lies in [0, 7] and is the value of that range nearest to lvl |
| `Cdb.BrightnessCdb` | dpf.go:130-136 | a 16-byte block with the pass-through opcode 0xcd and sub-command 0x01 (set property); its full layout is `Cdb.BrightnessLayout` |
| `Cdb.BrightnessLayout` | dpf.go:130-136 | the brightness block is 16 bytes: cd 00 00 00 00 06 01, property id 1 at bytes 7-8, the clamped level at byte 9, 0 at byte 10, zeros at 11-15 |
| `Cdb.BrightnessSameClamp` | dpf.go:122-136 | two levels give the same block if and only if they clamp to the same level |
| `Cdb.BrightnessOutOfRange` | dpf.go:123-128 | a level below 0 sends the block for 0; a level above 7 sends the block for 7 |
| `Cdb.BlitCdb` | dpf.go:144-152 | a 16-byte block with the pass-through opcode 0xcd and sub-command 0x12 (blit); its full layout is `Cdb.BlitLayout` |
| `Cdb.BlitLayout` | dpf.go:143-152 | the blit block is 16 bytes: cd 00 00 00 00 06 12; at bytes 7-14, Min.X, Min.Y, Max.X-1, Max.Y-1 as little-endian 16-bit values modulo 2^16; 0 at byte 15 |
| `Cdb.BlitRoundTrip` | dpf.go:147-150 | a rectangle whose coordinates fit 16 bits reaches the device as its minima and its inclusive maxima Max-1 |
| `Cdb.DecodeDimensions` | dpf.go:117-118 | width and height are below 2^16, and re-encoding them gives back reply bytes 0-1 and 2-3 |
| `Cdb.DimensionsRoundTrip` | dpf.go:117-118 | a reply that starts with two 16-bit little-endian values decodes to them, whatever bytes follow |
| `Transport.Send` | dpf.go:198 | an OUT write succeeds exactly when the next scripted outcome accepts it; it is appended to the log and leaves the IN queue alone |
| `Transport.Receive` | dpf.go:183 | an IN read is logged with its capacity and leaves the OUT script alone; it delivers exactly when a reply is scripted, and then the reply's first min(capacity, length) bytes |
| `Transport.GetAck` | dpf.go:181-194 | the only errors are an ACK read failure and an invalid ACK, and no OUT write is consumed; the exact conditions are `Transport.GetAckOutcome` |
| `Transport.GetAckOutcome` | dpf.go:181-194 | one read of 13 bytes, one reply consumed, no write; success if and only if the reply arrived with at least 4 bytes starting "USBS"; a read failure if and only if no reply arrived; an invalid ACK otherwise |
| `Transport.GetAckIgnoresStatusFields` | dpf.go:187 | status bytes 4-12 (tag, residue, status) never change the verdict |
| `Transport.GetAckShortReply` | dpf.go:187-189 | a reply of fewer than 4 bytes is an invalid ACK, not a read failure |
| `Transport.ScsiWrite` | dpf.go:196-207 | the errors are the two write failures and the two ACK failures, and without data there is no data-write failure; the transfers are `Transport.ScsiWriteTransfers` |
| `Transport.ScsiWriteTransfers` | dpf.go:196-207 | the transfers issued are a non-empty prefix of: frame (flags 0x00, data length len(data)), data if not nil, 13-byte status read. A failed frame write issues nothing more, and a failed data write issues no status read. The status read happens, and the IN queue is touched, if and only if every write succeeded. Each error kind holds exactly under its condition (frame write, data write, no status reply, invalid status), and success if and only if all writes succeed and the ACK is valid |
| `Transport.ScsiRead` | dpf.go:209-227 | the errors are a frame-write failure, a data-read failure and the two ACK failures, and the data returned is at most blockLen bytes; the transfers are `Transport.ScsiReadTransfers` |
| `Transport.ScsiReadTransfers` | dpf.go:209-227 | the transfers issued are a non-empty prefix of: frame (flags 0x80, data length blockLen), a read of blockLen bytes, a status read. A failed frame write issues nothing more. A failed data read issues no status read and returns nil data. Data is nil if and only if the frame write or the data read failed; otherwise exactly the bytes delivered, at most blockLen, are returned, even with an ACK error. Each ACK error holds exactly under its condition on the second reply |
| `Transport.GetDimensions` | dpf.go:106-120 | width and height are below 2^16, and both are 0 on any error; the exact outcome is `Transport.GetDimensionsOutcome` |
| `Transport.GetDimensionsOutcome` | dpf.go:106-120 | the query frame asking for 5 bytes goes out first, and once it is accepted a 5-byte read follows. Success holds if and only if the command, the data read and the ACK succeed with at least 4 reply bytes; the result is then width = s[0] + 256 s[1] and height = s[2] + 256 s[3]. A shorter reply is the panic case. Every failure yields (0, 0), and every error other than the panic is the error `scsiRead` returned |
| `Transport.Brightness` | dpf.go:122-139 | no data stage, so never a data-write failure; transfers and level bytes are `Transport.BrightnessTransfers` |
| `Transport.BrightnessDependsOnClamp` | dpf.go:122-139 | two levels issue identical transfers if and only if they clamp alike, and then they have the same whole outcome |
| `Transport.BrightnessTransfers` | dpf.go:130-138 | at most the frame and the status read are issued. The frame announces 0 bytes host-to-device and carries the clamped level and a zero high byte at frame bytes 24-25 |
| `Transport.Blit` | dpf.go:141-154 | whatever the rectangle, the first transfer is the frame of the blit block announcing len(pixels) bytes host-to-device |
| `Transport.BlitTransfers` | dpf.go:141-154 | at most the frame, the pixel buffer and the status read are issued, in that order, whatever the rectangle. The frame announces len(pixels) bytes host-to-device and carries the 16-byte blit block |
| `Transport.DimensionsThenBrightness` | dpf.go:106-139 | with reply 40 01 f0 00 00, `GetDimensions` gives (320, 240); a following `Brightness(9)` succeeds and sends level bytes 07 00 |
| `Device.Dpf.WriteOut` | dpf.go:198 | a write appends the frame or data to the log and consumes one scripted outcome |
| `Device.Dpf.ReadIn` | dpf.go:183 | a read logs its capacity, consumes one reply, fills buf[..n] with the delivered bytes (at most the buffer size) and leaves the rest of buf unchanged |
| `Device.Dpf.GetAck` | dpf.go:181-194 | reading into a fresh 13-byte buffer gives exactly the state and error of `Transport.GetAck` |
| `Device.Dpf.ScsiWrite` | dpf.go:196-207 | the step-by-step write gives exactly the state and error of `Transport.ScsiWrite` |
| `Device.Dpf.ScsiRead` | dpf.go:209-227 | the read into a fresh blockLen buffer returns exactly its first n bytes, with the state of `Transport.ScsiRead` |
| `Device.Dpf.GetDimensions` | dpf.go:106-120 | gives exactly the width, height, error and state of `Transport.GetDimensions` |
| `Device.Dpf.Brightness` | dpf.go:122-139 | gives exactly the error and state of `Transport.Brightness` |
| `Device.Dpf.Blit` | dpf.go:141-154 | gives exactly the error and state of `Transport.Blit` |

## Left out

- `OpenDpf` and `Close` (dpf.go:33-104) are not modelled. They acquire and release the gousb context, device, configuration, interface and endpoints; these are calls into the USB library with no behaviour of their own here. The `Dpf` constructor stands for an open handle on a scripted device.
- The gousb `OutEndpoint.Write` and `InEndpoint.Read` are replaced by the scripted bus. Timeouts (`scsiTimeout`), blocking and USB packet framing are not modelled. A read reply longer than the buffer is cut to the buffer.
- `Device.Dpf.ReadIn`: it reports n = 0 on a failed read, where gousb may report a partial count with the error. The driver never uses the count after an error.
- Debug logging (dpf.go:175-177, 190-192, 220-222) and the `Debug` field are left out. They are output only.
- The `Width` and `Height` fields of `DPF` are left out. The core never writes them.
- `ImageRGB565` and `PixRect()` are not part of this model. An image is its four rectangle coordinates plus the byte sequence `PixRect()` returns, which is assumed non-nil.
- Error messages are left out: only the error kinds are modelled. The kinds are command write, data write, data read, ACK read, and invalid ACK.
- `Device.Dpf.ScsiRead`: blockLen is a natural number. A negative length would make Go's `make` panic, and the only caller passes 5.
- The vendor and product ids, endpoint addresses, interface and configuration numbers (dpf.go:10-15) are used only by `OpenDpf`, so they are left out with it.
- Concurrency is left out: the driver has none.
