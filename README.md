# stm32f429-mlx90642 firmware core, modelled in Dafny

This project models the algorithmic core of a bare-metal STM32F429 firmware
that reads an MLX90642 thermal sensor and shows it on an ILI9341V panel, and
proves properties of that model. The core covers these parts:

- **XMODEM transfer engine** (`xmodem.c`):
  - the pollable receiver (`xmodem_rx`, `xmodem_init_rx`);
  - the pollable sender (`xmodem_tx`, `xmodem_init_tx`);
  - the integrity helpers: a nibble-table CRC-16/XMODEM and an 8-bit checksum.
- **Byte ring buffer** (`fifo.c`).
- **Shell** (`shell.c`):
  - the line editor, fed one byte per poll;
  - the command lookup.
- **From `shell_func.c`**:
  - the hexadecimal digit and string parser;
  - the command table.
- **SPI NOR flash write** (`spiflash.c`):
  - the sector-by-sector read-modify-write of `flash_write`;
  - the address encoding of the flash commands.
- **Freestanding libc routines** (`string.c`).
- **Clock arithmetic** (`clock.c`):
  - the PLL constants;
  - the bus-prescaler decoders;
  - the wrap-around tick difference.
- **Thermal image pipeline** (`MLX90642_disp.c`):
  - raw reading → temperature → gray → colour;
  - the RGB packing macro.
- **Frame-buffer interface** (`lcd_itf.c`):
  - the byte-swapped pixel store and load;
  - the window arithmetic of a direct fill.

One Dafny module per C file:

| module | file | models |
|---|---|---|
| `Uint` | `uint.dfy` | helpers for C integer arithmetic |
| `CString` | `cstring.dfy` | `string.c` |
| `Integrity` | `integrity.dfy` | CRC and checksum of `xmodem.c` |
| `Xmodem` | `xmodem.dfy` | the engine of `xmodem.c` |
| `Fifo` | `fifo.dfy` | `fifo.c` |
| `Shell` | `shell.dfy` | `shell.c` |
| `ShellFunc` | `shell_func.dfy` | `shell_func.c` |
| `SpiFlash` | `spiflash.dfy` | `spiflash.c` |
| `Clock` | `clock.dfy` | `clock.c` |
| `ThermalDisplay` | `thermal_display.dfy` | `MLX90642_disp.c` |
| `LcdItf` | `lcd_itf.dfy` | `lcd_itf.c` |

## How the model is built

C integer types:
- `uint8_t` bytes are `bv8`.
- `uint16_t` and `uint32_t` values are bounded `int` subtypes.
- Wrap-around is written out: `Add32`, `Sub32`, and `% 256` / `% 2^16` / `% 2^32`.
- C's truncating `/` and `%` on signed values are `CDiv` and `CRem`.

State that the C code updates in place becomes a Dafny `class`:

| class | models | fields |
|---|---|---|
| `Xmodem.Engine` | `s_state_st` and the configuration fields the engine writes | `state`, `getlen`, `pnum`, `ms`, `xferlen`, `plen`, `crccheck`, `start_timeout` |
| `Fifo.Fifo` | `fifo_st` | buffer, `in`, `out`, `len` |
| `Shell.Shell` | the command buffer and its index | |
| `SpiFlash.FlashDev` | the flash chip and `dev->buffer` | |
| `LcdItf.Lcd` | the frame buffer | |

Each state-changing method is specified against a function on plain values:
- Every poll of `xmodem_rx` / `xmodem_tx` is a function from a `Snapshot` to an `Outcome`: `RxStep` and `TxStep`.
- The shell's step is `ReadStep`.
- The flash's command log is `WriteOps`.

The protocol properties are lemmas about those functions.

Callbacks the core calls through pointers become an environment the classes hold:

| callback | modelled as |
|---|---|
| `io_read` | the bytes still to come |
| `io_write` | an output log |
| `mem_read` / `mem_write` | a memory image |
| SPI transfers | a log of flash commands |

The millisecond clock is a parameter of each poll.

The model follows the code. For example, the packet number is a `uint8_t` on both sides (xmodem.c:261, xmodem.c:489 and xmodem.c:503), so it wraps from 255 to 0 as XMODEM's block number does.

## Model

| member | source | states |
|---|---|---|
| Uint.Add32 | xmodem.c:278 | `a + b` in `uint32_t`: the sum, less 2^32 exactly when it reaches 2^32 |
| Uint.Sub32 | xmodem.c:211 | `a - b` in `uint32_t`: the difference, plus 2^32 when b > a |
| Uint.ToInt16 | MLX90642_disp.c:24 | `(int16_t)raw`: the value in [-2^15, 2^15) congruent to raw modulo 2^16 |
| Uint.CDiv | MLX90642_disp.c:24-25 | C's truncating division: quotient times divisor is the dividend less `CRem`; for non-negative operands it is the floor quotient |
| Uint.CRem | MLX90642_disp.c:24 | C's remainder: smaller than the divisor in magnitude, with the sign of the dividend |
| CString.CLen | string.c:34-39 | the index of the first NUL: a NUL there and none before |
| CString.NPrefix | string.c:13-24 | the first min(n, length) bytes of a C string, the part a correct strncmp compares |
| CString.Memcpy | string.c:4-11 | dst[dOff..dOff+n] holds the old src[sOff..sOff+n]; every other byte of dst is unchanged |
| CString.Memset | string.c:26-32 | every byte of p[off..off+n] becomes `(uint8_t)c`; every other byte is unchanged |
| CString.Strlen | string.c:34-39 | returns the index of the first NUL byte: a NUL there and none before |
| CString.Strncmp | string.c:13-24 | as written: for n > 0 the result depends on the first bytes alone: 0 iff they are equal, 1 iff s1[0] > s2[0] |
| CString.StrncmpComparesFirstByteOnly | string.c:16-21 | "hxx" and "hex" compare equal over 3 bytes although their 3-byte prefixes differ |
| CString.StrncmpFixed | string.c:13-24 | a strncmp that advances: 0 iff the n-byte prefixes (up to the NUL) are equal; otherwise the sign comes from the first differing byte |
| CString.PrefixesDiffer | string.c:13-24 | a differing byte inside both prefixes makes the prefixes differ |
| Integrity.Join | xmodem.c:67 | the word built big-endian from two bytes splits back into those bytes |
| Integrity.SplitJoin | xmodem.c:67 | splitting a word and joining the bytes gives the word back |
| Integrity.TableMatchesRom | xmodem.c:44-48 | each of the sixteen ROM words is the closed form (n<<12)^(n<<5)^n |
| Integrity.NibbleStepIsCrcNibble | xmodem.c:55-57 | one table step `t[(sum>>12)^nib]^(sum<<4)` equals four clocks of the bit-serial CRC with polynomial 0x1021 |
| Integrity.TableIsCrcOfNibble | xmodem.c:44-48 | table entry t[n] is the CRC of nibble n alone, from register 0 |
| Integrity.NibbleByteIsCrcByte | xmodem.c:52-58 | the two table steps of one byte equal its eight bit clocks |
| Integrity.NibbleCrcIsCrc16 | xmodem.c:50-60 | crc_nibble_rom's table CRC equals the bit-serial CRC-16/XMODEM over any byte string |
| Integrity.Crc16CheckValue | xmodem.c:50-60 | the CRC of "123456789" from 0 is 0x31C3, the CRC-16/XMODEM check value |
| Integrity.Trailer | xmodem.c:88-109 | the trailer has 2 bytes in CRC mode and 1 in checksum mode |
| Integrity.TrailerOkIffTrailer | xmodem.c:62-86 | the check accepts a trailer iff it is exactly the trailer the sender computes, in both modes |
| Integrity.RomStepIsNibbleStep | xmodem.c:55-57 | the lookup in the ROM array is the table step |
| Integrity.RomByteExtends | xmodem.c:52-58 | the loop's two statements for byte i extend the CRC of the bytes before it |
| Integrity.CrcNibbleRom | xmodem.c:50-60 | crc_nibble_rom returns the bit-serial CRC-16 of p[off..off+len] from sum |
| Integrity.Checksum | xmodem.c:75-79 | the loop returns the `uint8_t` sum of the bytes |
| Integrity.Check | xmodem.c:62-86 | returns 0 or -1; 0 iff the bytes after the payload are its trailer: big-endian CRC, or the checksum |
| Integrity.CheckCal | xmodem.c:88-109 | writes the payload's trailer right after it and nothing else; returns the CRC, or the checksum widened |
| Integrity.CheckCalThenCheckAccepts | xmodem.c:62-109 | round trip: the trailer xmodem_check_cal writes is accepted by xmodem_check, in both modes |
| Xmodem.Splice | xmodem.c:250 | writing data at off keeps the length and puts data at off..off+|data| |
| Xmodem.SpliceAt | xmodem.c:250 | each byte of a splice is from data inside the window and from the old sequence outside it |
| Xmodem.Avail | xmodem.c:250-256 | io_read returns at most the request and at most what is waiting, and all of one or the other |
| Xmodem.StoreWrite | xmodem.c:292-300 | mem_write either writes all bytes and returns their count, or writes nothing and returns 0; in range it always writes |
| Xmodem.StoreRead | xmodem.c:449-456 | mem_read returns n bytes or none; in range it returns the stored bytes |
| Xmodem.Pad | xmodem.c:457-460 | n bytes of CTRLZ (0x1A) |
| Xmodem.Elapsed | xmodem.c:211 | a timeout has run out when `t - ms`, computed in `uint32_t`, reaches it, so a clock that wraps still measures the time |
| Xmodem.RxReady | xmodem.c:126-341 | the receiver's invariant between polls: the buffer holds BUF_LEN bytes, the state is a receive state, xferlen ≤ totallen once a transfer started, and a frame being collected has a valid plen and 1 ≤ getlen ≤ its length |
| Xmodem.TxReady | xmodem.c:375-538 | the sender's invariant between polls: the buffer holds BUF_LEN bytes, the state is a send state, plen is 128 or 1024 and xferlen ≤ totallen |
| Xmodem.RxChunk | xmodem.c:246-257 | a read never takes more than the frame still needs, nor more than is waiting |
| Xmodem.RxStart | xmodem.c:152-168 | start-wait sends 'C' in CRC mode or NAK in checksum mode, restarts the timer, clears xferlen and waits for a header |
| Xmodem.RxHeadByte | xmodem.c:169-206 | the header byte: SOH or STX opens a 128- or 1024-byte frame; EOT is ACKed and ends with 1 iff xferlen ≥ totallen, else -3; CAN ends with -8; buf[0] is 0 when no byte comes |
| Xmodem.RxHead | xmodem.c:169-243 | the header byte, then the header timeout for anything but SOH or STX, which can replace the EOT and CAN results |
| Xmodem.RxWriteLen | xmodem.c:278-300 | the receiver writes at most plen bytes, and never past totallen when xferlen + plen does not wrap |
| Xmodem.RxStore | xmodem.c:274-312 | after an accepted frame: pnum becomes buf[1]; xferlen stays ≤ totallen; result 0 (then data-header-wait), 1 or -9 (then idle); the store is unchanged or gets payload bytes at addr+xferlen |
| Xmodem.RxStoreLast | xmodem.c:278-295 | the packet that reaches totallen: result 1 iff all totallen bytes were already stored, and then the store is unchanged and the receiver idle; otherwise result 0 with xferlen set to totallen |
| Xmodem.RxStoreNext | xmodem.c:296-311 | any other packet: result 0 with xferlen + plen (in `uint32_t`), or -9 with the receiver idle and the store unchanged when mem_write returns 0 |
| Xmodem.RxCollect | xmodem.c:246-257 | collecting keeps getlen within the frame length and never lowers it |
| Xmodem.TxWant | xmodem.c:449-456 | the sender asks mem_read for at most plen bytes |
| Xmodem.TxHeader | xmodem.c:446-448 | header STX for 1024-byte packets, else SOH, then pnum and ~pnum; the rest of the buffer is unchanged |
| Xmodem.ComplementSum | xmodem.c:261 | buf[1] + buf[2] == 255 iff buf[2] is the bitwise complement of buf[1] |
| Xmodem.SeqOkIff | xmodem.c:261 | the sequence test passes iff buf[1] == pnum+1 (mod 256) and buf[2] == ~buf[1] |
| Xmodem.SeqOk | xmodem.c:261 | the packet-number test on buf[1] and buf[2], with `pnum + 1` taken as a `uint8_t` |
| Xmodem.TrailerGood | xmodem.c:272 | the integrity test: the bytes after the payload are the trailer xmodem_check accepts in the selected mode |
| Xmodem.RxFrameSequence | xmodem.c:258-268 | a complete frame gives -6 iff the sequence test fails; then CAN is sent, the state becomes idle and nothing else changes |
| Xmodem.RxFrameIntegrityFailure | xmodem.c:314-319 | a good number with a bad trailer sends NAK and returns to data-header-wait; pnum, xferlen and the store are unchanged |
| Xmodem.RxFrameWrites | xmodem.c:272-312 | the store changes only for a frame that passes both tests, and only at addr+xferlen with the payload prefix of length RxWriteLen |
| Xmodem.RxFramePastTotal | xmodem.c:280-287 | a valid frame after totallen bytes is answered with CAN, result 1 and state idle; the store is unchanged |
| Xmodem.RxHeadEot | xmodem.c:184-198 | EOT is ACKed and ends the transfer: 1 iff xferlen ≥ totallen, else -3; an expired ack timer overrides this with -4 or -5 |
| Xmodem.RxHeadCan | xmodem.c:201-205 | CAN ends the transfer with -8, nothing sent; an expired ack timer overrides this with -4 or -5 |
| Xmodem.RxHeadTimeout | xmodem.c:208-242 | with no frame start: before the timeout the poll returns 0 and keeps state, retries, output, pnum and xferlen. After it, start_timeout ≤ 1 gives -4. Otherwise start-phase waits spend one retry and re-enter start-wait, and data-phase waits end with -5 |
| Xmodem.RxHeadOpensFrame | xmodem.c:175-181 | SOH or STX opens a frame of 128 or 1024 bytes with getlen 1 and the timer restarted |
| Xmodem.RxDataTimeout | xmodem.c:322-337 | a body still incomplete after packet_timeout sends NAK and ends with -7; the store is unchanged |
| Xmodem.RxHeadKeepsReady | xmodem.c:169-243 | a header-wait poll preserves the receiver invariant RxReady |
| Xmodem.RxDataKeepsReady | xmodem.c:244-338 | a data-wait poll preserves RxReady, including xferlen ≤ totallen |
| Xmodem.RxStepKeepsReady | xmodem.c:126-341 | every xmodem_rx poll preserves RxReady |
| Xmodem.RxFrame | xmodem.c:258-320 | a complete frame: out of sequence gives CAN and -6; a bad trailer gives NAK and a wait for the resend; a good frame is stored |
| Xmodem.RxData | xmodem.c:244-338 | data-wait reads the next frame bytes, tests a complete frame, and ends an incomplete one with NAK and -7 after packet_timeout |
| Xmodem.RxStep | xmodem.c:126-341 | one xmodem_rx call: -1 without the callbacks, -2 when idle, else the step of the current state |
| Xmodem.RxHeadByteSettles | xmodem.c:169-206 | the header byte read takes at most one input byte and its result agrees with the state it leaves |
| Xmodem.RxHeadSettles | xmodem.c:169-243 | a header-wait poll only appends to the channel, takes input from the front, and its result agrees with the state it leaves |
| Xmodem.RxFrameSettles | xmodem.c:258-320 | testing and storing a frame reads nothing and only appends its answer; its result agrees with the state it leaves |
| Xmodem.RxDataSettles | xmodem.c:244-338 | a data-wait poll only appends to the channel and takes input from the front; its result agrees with the state it leaves |
| Xmodem.RxStepSettles | xmodem.c:126-341 | every xmodem_rx poll only appends to the channel and consumes input from its front; result 0 leaves a transfer running, and every result but 0 and -1 leaves the receiver idle |
| Xmodem.FrameLayout | xmodem.c:444-468 | the sent frame: plen+3+(1 or 2) bytes; STX/SOH, pnum, ~pnum; the data read; CTRLZ padding up to plen; the trailer of the padded payload |
| Xmodem.TxDataSends | xmodem.c:444-477 | a non-empty read sends the frame and waits for ACK; an empty read sends EOT and returns 1; pnum and xferlen are unchanged |
| Xmodem.TxAckSequencing | xmodem.c:478-518 | ACK: pnum+1 and xferlen+plen; the last ACK clamps xferlen to totallen, sends EOT and returns 1. NAK: back to data with pnum and xferlen unchanged. CAN: -3 |
| Xmodem.TxNakResendsSameFrame | xmodem.c:508-512 | after a NAK the next data poll sends exactly the same frame bytes again |
| Xmodem.TxStartHandshake | xmodem.c:400-443 | the start-wait as written: 'C' starts in CRC mode, NAK in checksum mode, CAN ends with -3; another byte after the timeout spends a retry or ends with -4 |
| Xmodem.TxStartAgreesOnInput | xmodem.c:402-418 | when a byte arrives the start-wait as written and the corrected one give the same outcome; they differ only on polls that read nothing |
| Xmodem.TxStartStaleCanNeverTimesOut | xmodem.c:402-418 | as written, a CAN left in buf[0] by an earlier poll, with no byte arriving, keeps start-wait unchanged with result 0 forever |
| Xmodem.TxStartTimesOut | xmodem.c:418-437 | corrected: with no byte arriving, an expired timer always spends a retry or ends with -4 |
| Xmodem.TxStepKeepsReady | xmodem.c:375-538 | every xmodem_tx poll, with the start-wait as written, preserves the sender invariant TxReady (xferlen ≤ totallen) |
| Xmodem.TxStartByte | xmodem.c:400-416 | the start byte read: 'C' or NAK starts in CRC or checksum mode, CAN ends with -3; buf[0] keeps its old value when no byte comes |
| Xmodem.TxStartAsWritten | xmodem.c:400-443 | the start-wait as written: the byte read, then the start timeout unless buf[0] holds 'C', NAK or CAN |
| Xmodem.TxStart | xmodem.c:400-443 | corrected: the same start-wait with buf[0] cleared before the read, as the receiver does |
| Xmodem.Frame | xmodem.c:446-465 | the frame for a packet: header, data, CTRLZ padding up to plen, trailer of the padded payload |
| Xmodem.TxSend | xmodem.c:461-468 | a non-empty read: the frame goes into the buffer and out on the channel, and the ack wait starts |
| Xmodem.TxData | xmodem.c:444-477 | the data state: header, mem_read of TxWant bytes, then the frame, or EOT and result 1 when the read is empty |
| Xmodem.TxAck | xmodem.c:478-535 | ack-wait: ACK moves to the next packet or ends with EOT and 1; NAK resends; CAN ends with -3; else the ack timeout ends with -5 |
| Xmodem.TxStep | xmodem.c:375-538 | one xmodem_tx call: -1 without the callbacks, -2 when idle, else the step of the current state, with the start-wait as written |
| Xmodem.TxStartSettles | xmodem.c:400-443 | a start-wait poll sends nothing, takes at most one input byte from the front, and its result agrees with the state it leaves |
| Xmodem.TxDataSettles | xmodem.c:444-477 | a data poll reads nothing, only appends a frame or EOT, and its result agrees with the state it leaves |
| Xmodem.TxAckSettles | xmodem.c:478-535 | an ack-wait poll only appends to the channel, takes input from the front, and its result agrees with the state it leaves |
| Xmodem.TxStepSettles | xmodem.c:375-538 | every xmodem_tx poll only appends to the channel and consumes input from its front; result 0 leaves a transfer running, and every result but 0 and -1 leaves the sender idle |
| Xmodem.FrameParts | xmodem.c:461-465 | the frame's length, numbers and trailer |
| Xmodem.FramePrefix | xmodem.c:246-272 | a buffer holding a frame as its prefix shows the frame's numbers, payload and trailer |
| Xmodem.FrameAccepted | xmodem.c:258-312 | the frame a sender builds with the next packet number passes both receiver tests, so the poll goes on to the store step |
| Xmodem.FrameInBuffer | xmodem.c:461-465 | a buffer equal to a frame up to its length, and unchanged after it, is that frame spliced in |
| Xmodem.HeaderKept | xmodem.c:446-460 | writing the payload after the header leaves a valid header |
| Xmodem.FrameAssembly | xmodem.c:446-465 | header, padding and trailer steps together place the frame of the payload at the buffer's start |
| Xmodem.Engine.constructor | xmodem.h:24-43 | a bound configuration, engine idle, nothing exchanged |
| Xmodem.Engine.Flush | xmodem.c:357-360 | io_read_flush discards waiting input when it is bound; otherwise nothing changes |
| Xmodem.Engine.InitRx | xmodem.c:349-362 | start-wait, getlen 0, pnum 0, input flushed; the receiver invariant holds |
| Xmodem.Engine.InitTx | xmodem.c:546-561 | start-wait, getlen 0, pnum 1, timer at now, xferlen 0, input flushed; the sender invariant holds for a valid plen |
| Xmodem.Engine.Place | xmodem.c:250 | the buffer becomes the old buffer with src spliced in at off |
| Xmodem.Engine.ReadInto | xmodem.c:250-256 | io_read moves Avail bytes from the input into the buffer at off |
| Xmodem.Engine.ReadByte | xmodem.c:173 | a one-byte io_read into buf[0]: true iff a byte was waiting |
| Xmodem.Engine.MemRead | xmodem.c:451-455 | mem_read places StoreRead's bytes at off and returns their count |
| Xmodem.Engine.MemWrite | xmodem.c:292-300 | mem_write updates the store as StoreWrite says and returns its count |
| Xmodem.Engine.RxStartPoll | xmodem.c:152-168 | the start-wait poll leaves the state RxStart gives |
| Xmodem.Engine.RxHeadBytePoll | xmodem.c:169-206 | the header byte read leaves the state RxHeadByte gives |
| Xmodem.Engine.RxHeadPoll | xmodem.c:169-243 | a header-wait poll leaves the state RxHead gives |
| Xmodem.Engine.RxStorePoll | xmodem.c:274-312 | storing an accepted frame leaves the state RxStore gives |
| Xmodem.Engine.RxStoreLastPoll | xmodem.c:278-295 | the last-packet branch leaves the state RxStoreLast gives |
| Xmodem.Engine.RxStoreNextPoll | xmodem.c:296-311 | the next-packet branch leaves the state RxStoreNext gives |
| Xmodem.Engine.RxFramePoll | xmodem.c:258-320 | the tests of a complete frame leave the state RxFrame gives |
| Xmodem.Engine.RxCollectPoll | xmodem.c:245-257 | collecting frame bytes leaves the state RxCollect gives |
| Xmodem.Engine.RxDataPoll | xmodem.c:244-338 | a data-wait poll leaves the state RxData gives |
| Xmodem.Engine.Rx | xmodem.c:126-341 | xmodem_rx leaves the state and result RxStep gives, and keeps RxReady |
| Xmodem.Engine.TxStartBytePoll | xmodem.c:400-416 | the start byte read leaves the state TxStartByte gives |
| Xmodem.Engine.TxStartPoll | xmodem.c:400-443 | a start-wait poll leaves the state TxStartAsWritten gives, the code as written |
| Xmodem.Engine.PadPayload | xmodem.c:457-460 | the payload after the len bytes read is padded with CTRLZ up to plen |
| Xmodem.Engine.AppendTrailer | xmodem.c:463 | xmodem_check_cal writes the payload's trailer after plen bytes |
| Xmodem.Engine.BuildFrame | xmodem.c:457-463 | the buffer's start becomes the frame of the bytes read |
| Xmodem.Engine.TxSendPoll | xmodem.c:457-468 | sending a non-empty read leaves the state TxSend gives |
| Xmodem.Engine.WriteHeader | xmodem.c:446-448 | the buffer becomes TxHeader of the current state |
| Xmodem.Engine.TxDataPoll | xmodem.c:444-477 | a data poll leaves the state TxData gives |
| Xmodem.Engine.TxAckPoll | xmodem.c:478-535 | an ack-wait poll leaves the state TxAck gives |
| Xmodem.Engine.Tx | xmodem.c:375-538 | xmodem_tx leaves the state and result TxStep gives, and keeps TxReady |
| Fifo.Wrap | fifo.c:91-95 | the index after advancing, brought back below buffer_len by one subtraction |
| Fifo.RingSeq | fifo.c:125-136 | n bytes of the ring from a start index, crossing the end once |
| Fifo.RingWrite | fifo.c:78-89 | the ring with d written from an index on, crossing the end once; same size |
| Fifo.RingWriteAppends | fifo.c:78-96 | writing d at in = out+len makes the queued bytes the old ones followed by d |
| Fifo.RingWriteNothing | fifo.c:72-75 | writing nothing leaves the ring unchanged |
| Fifo.RingSeqDrop | fifo.c:138-143 | dropping r bytes from the front leaves the rest, read from out+r |
| Fifo.RingSeqParts | fifo.c:125-136 | the ring read is one slice, or the tail slice then the head slice, as the two memcpy calls copy |
| Fifo.Fifo.constructor | fifo.h:14-21 | an empty, valid queue over a fresh buffer of buffer_len bytes |
| Fifo.Fifo.In | fifo.c:35-98 | returns min(len, free) with free = buffer_len − dev->len, or buffer_len when dev->len exceeds it (then len restarts from 0); len grows by the count; in advances with wrap; the queue gains src[..r] at its end; with no room nothing changes |
| Fifo.Fifo.Out | fifo.c:100-145 | returns min(len, dev->len); len shrinks by it; out advances with wrap; dst receives the oldest bytes in order; the queue loses exactly them; the buffer is unchanged |
| Fifo.Fifo.CopyIn | fifo.c:78-89 | the one or two memcpy calls write src[..m] into the ring at in |
| Fifo.Fifo.CopyInWrapped | fifo.c:86-89 | the wrapped copy: tail part at in, head part at 0, bytes between untouched |
| Fifo.Fifo.CopyOut | fifo.c:125-136 | the one or two memcpy calls read the m bytes of the ring from out into dst |
| Fifo.Fifo.CopyOutWrapped | fifo.c:133-136 | the wrapped read: buffer[out..] then buffer[..m−space] |
| Fifo.Fifo.GetLen | fifo.c:147-156 | the number of queued bytes |
| Fifo.Fifo.Clean | fifo.c:158-169 | in = out = len = 0; the queue is empty |
| Fifo.Fifo.GetFree | fifo.c:171-178 | buffer_len − len in `uint32_t` (the free room on a valid queue) |
| Shell.Token | shell.c:61-71 | the bytes before the first space or NUL, which is the first word |
| Shell.CmdLen | shell.c:61-71 | shell_cmd_len returns the length of the first word |
| Shell.CmdCheck | shell.c:76-92 | returns 0 or -1; 0 iff both strings have the same first word |
| Shell.TableOk | shell.c:185-192 | the table walk can run: a null row ends the table and every name before it is a C string |
| Shell.EndIndex | shell.c:185 | the first null row; every row before it is a command |
| Shell.FirstMatchFrom | shell.c:185-192 | the first row whose name has the command's first word, or none |
| Shell.Dispatch | shell.c:178-199 | 0 iff the table is bound and some row matches; then one handler whose name matches is called with the line and nothing is printed. Otherwise -1, no call, and "unkown command" printed when the table is bound |
| Shell.Prompted | shell.c:102-106 | the first poll prints the prompt and keeps the index |
| Shell.Edit | shell.c:139-161 | the line the user sees after a key: backspace drops the last byte, a printable byte is appended, anything else leaves it |
| Shell.Key | shell.c:114-172 | the buffer keeps its size and the index stays below 63 |
| Shell.ReadStep | shell.c:97-173 | one poll keeps the buffer invariant |
| Shell.KeyEdits | shell.c:114-172 | backspace deletes, printable bytes append, terminators end the line. A line is returned iff a terminator comes with a non-empty buffer or the 63rd byte arrives; it is NUL-terminated, has the count as its length, and the index resets |
| Shell.PromptedKeepsLine | shell.c:102-106 | the prompt step leaves the typed line alone |
| Shell.ReadStepIdle | shell.c:109-112 | with no byte available the poll returns 0 and leaves line and index unchanged |
| Shell.Shell.constructor | shell.c:4-9 | the buffer "\r" then zeros, index 0, interfaces bound as shell_set_itf binds them |
| Shell.Shell.Valid | shell.c:8-9 | the object invariant: the buffer has SHELL_CMD_LEN bytes, the index stays below SHELL_CMD_LEN - 1, and the typed bytes are printable |
| Shell.Shell.ReadLine | shell.c:97-173 | shell_read_line leaves buffer, index, input and count as ReadStep says; the invariant is kept |
| Shell.Shell.HandleKey | shell.c:114-172 | the part after a byte was read leaves the state Key gives |
| Shell.Shell.EndLine | shell.c:130-134 | NUL written at the index, index back to 0, CR LF sent, count returned |
| Shell.Shell.ExecCmdList | shell.c:178-199 | output, calls and result are those of Dispatch; a call goes to the first match |
| Shell.Shell.Exec | shell.c:204-210 | a poll reads a byte; a completed line is dispatched, otherwise nothing is called |
| ShellFunc.CStr | shell_func.c:35-56 | a literal as a NUL-terminated string |
| ShellFunc.CommandTableOk | shell_func.c:35-56 | the table has thirteen commands, all well formed, then the null row that stops the lookup |
| ShellFunc.Ascii2Uc | shell_func.c:58-71 | a value iff the byte is a hex digit in either case; the value is below 16 and the digit spells it |
| ShellFunc.Ascii2UcInverts | shell_func.c:58-71 | each value below 16 is read back from its lower- and upper-case digit |
| ShellFunc.HexPairs | shell_func.c:77-97 | the decoded bytes use at most two characters each |
| ShellFunc.HexPairsDigits | shell_func.c:79-90 | decoded byte k is hi*16+lo of the digits at 2k and 2k+1 |
| ShellFunc.HexPairsStops | shell_func.c:81-88 | decoding stops only at a pair that is not two digits or at the end, so an odd trailing digit is dropped |
| ShellFunc.HexEncode | shell_func.c:77-97 | the lower-case spelling has two digits per byte |
| ShellFunc.HexPairsOfEncode | shell_func.c:77-97 | decoding the spelling of d followed by t gives d followed by t's decoding |
| ShellFunc.HexRoundTrip | shell_func.c:77-97 | round trip: a spelled byte string decodes to itself, with or without one extra digit |
| ShellFunc.NextPair | shell_func.c:79-89 | the two ascii2uc calls: the next decoded byte, or none where decoding stops |
| ShellFunc.Str2Hex | shell_func.c:73-98 | returns min(pairs decoded, max(len, 1)); buff gets exactly those bytes and nothing past them |
| SpiFlash.Cmd | spiflash.c:95-98 | a 4-byte command starting with the opcode |
| SpiFlash.CmdAddress | spiflash.c:96-98 | the three address bytes are addr>>16, addr>>8, addr&0xFF, big-endian, and give back any 24-bit address |
| SpiFlash.Header | spiflash.c:91-130 | each operation is sent with its own opcode: read 0x03, erase 0x20, program 0x02 |
| SpiFlash.SectorMask | spiflash.c:151-153 | start_addr + sec_head == addr; start_addr is sector aligned and sec_head < 4096 |
| SpiFlash.PartitionAsWritten | spiflash.c:151-164 | as written: start + head == addr, start aligned, head < sector |
| SpiFlash.Partition | spiflash.c:151-164 | corrected: start + head == addr, start aligned, head < sector |
| SpiFlash.PartitionCovers | spiflash.c:135-164 | corrected: fill + mid·4096 + tail == len, tail < 4096, a tail ends on a sector boundary, and a short head write has no mid or tail |
| SpiFlash.PartitionAsWrittenLosesSector | spiflash.c:154-164 | addr 0, len 4096+100: the code's partition covers only 100 bytes |
| SpiFlash.PartitionAsWrittenAgrees | spiflash.c:154-164 | for an unaligned addr, or a range ending on a boundary, the code's partition is the corrected one and covers len |
| SpiFlash.HeadSectorAsWritten | spiflash.c:166-171 | as written, the head sector image keeps a sector's size |
| SpiFlash.HeadSector | spiflash.c:166-171 | corrected: the old sector before head, the fill bytes at head, the old sector after them |
| SpiFlash.HeadSectorAsWrittenClobbers | spiflash.c:168-169 | a stale cache byte replaces a flash byte before the head offset |
| SpiFlash.Erased | spiflash.c:91-102 | n erased bytes |
| SpiFlash.SectorCmds | spiflash.c:172-175 | one erase and sixteen page programs per sector |
| SpiFlash.FlashDev.constructor | spiflash_itf.c:5-20 | flash_itf_init: the chip image as given, no commands sent, and a fresh 4096-byte sector cache bound as `dev->buffer` |
| SpiFlash.FlashDev.Read | spiflash.c:120-130 | flash_read puts the chip's bytes into dst, logs one read and returns len |
| SpiFlash.FlashDev.EraseSector | spiflash.c:91-102 | the sector holding addr becomes erased; one erase is logged |
| SpiFlash.FlashDev.PageProgram | spiflash.c:105-117 | the page bytes are written at addr; one program is logged |
| SpiFlash.FlashDev.ProgramSector | spiflash.c:172-175 | erase plus sixteen 256-byte programs write a whole sector from src |
| SpiFlash.FlashDev.ProgramPage | spiflash.c:173-175 | round j of the page loop |
| SpiFlash.FlashDev.HeadStep | spiflash.c:166-178 | corrected: the head sector gets the fill bytes at head and keeps its other bytes |
| SpiFlash.FlashDev.LoadHead | spiflash.c:168-171 | corrected: dev->buffer is the whole old sector with the fill bytes at head |
| SpiFlash.FlashDev.TailStep | spiflash.c:190-198 | the tail sector gets the tail bytes at its start and keeps the bytes after them |
| SpiFlash.FlashDev.LoadTail | spiflash.c:192-193 | dev->buffer is the tail bytes, then the sector's bytes from sec_tail on |
| SpiFlash.FlashDev.Split | spiflash.c:151-164 | the shifts and masks compute the corrected partition |
| SpiFlash.FlashDev.WriteMid | spiflash.c:180-188 | n whole sectors of caller bytes are written from base |
| SpiFlash.FlashDev.MidSector | spiflash.c:182-187 | round i of the mid loop extends the written range by one sector |
| SpiFlash.FlashDev.Write | spiflash.c:133-200 | flash_write (corrected) writes exactly src[..len] at addr and nothing else; returns len; the command log is WriteOps |
| SpiFlash.FlashDev.WriteHead | spiflash.c:166-178 | the head step writes the fill bytes at addr and moves to the next sector |
| SpiFlash.FlashDev.WriteTail | spiflash.c:190-198 | the tail step writes the tail bytes at the last sector's start |
| SpiFlash.Partial | spiflash.c:173-175 | the chip after j pages of a sector program keeps its size |
| SpiFlash.PartialStart | spiflash.c:172 | before the first page the sector is erased |
| SpiFlash.PageStep | spiflash.c:173-175 | page j adds data[j·256..] to the sector; after 16 pages the sector is the data |
| SpiFlash.PageInSector | spiflash.c:174 | page j of an aligned sector is page aligned and inside the sector (16·256 == 4096) |
| SpiFlash.Spliced | spiflash.c:133-200 | the chip with d written at `at` keeps its size |
| SpiFlash.SplicedSlices | spiflash.c:133-200 | d lies at `at` and the chip is unchanged elsewhere |
| SpiFlash.SplicedExtend | spiflash.c:176-187 | writing d then e right after it writes d + e |
| SpiFlash.SplicedCompose | spiflash.c:166-198 | the head, mid and tail writes together write the caller's bytes in order |
| SpiFlash.SpliceInside | spiflash.c:166-198 | re-programming a sector with its own bytes around d writes only d |
| SpiFlash.WriteLayout | spiflash.c:151-198 | the three steps cover len, stay on sector boundaries and stay inside the chip |
| SpiFlash.MidOps | spiflash.c:180-188 | n sectors send n·17 commands |
| SpiFlash.MidOpsStep | spiflash.c:180-188 | one more sector appends its erase and programs |
| Clock.PllClock | clock.c:4-26 | PLLCLK_HZ is 180 MHz. The VCO is 360 MHz, inside 100-432 MHz. M is within 2..63 and P is one of 2, 4, 6, 8. The 1 ms SysTick reload fits 24 bits |
| Clock.Pow2 | clock.c:60-67 | helper: the divisor 2^k a prescaler code selects, positive so that the decoders' quotients are defined |
| Clock.ApbShift | clock.c:60-69 | an APB code divides by at most 16 |
| Clock.AhbShift | clock.c:92-109 | an AHB code divides by at most 512 and never by 32 |
| Clock.Apb1 | clock.c:57-71 | clock_get_apb1 is PLLCLK_HZ divided exactly by 2^k for the PPRE1 field at bit 10 |
| Clock.Apb2 | clock.c:73-87 | clock_get_apb2 is PLLCLK_HZ divided exactly by 2^k for the PPRE2 field at bit 13 |
| Clock.Ahb | clock.c:89-111 | clock_get_ahb is PLLCLK_HZ / 2^k for the HPRE field at bit 4 |
| Clock.ApbDecodes | clock.c:60-70 | the if-chain of the APB decoders equals PLLCLK_HZ divided exactly by 2^k, k the power the PPRE code encodes |
| Clock.AhbDecodes | clock.c:92-110 | the if-chain of clock_get_ahb equals PLLCLK_HZ / 2^k, k the power the HPRE code encodes: exact up to /256; /512 truncates to 351 562 Hz |
| Clock.AhbDecodesBy16 | clock.c:92-99 | codes 8-11 divide exactly by 2, 4, 8, 16 |
| Clock.AhbDecodesBy512 | clock.c:100-107 | codes 12-15 divide by 64, 128, 256, 512 |
| Clock.Pow2Small | clock.c:60-107 | the divisors the decoders use, 1 to 16 and 64 to 512, are the powers 2^0..2^4 and 2^6..2^9 |
| Clock.AhbNeverDividesBy32 | clock.c:89-111 | no RCC_CFGR value makes clock_get_ahb report a division by 32 |
| Clock.Pow2Grows | clock.c:60-107 | larger codes never divide less |
| Clock.SetupClocks | clock.c:147-169 | for any old RCC_CFGR, clock_setup's value decodes to AHB 180 MHz, APB1 45 MHz and APB2 90 MHz, the part's maxima; other bits are kept |
| Clock.SetupFields | clock.c:147-168 | the value has HPRE 0, PPRE1 5 and PPRE2 4 |
| Clock.PllCfgrFields | clock.c:181-187 | each PLLCFGR field reads back its setting: M 8, N 360, P code 0, the HSE source, Q 7 |
| Clock.DiffU32 | clock.c:225-231 | both branches give (now − pre) mod 2^32, so that pre + r wraps to now |
| Clock.DiffU32Least | clock.c:225-231 | any k with pre + k ≡ now (32-bit) is the difference, so rollover is handled |
| ThermalDisplay.Temp | MLX90642_disp.c:24 | `((int16_t)raw*2+50)/100`: for a signed reading ≥ −25 it is raw/50 rounded half-up; below that C's truncating division gives the t with 50t−75 < raw ≤ 50t−25; always within ±655 |
| ThermalDisplay.GrayLevel | MLX90642_disp.c:12-25 | inside the fitted −40..260 range the gray is 255·(t+40)/300 |
| ThermalDisplay.GrayEnds | MLX90642_disp.c:12-18 | −40 degrees is black (0) and 260 degrees white (255) |
| ThermalDisplay.GrayMonotone | MLX90642_disp.c:12-25 | inside the range a hotter pixel is never darker |
| ThermalDisplay.GrayWrapsOutsideFit | MLX90642_disp.c:25 | outside the range the uint8_t cast wraps: 262 °C reads 0 and −42 °C reads 255 |
| ThermalDisplay.GrayImageAsWritten | MLX90642_disp.c:19-29 | the image as written has 768 entries |
| ThermalDisplay.GrayImage | MLX90642_disp.c:19-29 | the corrected image has 768 entries |
| ThermalDisplay.Temp2GrayAsWritten | MLX90642_disp.c:19-29 | as written: the loop fills gray[0..768] with GrayImageAsWritten and nothing after |
| ThermalDisplay.Temp2Gray | MLX90642_disp.c:19-29 | corrected: gray[i·24+j] is the gray of buffer[i·24+j]; nothing after 768 changes |
| ThermalDisplay.AsWrittenRuns | MLX90642_disp.c:22-26 | as written, every run of 24 gray values is identical, the gray of buffer[i] |
| ThermalDisplay.AsWrittenIgnoresRest | MLX90642_disp.c:22-24 | as written, only the first 32 readings affect the image |
| ThermalDisplay.AsWrittenMissesPixel | MLX90642_disp.c:24 | a buffer whose pixel 1 is hot: the code shows 34, the corrected loop 119 |
| ThermalDisplay.GrayImagePixels | MLX90642_disp.c:19-29 | each pixel of the corrected image follows the fit and keeps the temperature order |
| ThermalDisplay.Gray2Rgb | MLX90642_disp.c:31-35 | r = gray, g = abs(127 − gray), b = 255 − gray |
| ThermalDisplay.Gray2RgbRamp | MLX90642_disp.c:31-35 | r + b is 255, red rises and blue falls with gray, and green is at most 128 and is 0 exactly at gray 127 |
| ThermalDisplay.RgbAsWrittenFields | MLX90642_disp.c:42 | the macro places r&0xF8 at bits 7..3, g>>5 at 2..0, g&0xE0 at 15..13 and b&0x1F at 12..8 |
| ThermalDisplay.Rgb | MLX90642_disp.c:37-42 | the layout the macro's comment gives is the RGB565 word with its bytes exchanged |
| ThermalDisplay.RgbKeepsChannels | MLX90642_disp.c:37-41 | the corrected packing keeps the top 5, 6 and 5 bits of r, g, b |
| ThermalDisplay.RgbAsWrittenLosesColour | MLX90642_disp.c:42 | blue 0xE0 alone, or green 0x1C alone, packs to black as written and not when corrected |
| LcdItf.Swap | lcd_itf.c:156 | the stored word has the colour's bytes exchanged |
| LcdItf.Unswap | lcd_itf.c:179-180 | get_pixel's `(c>>8)|(c<<8)` truncated to 16 bits is the same exchange |
| LcdItf.SwapInvolution | lcd_itf.c:156-180 | exchanging the bytes twice gives the colour back |
| LcdItf.Index | lcd_itf.c:156 | y·240 + x lies in the buffer and gives back x and y |
| LcdItf.IndexInjective | lcd_itf.c:156 | distinct pixels occupy distinct buffer positions |
| LcdItf.Lcd.constructor | lcd_itf.c:86-97 | the device `s_lcd_itf_dev`, with a frame buffer of 240·320 pixels assumed allocated; its contents are not specified |
| LcdItf.Lcd.GetPixel | lcd_itf.c:177-181 | the stored word is the swap of the result |
| LcdItf.Lcd.SetPixel | lcd_itf.c:146-157 | one element, y·240 + x, gets the swapped colour. get_pixel then returns the colour, and every other pixel reads as before |
| LcdItf.Lcd.SetPixel0 | lcd_itf.c:165-168 | the same store at a raw offset, so set_pixel_0(y·240+x, c) leaves the buffer set_pixel(x, y, c) leaves |
| LcdItf.FillDirect | lcd_itf.c:192-195 | x0 and y0 are x and y. Non-empty spans have w columns and h rows. A zero width or height wraps x1 or y1 to x−1 or y−1 modulo 2^16 |
| LcdItf.FillDirectWindow | lcd_itf.c:192-195 | a window on the panel asks for x..x+w−1, y..y+h−1 and exactly 2·w·h bytes |
| LcdItf.SyncIsFullFill | lcd_itf.c:134-137 | lcd_itf_sync's request is the direct fill of the whole 240×320 panel |

## Left out

- `Xmodem.Engine`: a null configuration pointer is not modelled. Both polls call `getms` through it before testing it for null (xmodem.c:130, xmodem.c:379), so a bound configuration is assumed.
- The callbacks (xmodem.c:138-145, xmodem.c:386-393):
  - their presence is modelled as flags, and their effects as the input, output and store of the engine;
  - `io_write`'s return value is ignored, as the source ignores it;
  - `io_write_flush` is never called by the core.
- `Xmodem.Engine`: the engine assumes the 1029-byte packet buffer the header asks for (xmodem.h:39).
- `Xmodem.RxWriteLen`: the bound xferlen + n ≤ totallen is stated only when xferlen + plen does not wrap a `uint32_t`. The test at xmodem.c:278 is computed modulo 2^32.
- `Xmodem.RxFramePastTotal`: stated under the same no-wrap hypothesis.
- `Xmodem.StoreWrite`: mem_write returns either the whole count or 0; a partial nonzero count is not modelled. The code would still advance xferlen by the full plen after one (xmodem.c:300-310). Every mem_write the firmware binds returns its len argument (shell_func.c:397-401, shell_func.c:613-617), so 0 is kept only to model the -9 path.
- `Xmodem.StoreRead`: mem_read returns either the whole count or none; a short nonzero read is not modelled. The code would pad it with CTRLZ after taking its count into a `uint16_t` (xmodem.c:381, xmodem.c:449-460). Every mem_read the firmware binds returns its len argument (shell_func.c:391-395, shell_func.c:607-611). The padding is modelled for the last packet, where TxWant asks for fewer than plen bytes.
- `Fifo.Fifo`: buffers of 2^31 bytes or more are not modelled, because there `in + len` could wrap a `uint32_t`.
- `Fifo.Fifo.GetFree`: the null-device test is not modelled. There is no null pointer in the model.
- Fifo: the `FIFO_PARAM_CHECK` tests are compiled out in the source (fifo.c:4) and are not modelled.
- `Shell.Shell`: an unbound output interface is not modelled.
  - `shell_putchar` tests it.
  - `shell_putstring` calls through it unchecked (shell.c:35).
  - The model always has an output log.
- `Shell.Dispatch`: the command handlers are represented by the calls they receive, not by their bodies.
  - The handlers in shell_func.c dereference raw addresses and call `xprintf` / `xatoi`, which are not part of this model.
  - `shell_set_itf` is the `Shell.Shell` constructor.
- `SpiFlash.FlashDev` page program is modelled as overwrite rather than as the chip's AND into erased bytes. Every program in `flash_write` follows an erase of its sector, where the two agree.
- `SpiFlash.FlashDev` does not log write enable, the busy polling (`flash_wait_busy`) or the status registers.
- `SpiFlash.FlashDev`: addresses are kept below the 16 MB a 24-bit address reaches.
- `SpiFlash.FlashDev.Write`: the final contents of `dev->buffer` are not specified. Only the chip and the command log are.
- `SpiFlash.FlashDev.Write` models the corrected partition and head read of the Findings below. So do `SpiFlash.FlashDev.WriteHead`, `SpiFlash.FlashDev.HeadStep` and `SpiFlash.FlashDev.LoadHead`, which read back the whole head sector. The code as written is `PartitionAsWritten` and `HeadSectorAsWritten`.
- SpiFlash: the geometry is fixed to 4096-byte sectors and 256-byte pages (spiflash_itf.c:16-19).
- `SpiFlash.Header`: the address round trip is proved on the bit-vector encoding only.
- `Clock.SetupClocks`: the RCC_CFGR field masks follow the STM32F4 reference manual (RM0090). The register header is not part of this model.
- Clock: not modelled:
  - the register sequencing of `clock_setup` (enables, busy waits, PWR over-drive, flash latency write);
  - `tick`, `systick_init`, `get_ticks` and `clock_delay`, which touch live hardware.
- `Clock.Ahb`: at /512 the value truncates (351 562 Hz), so the exact-product form is stated only for the other codes.
- `ThermalDisplay.Temp`: stated exactly rather than as round-to-nearest. For negative readings C's truncating division does not round half-up.
- `ThermalDisplay.GrayLevel`: there is no clamp outside −40..260 °C, and the `uint8_t` cast wraps. This is stated, not corrected.
- ThermalDisplay: `mlx90642_disp`'s sensor wait, image read and draw loop are I/O and are not modelled. The same goes for `mlx90642_disp_init`.
- LcdItf: `lcd_itf_init`, `lcd_itf_deinit`, the SPI transfer of `lcd_itf_sync` and `lcd_itf_set_pixel_direct` are not modelled. They call the panel driver, which is not part of this model.
- `lcd_itf_fill`, called at MLX90642_disp.c:74, is defined and declared in none of the files modelled here, so it is not part of this model.
- `LcdItf.Lcd`: the model assumes a 240·320 frame buffer allocated by the user, as ili9341v.h:61 asks. lcd_itf.c leaves `.buffer` null (lcd_itf.c:97) and nothing here allocates it. As the code stands, set_pixel, set_pixel_0 and get_pixel would dereference a null pointer (lcd_itf.c:156, 167, 179), and lcd_itf_sync would pass that null pointer to the SPI transfer. The buffer's initial contents are not specified: ili9341v_init clears only `sizeof(int)` bytes of a bound buffer (ili9341v.c:186).
- `LcdItf.FillDirect`: `w*h*2` is computed in `int` and passed as `uint32_t`. It is modelled modulo 2^32; a signed overflow for huge windows is not modelled.

## Findings

| source | as written | input that shows it | evidently intended | confidence | as-written member | corrected member |
|---|---|---|---|---|---|---|
| string.c:16-21 | the loop compares `*s1` and `*s2` but never advances them | n = 3, "hxx" vs "hex": returns 0 | compare the first n bytes up to NUL, advancing both pointers | high, not executed | CString.StrncmpComparesFirstByteOnly | CString.StrncmpFixed |
| xmodem.c:402-418 | the start-wait timeout test reads buf[0], which io_read leaves unchanged when no byte arrives | buf[0] == CAN left by an earlier transfer, no byte arriving: start-wait never times out | clear buf[0] before the read, as the receiver does at xmodem.c:172; this is `Xmodem.TxStart`, which agrees with the code whenever a byte arrives (`Xmodem.TxStartAgreesOnInput`) | medium, not executed | Xmodem.TxStartStaleCanNeverTimesOut | Xmodem.TxStartTimesOut |
| spiflash.c:154-164 | for a sector-aligned addr with a tail, one middle sector is subtracted | addr = 0, len = 4096 + 100: only 100 bytes are written | head fill + mid·4096 + tail == len | high, not executed | SpiFlash.PartitionAsWrittenLosesSector | SpiFlash.PartitionCovers |
| spiflash.c:168-169 | the head sector is re-read only from sec_head on; bytes before it come from the stale `dev->buffer` | head = 1, cache 0x00, flash 0xFF: byte 0 of the sector becomes 0x00 | read the whole sector first (the commented-out read) | high, not executed | SpiFlash.HeadSectorAsWrittenClobbers | SpiFlash.HeadSector |
| MLX90642_disp.c:24 | the inner loop reads `buffer[i]` instead of `buffer[idx]` | all readings 0 except pixel 1 = 5000: gray[1] is 34 instead of 119 | read `buffer[idx]`, one reading per pixel | high, not executed | ThermalDisplay.AsWrittenMissesPixel | ThermalDisplay.GrayImagePixels |
| MLX90642_disp.c:42 | the macro packs `g&0xE0` and `b&0x1F` into the second byte, not G[4:2] and B[7:3], the layout the comment at lines 37-41 draws, read as RGB565 | r = 0, g = 0, b = 0xE0: packs to 0 (black) | `((g<<3)&0xE0) \| (b>>3)`, the byte-swapped RGB565 word | medium, not executed | ThermalDisplay.RgbAsWrittenLosesColour | ThermalDisplay.RgbKeepsChannels |
