/** The XMODEM transfer engine of xmodem.c: a receiver and a sender, each a
    state machine advanced by one poll (xmodem_rx / xmodem_tx) at a time.

    The engine state (`s_state_st`) and the fields of the bound
    configuration that the engine updates live in the class Engine. The
    callbacks of the configuration become an environment the class also
    holds: the bytes the peer has sent and the engine has not read yet, the
    bytes the engine has written to the channel, and the memory image behind
    mem_read / mem_write. The millisecond clock is a parameter of each poll.

    Every poll is specified by a function on a Snapshot of all of that
    (RxStep, TxStep below); the properties of the protocol are lemmas about
    those functions. */
module Xmodem {
  import opened Uint
  import opened Integrity
  import opened CString

  // ---------------------------------------------------------------------
  // Protocol bytes and engine states (xmodem.c).

  const SOH: Byte := 0x01
  const STX: Byte := 0x02
  const EOT: Byte := 0x04
  const ACK: Byte := 0x06
  const NAK: Byte := 0x15
  const CAN: Byte := 0x18
  const CTRLZ: Byte := 0x1A
  /** The receiver's request for CRC mode, 'C'. */
  const CRC_REQUEST: Byte := 0x43

  const IDLE: uint8 := 0
  const RX_START_WAIT: uint8 := 1
  const RX_START_WAIT_HEAD: uint8 := 2
  const RX_DATA_WAIT: uint8 := 3
  const RX_DATA_WAIT_HEAD: uint8 := 4
  const TX_START_WAIT: uint8 := 1
  const TX_DATA: uint8 := 2
  const TX_ACK_WAIT: uint8 := 3

  /** The packet buffer the caller provides: a 1024-byte payload plus the
      three header bytes and at most two trailer bytes. */
  const BUF_LEN: nat := 1029

  /** The bytes of one frame: header, payload of plen bytes, trailer
      (`plen + 3 + ((crccheck == 0) ? 1 : 2)`). */
  function FrameLen(plen: uint16, crccheck: uint8): nat {
    plen as nat + 3 + TrailerLen(crccheck != 0)
  }

  predicate ValidPlen(plen: uint16) {
    plen == 128 || plen == 1024
  }

  // ---------------------------------------------------------------------
  // Environment: the channel and the store.

  /** The fixed part of `xmodem_cfg_st`, and which optional callbacks are
      bound. getms and the configuration pointer itself are always bound:
      both polls call getms before any check. */
  datatype Config = Config(
    addr: uint32,
    totallen: uint32,
    packetTimeout: uint32,
    ackTimeout: uint32,
    hasIoRead: bool,
    hasIoWrite: bool,
    hasMemRead: bool,
    hasMemWrite: bool,
    hasBuffer: bool,
    hasRxLen: bool,
    hasReadFlush: bool)

  /** The engine state, the mutable configuration fields, the packet buffer
      and the environment, at one instant. */
  datatype Snapshot = Snapshot(
    state: uint8,
    getlen: uint32,
    pnum: Byte,
    ms: uint32,
    xferlen: uint32,
    plen: uint16,
    crccheck: uint8,
    startTimeout: uint32,
    buf: seq<Byte>,
    input: seq<Byte>,
    output: seq<Byte>,
    store: seq<Byte>)

  /** A poll's result: the new snapshot and the value returned. */
  datatype Outcome = Outcome(after: Snapshot, res: int)

  /** s with data written over it from index off on. */
  function Splice(s: seq<Byte>, off: nat, data: seq<Byte>): (r: seq<Byte>)
    requires off + |data| <= |s|
    ensures |r| == |s| && r[off..off + |data|] == data
  {
    s[..off] + data + s[off + |data|..]
  }

  /** One element of a splice. */
  lemma SpliceAt(s: seq<Byte>, off: nat, data: seq<Byte>, i: nat)
    requires off + |data| <= |s| && i < |s|
    ensures Splice(s, off, data)[i] == if off <= i < off + |data| then data[i - off] else s[i]
  {
  }

  /** The number of bytes an io_read of n bytes returns: the channel hands
      over what it holds, at most n (uart_read is a FIFO read). */
  function Avail(input: seq<Byte>, n: nat): (k: nat)
    ensures k <= n && k <= |input| && (k == n || k == |input|)
  {
    Min(n, |input|)
  }

  /** mem_write(a, data): the store takes the bytes if the whole range lies
      inside it and the call returns their number; otherwise it returns 0
      and nothing changes. */
  function StoreWrite(store: seq<Byte>, a: nat, data: seq<Byte>): (r: (seq<Byte>, nat))
    ensures r.1 == |data| || (r.1 == 0 && r.0 == store)
    ensures a + |data| <= |store| ==> r.1 == |data| && r.0 == Splice(store, a, data)
  {
    if a + |data| <= |store| then (Splice(store, a, data), |data|) else (store, 0)
  }

  /** mem_read(a, n): the n bytes at a if they lie inside the store, none
      otherwise. */
  function StoreRead(store: seq<Byte>, a: nat, n: nat): (r: seq<Byte>)
    ensures |r| == n || |r| == 0
    ensures a + n <= |store| ==> r == store[a..a + n]
  {
    if a + n <= |store| then store[a..a + n] else []
  }

  /** Bytes of the padding written after a short last payload. */
  function Pad(n: nat): (r: seq<Byte>)
    ensures |r| == n && forall i :: 0 <= i < n ==> r[i] == CTRLZ
  {
    seq(n, _ => CTRLZ)
  }

  /** `(t - s_state_st.ms) >= timeout` in `uint32_t` arithmetic. */
  predicate Elapsed(now: uint32, since: uint32, timeout: uint32) {
    Sub32(now, since) >= timeout
  }

  /** A poll only appends to the output channel and only takes bytes from
      the front of the input. */
  predicate Consumes(s: Snapshot, s1: Snapshot) {
    && s.output <= s1.output
    && |s1.input| <= |s.input|
    && s1.input == s.input[|s.input| - |s1.input|..]
  }

  /** The result of a poll and the state it leaves agree: 0 keeps a
      transfer running, and every other result except -1 (a missing
      callback, which changes nothing) leaves the engine idle. */
  predicate Settled(o: Outcome) {
    && (o.res == 0 ==> o.after.state != IDLE)
    && (o.res != 0 && o.res != -1 ==> o.after.state == IDLE)
  }

  // ---------------------------------------------------------------------
  // The receiver (xmodem_rx).

  /** What the receiver needs between polls: the buffer has its size, the
      state is a receive state, no more than totallen bytes have been
      stored, and while a frame is being collected the packet length is
      one of the two XMODEM lengths and the bytes collected fit the frame. */
  predicate RxReady(c: Config, s: Snapshot) {
    && |s.buf| == BUF_LEN
    && s.state <= RX_DATA_WAIT_HEAD
    && (s.state >= RX_START_WAIT_HEAD ==> s.xferlen <= c.totallen)
    && (s.state == RX_DATA_WAIT ==>
          ValidPlen(s.plen) && 1 <= s.getlen as nat <= FrameLen(s.plen, s.crccheck))
  }

  /** Start-wait: send 'C' (CRC mode) or NAK (checksum mode) to start the
      sender, restart the header timer and the byte count. */
  function RxStart(c: Config, s: Snapshot, now: uint32): Outcome {
    var tmp := if s.crccheck != 0 then CRC_REQUEST else NAK;
    Outcome(s.(output := s.output + [tmp], ms := now, state := RX_START_WAIT_HEAD, xferlen := 0), 0)
  }

  /** Header-wait, the byte read: io_read of one byte into buf[0], which is
      0 when nothing arrives. SOH or STX opens a frame of 128 or 1024
      bytes; EOT ends the transfer (ACKed, 1 if all totallen bytes came, -3
      otherwise); CAN ends it with -8. */
  function RxHeadByte(c: Config, s: Snapshot, now: uint32): Outcome
    requires |s.buf| == BUF_LEN
  {
    var got := |s.input| > 0;
    var b0: Byte := if got then s.input[0] else 0;
    var s1 := s.(buf := s.buf[0 := b0], input := if got then s.input[1..] else s.input);
    if got && (b0 == SOH || b0 == STX) then
      Outcome(s1.(plen := if b0 == SOH then 128 else 1024, ms := now, state := RX_DATA_WAIT, getlen := 1), 0)
    else if got && b0 == EOT then
      Outcome(s1.(output := s1.output + [ACK], state := IDLE), if s.xferlen >= c.totallen then 1 else -3)
    else if got && b0 == CAN then
      Outcome(s1.(state := IDLE), -8)
    else Outcome(s1, 0)
  }

  /** Header-wait: the byte read, then, when it is not a frame header (none,
      EOT, CAN or another), the header timeout. This test is made after the
      EOT and CAN cases, in the same poll, so it can replace their result.
      On expiry with at most one start retry left the transfer ends with
      -4; otherwise a start-phase wait spends a retry and goes back to
      sending the start byte, and a data-phase wait ends with -5. */
  function RxHead(c: Config, s: Snapshot, now: uint32): Outcome
    requires |s.buf| == BUF_LEN
  {
    var o := RxHeadByte(c, s, now);
    var b0 := o.after.buf[0];
    if b0 != SOH && b0 != STX && Elapsed(now, s.ms, c.ackTimeout) then
      if o.after.startTimeout <= 1 then
        Outcome(o.after.(state := IDLE), -4)
      else if o.after.state == RX_START_WAIT_HEAD then
        Outcome(o.after.(startTimeout := o.after.startTimeout - 1, state := RX_START_WAIT), o.res)
      else
        Outcome(o.after.(state := IDLE), -5)
    else o
  }

  /** How many frame bytes the data-wait poll reads: with io_getrxlen bound
      it reads the rest of the frame only once all of it is there; without,
      it reads what is there. */
  function RxChunk(c: Config, s: Snapshot): (k: nat)
    requires s.getlen as nat <= FrameLen(s.plen, s.crccheck)
    ensures s.getlen as nat + k <= FrameLen(s.plen, s.crccheck) && k <= |s.input|
  {
    var need := FrameLen(s.plen, s.crccheck) - s.getlen as nat;
    if c.hasRxLen then (if |s.input| >= need then need else 0) else Avail(s.input, need)
  }

  /** The packet-number test of xmodem_rx: `(uint8_t)(pnum + 1) == b1` and
      `b1 + b2 == 255` on promoted ints. */
  predicate NumberOk(pnum: Byte, b1: Byte, b2: Byte) {
    pnum + 1 == b1 && b1 as int + b2 as int == 255
  }

  /** The packet-number test of a complete frame in s.buf. */
  predicate SeqOk(s: Snapshot)
    requires |s.buf| == BUF_LEN
  {
    NumberOk(s.pnum, s.buf[1], s.buf[2])
  }

  /** The integrity test of a complete frame: its trailer is the one its
      payload calls for in the mode crccheck selects. */
  predicate TrailerGood(s: Snapshot)
    requires |s.buf| == BUF_LEN && ValidPlen(s.plen)
  {
    s.buf[3 + s.plen..3 + s.plen + TrailerLen(s.crccheck != 0)] == Trailer(s.crccheck != 0, s.buf[3..3 + s.plen])
  }

  /** The number of payload bytes the receiver stores for an accepted frame:
      the rest of the transfer for the last packet, plen otherwise. */
  function RxWriteLen(c: Config, s: Snapshot): (n: nat)
    requires ValidPlen(s.plen) && s.xferlen <= c.totallen
    ensures n <= s.plen as nat
    ensures s.xferlen as int + s.plen as int < U32_LIMIT ==> s.xferlen as nat + n <= c.totallen
  {
    if Add32(s.xferlen, s.plen) >= c.totallen then c.totallen - s.xferlen as nat else s.plen as nat
  }

  /** Storing the last packet (xferlen + plen reaches totallen): a frame
      that comes when all totallen bytes are already stored is answered by
      CAN and ends the transfer with 1; otherwise it is ACKed and its first
      totallen - xferlen bytes go to mem_write, whose result is not looked
      at. */
  function RxStoreLast(c: Config, s: Snapshot): Outcome
    requires |s.buf| == BUF_LEN && ValidPlen(s.plen) && s.xferlen <= c.totallen
    requires Add32(s.xferlen, s.plen) >= c.totallen
  {
    if s.xferlen >= c.totallen then
      Outcome(s.(output := s.output + [CAN], state := IDLE), 1)
    else
      var n := c.totallen - s.xferlen;
      Outcome(s.(output := s.output + [ACK], xferlen := c.totallen,
                 store := StoreWrite(s.store, Add32(c.addr, s.xferlen), s.buf[3..3 + n]).0), 0)
  }

  /** Storing any other packet: it is ACKed and all plen bytes go to
      mem_write; a mem_write that returns 0 ends the transfer with -9 after
      a CAN. */
  function RxStoreNext(c: Config, s: Snapshot): Outcome
    requires |s.buf| == BUF_LEN && ValidPlen(s.plen) && s.xferlen <= c.totallen
  {
    var w := StoreWrite(s.store, Add32(c.addr, s.xferlen), s.buf[3..3 + s.plen]);
    if w.1 == 0 then
      Outcome(s.(output := s.output + [ACK, CAN], store := w.0, state := IDLE), -9)
    else
      Outcome(s.(output := s.output + [ACK], store := w.0, xferlen := Add32(s.xferlen, s.plen)), 0)
  }

  /** Data-wait, a frame that passed both tests: record its number and
      restart the header timer, then store it. */
  function RxStore(c: Config, s: Snapshot, now: uint32): (o: Outcome)
    requires |s.buf| == BUF_LEN && ValidPlen(s.plen) && s.xferlen <= c.totallen
    ensures o.after.pnum == s.buf[1] && o.after.xferlen <= c.totallen
    ensures o.after.state == (if o.res == 0 then RX_DATA_WAIT_HEAD else IDLE)
    ensures o.res in {0, 1, -9}
    ensures o.after.store == s.store ||
            (Add32(c.addr, s.xferlen) + RxWriteLen(c, s) <= |s.store| &&
             o.after.store == Splice(s.store, Add32(c.addr, s.xferlen), s.buf[3..3 + RxWriteLen(c, s)]))
  {
    var s2 := s.(pnum := s.buf[1], state := RX_DATA_WAIT_HEAD, ms := now);
    if Add32(s.xferlen, s.plen) >= c.totallen then RxStoreLast(c, s2) else RxStoreNext(c, s2)
  }

  /** Data-wait after the frame's bytes have been read into s.buf: a frame
      out of sequence is answered by CAN and ends the transfer with -6; a
      frame whose trailer is wrong is answered by NAK and waits for the
      resend; a good frame is stored. */
  function RxFrame(c: Config, s: Snapshot, now: uint32): Outcome
    requires |s.buf| == BUF_LEN && ValidPlen(s.plen) && s.xferlen <= c.totallen
  {
    if !SeqOk(s) then
      Outcome(s.(output := s.output + [CAN], state := IDLE), -6)
    else if TrailerGood(s) then
      RxStore(c, s, now)
    else
      Outcome(s.(output := s.output + [NAK], state := RX_DATA_WAIT_HEAD), 0)
  }

  /** Data-wait, the read: the next bytes of the frame go into
      buf[getlen..]. */
  function RxCollect(c: Config, s: Snapshot): (s1: Snapshot)
    requires RxReady(c, s) && s.state == RX_DATA_WAIT
    ensures |s1.buf| == BUF_LEN && s.getlen <= s1.getlen && s1.getlen as nat <= FrameLen(s.plen, s.crccheck)
  {
    var k := RxChunk(c, s);
    s.(buf := Splice(s.buf, s.getlen as nat, s.input[..k]), input := s.input[k..], getlen := s.getlen + k)
  }

  /** Data-wait: read the next bytes of the frame; once the whole frame is
      in, test and store it; otherwise let the packet timeout run, which is
      fatal (NAK, -7). */
  function RxData(c: Config, s: Snapshot, now: uint32): Outcome
    requires RxReady(c, s) && s.state == RX_DATA_WAIT
  {
    var s1 := RxCollect(c, s);
    if s1.getlen as nat >= FrameLen(s.plen, s.crccheck) then
      RxFrame(c, s1, now)
    else if Elapsed(now, s.ms, c.packetTimeout) then
      Outcome(s1.(output := s1.output + [NAK], state := IDLE), -7)
    else Outcome(s1, 0)
  }

  /** One call of xmodem_rx at time now. */
  function RxStep(c: Config, s: Snapshot, now: uint32): Outcome
    requires RxReady(c, s)
  {
    if !(c.hasIoRead && c.hasIoWrite && c.hasMemWrite && c.hasBuffer) then Outcome(s, -1)
    else if s.state == IDLE then Outcome(s, -2)
    else if s.state == RX_START_WAIT then RxStart(c, s, now)
    else if s.state == RX_DATA_WAIT then RxData(c, s, now)
    else RxHead(c, s, now)
  }

  // ---------------------------------------------------------------------
  // The sender (xmodem_tx).

  /** What the sender needs between polls. */
  predicate TxReady(c: Config, s: Snapshot) {
    && |s.buf| == BUF_LEN
    && s.state <= TX_ACK_WAIT
    && ValidPlen(s.plen)
    && s.xferlen <= c.totallen
  }

  /** Start-wait, the byte read: io_read of one byte into buf[0]; 'C' or
      NAK starts the transfer in CRC or checksum mode, CAN ends it with -3.
      When no byte arrives buf[0] keeps its previous value. */
  function TxStartByte(c: Config, s: Snapshot, now: uint32): Outcome
    requires |s.buf| == BUF_LEN
  {
    var got := |s.input| > 0;
    var b0 := if got then s.input[0] else s.buf[0];
    var s1 := s.(buf := s.buf[0 := b0], input := if got then s.input[1..] else s.input);
    if got && (b0 == CRC_REQUEST || b0 == NAK) then
      Outcome(s1.(crccheck := if b0 == CRC_REQUEST then 1 else 0, ms := now, state := TX_DATA), 0)
    else if got && b0 == CAN then
      Outcome(s1.(state := IDLE), -3)
    else Outcome(s1, 0)
  }

  /** Start-wait: the byte read, then, unless buf[0] holds 'C', NAK or CAN,
      the start timeout: each expiry costs one of start_timeout's retries
      and restarts the timer, the last one ends the transfer with -4. The
      test looks at buf[0], which is the byte read or, when none came, the
      value left there by an earlier poll. */
  function TxStartAsWritten(c: Config, s: Snapshot, now: uint32): Outcome
    requires |s.buf| == BUF_LEN
  {
    var o := TxStartByte(c, s, now);
    var b0 := o.after.buf[0];
    if b0 != CRC_REQUEST && b0 != NAK && b0 != CAN && Elapsed(now, s.ms, c.ackTimeout) then
      if s.startTimeout <= 1 then
        Outcome(o.after.(state := IDLE, ms := now), -4)
      else
        Outcome(o.after.(startTimeout := s.startTimeout - 1, ms := now), o.res)
    else o
  }

  /** Start-wait as the receiver's header-wait does it: buf[0] is cleared
      before the read, so a poll without a byte always lets the start
      timeout run. This is the corrected start-wait; the engine and TxStep
      follow the code, TxStartAsWritten. */
  function TxStart(c: Config, s: Snapshot, now: uint32): Outcome
    requires |s.buf| == BUF_LEN
  {
    TxStartAsWritten(c, s.(buf := s.buf[0 := 0]), now)
  }

  /** How many payload bytes the data state asks mem_read for: the rest of
      the transfer when it fits in this packet, a full packet otherwise. */
  function TxWant(c: Config, s: Snapshot): (n: nat)
    requires TxReady(c, s)
    ensures n <= s.plen as nat
  {
    if Add32(s.xferlen, s.plen) >= c.totallen then c.totallen - s.xferlen as nat else s.plen as nat
  }

  /** The bytes of the frame for packet pnum carrying data (at most plen
      bytes): header, data, CTRLZ padding to plen, trailer. */
  function Frame(plen: uint16, crccheck: uint8, pnum: Byte, data: seq<Byte>): (f: seq<Byte>)
    requires |data| <= plen as nat
  {
    var payload := data + Pad(plen as nat - |data|);
    [if plen == 1024 then STX else SOH, pnum, !pnum] + payload + Trailer(crccheck != 0, payload)
  }

  /** b holds, in its first three bytes, the header of frame pnum of plen
      bytes. */
  predicate HeaderOk(b: seq<Byte>, plen: uint16, pnum: Byte) {
    |b| == BUF_LEN && b[0] == (if plen == 1024 then STX else SOH) && b[1] == pnum && b[2] == !pnum
  }

  /** The frame header written over the first three bytes of the buffer. */
  function TxHeader(s: Snapshot): (h: seq<Byte>)
    requires |s.buf| == BUF_LEN
    ensures HeaderOk(h, s.plen, s.pnum) && h[3..] == s.buf[3..]
  {
    s.buf[0 := if s.plen == 1024 then STX else SOH][1 := s.pnum][2 := !s.pnum]
  }

  /** Sending a frame that carries data: the frame fills the front of the
      buffer and goes out on the channel, and the ack timer starts. */
  function TxSend(c: Config, s: Snapshot, data: seq<Byte>, now: uint32): Outcome
    requires TxReady(c, s) && |data| <= s.plen as nat
  {
    var f := Frame(s.plen, s.crccheck, s.pnum, data);
    Outcome(s.(buf := Splice(s.buf, 0, f), output := s.output + f, state := TX_ACK_WAIT, ms := now), 0)
  }

  /** Data state: build the header in buf, read the payload after it, pad a
      short payload, append the trailer and send the frame; a read of no
      bytes sends EOT instead and ends the transfer with 1. */
  function TxData(c: Config, s: Snapshot, now: uint32): Outcome
    requires TxReady(c, s)
  {
    var data := StoreRead(s.store, Add32(c.addr, s.xferlen), TxWant(c, s));
    var s1 := s.(buf := Splice(TxHeader(s), 3, data));
    if |data| > 0 then
      TxSend(c, s1, data, now)
    else
      Outcome(s1.(output := s.output + [EOT], state := IDLE), 1)
  }

  /** The two outcomes of the data state, by the length of the read. */
  lemma TxDataCases(c: Config, s: Snapshot, now: uint32)
    requires TxReady(c, s)
    ensures var data := StoreRead(s.store, Add32(c.addr, s.xferlen), TxWant(c, s));
            var s1 := s.(buf := Splice(TxHeader(s), 3, data));
            TxData(c, s, now) == if |data| > 0 then TxSend(c, s1, data, now)
                                 else Outcome(s1.(output := s.output + [EOT], state := IDLE), 1)
  {
  }

  /** Ack-wait: read one byte into buf[0]. ACK moves on to the next packet
      (pnum + 1, xferlen + plen) or, after the last one, clamps xferlen to
      totallen, sends EOT and ends with 1; NAK resends the same packet; CAN
      ends with -3; otherwise the ack timeout ends the transfer with -5. */
  function TxAck(c: Config, s: Snapshot, now: uint32): Outcome
    requires |s.buf| == BUF_LEN
  {
    var got := |s.input| > 0;
    var b0 := if got then s.input[0] else s.buf[0];
    var s1 := s.(buf := s.buf[0 := b0], input := if got then s.input[1..] else s.input);
    var x := Add32(s.xferlen, s.plen);
    if got && b0 == ACK then
      if x >= c.totallen then
        Outcome(s1.(state := IDLE, pnum := s.pnum + 1, xferlen := c.totallen, output := s.output + [EOT]), 1)
      else
        Outcome(s1.(state := TX_DATA, pnum := s.pnum + 1, xferlen := x), 0)
    else if got && b0 == NAK then
      Outcome(s1.(state := TX_DATA), 0)
    else if got && b0 == CAN then
      Outcome(s1.(state := IDLE), -3)
    else if b0 != ACK && b0 != NAK && b0 != CAN && Elapsed(now, s.ms, c.ackTimeout) then
      Outcome(s1.(state := IDLE), -5)
    else Outcome(s1, 0)
  }

  /** One call of xmodem_tx at time now. */
  function TxStep(c: Config, s: Snapshot, now: uint32): Outcome
    requires TxReady(c, s)
  {
    if !(c.hasIoRead && c.hasIoWrite && c.hasMemRead && c.hasBuffer) then Outcome(s, -1)
    else if s.state == IDLE then Outcome(s, -2)
    else if s.state == TX_START_WAIT then TxStartAsWritten(c, s, now)
    else if s.state == TX_DATA then TxData(c, s, now)
    else TxAck(c, s, now)
  }

  // ---------------------------------------------------------------------
  // Properties of the receiver.

  /** The complement test of xmodem_rx, `buf[1] + buf[2] == 255` on promoted
      ints, holds exactly when buf[2] is the bitwise complement of buf[1]. */
  lemma ComplementSum(b1: Byte, b2: Byte)
    ensures b1 as int + b2 as int == 255 <==> b2 == !b1
  {
  }

  /** SeqOk in the terms of the protocol: the frame carries the next packet
      number and its complement. */
  lemma SeqOkIff(s: Snapshot)
    requires |s.buf| == BUF_LEN
    ensures SeqOk(s) <==> s.buf[1] == s.pnum + 1 && s.buf[2] == !s.buf[1]
  {
    ComplementSum(s.buf[1], s.buf[2]);
  }

  /** A complete frame is answered by CAN, the end of the transfer and -6
      exactly when it fails the sequence test; such a frame changes nothing
      else. */
  lemma RxFrameSequence(c: Config, s: Snapshot, now: uint32)
    requires |s.buf| == BUF_LEN && ValidPlen(s.plen) && s.xferlen <= c.totallen
    ensures var o := RxFrame(c, s, now);
            (o.res == -6 <==> !SeqOk(s))
            && (!SeqOk(s) ==> o.after == s.(output := s.output + [CAN], state := IDLE))
  {
  }

  /** A frame that passes the sequence test but fails the trailer test is
      answered by NAK and waits for the resend: pnum, xferlen and the store
      are unchanged. */
  lemma RxFrameIntegrityFailure(c: Config, s: Snapshot, now: uint32)
    requires |s.buf| == BUF_LEN && ValidPlen(s.plen) && s.xferlen <= c.totallen
    requires SeqOk(s) && !TrailerOk(s.crccheck != 0, s.buf[3..3 + s.plen], s.buf[3 + s.plen..3 + s.plen + TrailerLen(s.crccheck != 0)])
    ensures RxFrame(c, s, now) == Outcome(s.(output := s.output + [NAK], state := RX_DATA_WAIT_HEAD), 0)
  {
    TrailerOkIffTrailer(s.crccheck != 0, s.buf[3..3 + s.plen], s.buf[3 + s.plen..3 + s.plen + TrailerLen(s.crccheck != 0)]);
  }

  /** Only a frame that passes both tests reaches the store, and then only
      its first RxWriteLen payload bytes, at addr + xferlen (RxWriteLen
      says how far that reaches). */
  lemma RxFrameWrites(c: Config, s: Snapshot, now: uint32)
    requires |s.buf| == BUF_LEN && ValidPlen(s.plen) && s.xferlen <= c.totallen
    ensures var o := RxFrame(c, s, now);
            o.after.store != s.store ==>
              SeqOk(s) && TrailerGood(s) && Add32(c.addr, s.xferlen) + RxWriteLen(c, s) <= |s.store| &&
              o.after.store == Splice(s.store, Add32(c.addr, s.xferlen), s.buf[3..3 + RxWriteLen(c, s)])
  {
    hide RxStore;
  }

  /** A good frame that arrives once totallen bytes are stored is answered
      by CAN and ends the transfer with 1, storing nothing (for totallen + plen
      below 2^32). */
  lemma RxFramePastTotal(c: Config, s: Snapshot, now: uint32)
    requires |s.buf| == BUF_LEN && ValidPlen(s.plen) && s.xferlen == c.totallen
    requires s.xferlen as int + s.plen as int < U32_LIMIT
    requires SeqOk(s) && TrailerGood(s)
    ensures var o := RxFrame(c, s, now);
            o.res == 1 && o.after.state == IDLE && o.after.output == s.output + [CAN]
            && o.after.store == s.store && o.after.pnum == s.buf[1]
  {
  }

  /** A header-wait poll that sees EOT ACKs it and ends with 1 when all
      totallen bytes were stored, -3 otherwise, unless the header timeout
      has also expired, in which case -4 or -5 replace that result. */
  lemma RxHeadEot(c: Config, s: Snapshot, now: uint32)
    requires |s.buf| == BUF_LEN && |s.input| > 0 && s.input[0] == EOT
    ensures var o := RxHead(c, s, now);
            && o.after.state == IDLE && o.after.output == s.output + [ACK]
            && o.after.xferlen == s.xferlen && o.after.store == s.store
            && o.res == (if !Elapsed(now, s.ms, c.ackTimeout) then (if s.xferlen >= c.totallen then 1 else -3)
                         else if s.startTimeout <= 1 then -4 else -5)
  {
  }

  /** A header-wait poll that sees CAN ends with -8, unless the header
      timeout has also expired. */
  lemma RxHeadCan(c: Config, s: Snapshot, now: uint32)
    requires |s.buf| == BUF_LEN && |s.input| > 0 && s.input[0] == CAN
    ensures var o := RxHead(c, s, now);
            && o.after.state == IDLE && o.after.output == s.output
            && o.res == (if !Elapsed(now, s.ms, c.ackTimeout) then -8 else if s.startTimeout <= 1 then -4 else -5)
  {
  }

  /** Header timeout without a header: with at most one start retry left the
      transfer ends with -4; otherwise a start-phase wait spends a retry and
      goes back to sending the start byte, and a data-phase wait ends with
      -5. Before the timeout nothing but the read happens. */
  lemma RxHeadTimeout(c: Config, s: Snapshot, now: uint32)
    requires |s.buf| == BUF_LEN && (s.state == RX_START_WAIT_HEAD || s.state == RX_DATA_WAIT_HEAD)
    requires |s.input| == 0 || s.input[0] !in {SOH, STX, EOT, CAN}
    ensures var o := RxHead(c, s, now);
            && o.after.output == s.output && o.after.xferlen == s.xferlen && o.after.pnum == s.pnum
            && (!Elapsed(now, s.ms, c.ackTimeout) ==>
                  o.res == 0 && o.after.state == s.state && o.after.startTimeout == s.startTimeout)
            && (Elapsed(now, s.ms, c.ackTimeout) && s.startTimeout <= 1 ==> o.res == -4 && o.after.state == IDLE)
            && (Elapsed(now, s.ms, c.ackTimeout) && s.startTimeout > 1 && s.state == RX_START_WAIT_HEAD ==>
                  o.res == 0 && o.after.state == RX_START_WAIT && o.after.startTimeout == s.startTimeout - 1)
            && (Elapsed(now, s.ms, c.ackTimeout) && s.startTimeout > 1 && s.state == RX_DATA_WAIT_HEAD ==>
                  o.res == -5 && o.after.state == IDLE)
  {
  }

  /** A frame header opens data-wait with the length it announces. */
  lemma RxHeadOpensFrame(c: Config, s: Snapshot, now: uint32)
    requires |s.buf| == BUF_LEN && |s.input| > 0 && (s.input[0] == SOH || s.input[0] == STX)
    ensures var o := RxHead(c, s, now);
            && o == Outcome(o.after, 0) && o.after.state == RX_DATA_WAIT && o.after.getlen == 1
            && o.after.plen == (if s.input[0] == SOH then 128 else 1024)
            && o.after.buf[0] == s.input[0] && o.after.input == s.input[1..] && o.after.ms == now
  {
  }

  /** A frame still incomplete when the packet timeout expires is fatal:
      NAK and -7. */
  lemma RxDataTimeout(c: Config, s: Snapshot, now: uint32)
    requires RxReady(c, s) && s.state == RX_DATA_WAIT
    requires s.getlen as nat + RxChunk(c, s) < FrameLen(s.plen, s.crccheck)
    requires Elapsed(now, s.ms, c.packetTimeout)
    ensures var o := RxData(c, s, now);
            o.res == -7 && o.after.state == IDLE && o.after.output == s.output + [NAK]
            && o.after.store == s.store
  {
  }

  lemma RxHeadKeepsReady(c: Config, s: Snapshot, now: uint32)
    requires RxReady(c, s) && (s.state == RX_START_WAIT_HEAD || s.state == RX_DATA_WAIT_HEAD)
    ensures RxReady(c, RxHead(c, s, now).after)
  {
  }

  lemma RxDataKeepsReady(c: Config, s: Snapshot, now: uint32)
    requires RxReady(c, s) && s.state == RX_DATA_WAIT
    ensures RxReady(c, RxData(c, s, now).after)
  {
  }

  /** Every receive poll keeps what the next one needs, in particular
      xferlen <= totallen. */
  lemma RxStepKeepsReady(c: Config, s: Snapshot, now: uint32)
    requires RxReady(c, s)
    ensures RxReady(c, RxStep(c, s, now).after)
  {
    if s.state == RX_DATA_WAIT {
      RxDataKeepsReady(c, s, now);
    } else if s.state == RX_START_WAIT_HEAD || s.state == RX_DATA_WAIT_HEAD {
      RxHeadKeepsReady(c, s, now);
    }
  }

  /** A header-wait poll reads at most one byte and its result agrees with
      the state it leaves. */
  lemma RxHeadSettles(c: Config, s: Snapshot, now: uint32)
    requires |s.buf| == BUF_LEN && s.state != IDLE
    ensures var o := RxHead(c, s, now); Consumes(s, o.after) && Settled(o)
  {
    var o := RxHeadByte(c, s, now);
    RxHeadByteSettles(c, s, now);
    var b0 := o.after.buf[0];
    if b0 != SOH && b0 != STX && Elapsed(now, s.ms, c.ackTimeout) {
      if o.after.startTimeout > 1 && o.after.state == RX_START_WAIT_HEAD {
        assert o.res == 0;
      }
    }
  }

  /** The header byte read takes at most one byte and sends at most an ACK;
      a nonzero result ends the transfer. */
  lemma RxHeadByteSettles(c: Config, s: Snapshot, now: uint32)
    requires |s.buf| == BUF_LEN && s.state != IDLE
    ensures var o := RxHeadByte(c, s, now); Consumes(s, o.after) && Settled(o)
  {
    if |s.input| > 0 {
      assert s.input[1..] == s.input[|s.input| - |s.input[1..]|..];
    }
  }

  /** Testing and storing a complete frame reads nothing, only appends its
      answer, and its result agrees with the state it leaves. */
  lemma RxFrameSettles(c: Config, s: Snapshot, now: uint32)
    requires |s.buf| == BUF_LEN && ValidPlen(s.plen) && s.xferlen <= c.totallen
    ensures var o := RxFrame(c, s, now); o.after.input == s.input && Consumes(s, o.after) && Settled(o)
  {
    if SeqOk(s) && TrailerGood(s) {
      var s2 := s.(pnum := s.buf[1], state := RX_DATA_WAIT_HEAD, ms := now);
      assert RxFrame(c, s, now) == RxStore(c, s, now);
      if Add32(s.xferlen, s.plen) >= c.totallen {
        assert RxStore(c, s, now) == RxStoreLast(c, s2);
      } else {
        assert RxStore(c, s, now) == RxStoreNext(c, s2);
      }
    }
  }

  /** A data-wait poll takes bytes from the front of the input and its
      result agrees with the state it leaves. */
  lemma RxDataSettles(c: Config, s: Snapshot, now: uint32)
    requires RxReady(c, s) && s.state == RX_DATA_WAIT
    ensures var o := RxData(c, s, now); Consumes(s, o.after) && Settled(o)
  {
    var s1 := RxCollect(c, s);
    assert Consumes(s, s1);
    if s1.getlen as nat >= FrameLen(s.plen, s.crccheck) {
      RxFrameSettles(c, s1, now);
    }
  }

  /** Every xmodem_rx poll only appends to the channel and only consumes
      input from its front; a result of 0 leaves a transfer running and
      every result but -1 and 0 leaves the receiver idle. */
  lemma RxStepSettles(c: Config, s: Snapshot, now: uint32)
    requires RxReady(c, s)
    ensures var o := RxStep(c, s, now); Consumes(s, o.after) && Settled(o)
  {
    if !(c.hasIoRead && c.hasIoWrite && c.hasMemWrite && c.hasBuffer) || s.state == IDLE {
    } else if s.state == RX_START_WAIT {
    } else if s.state == RX_DATA_WAIT {
      RxDataSettles(c, s, now);
    } else {
      RxHeadSettles(c, s, now);
    }
  }

  // ---------------------------------------------------------------------
  // Properties of the sender.

  /** The layout of a frame: STX for 1024-byte packets and SOH otherwise,
      the packet number and its complement, the data, CTRLZ up to plen, and
      the trailer of the padded payload; plen + 3 + (1 or 2) bytes. */
  lemma FrameLayout(plen: uint16, crccheck: uint8, pnum: Byte, data: seq<Byte>)
    requires |data| <= plen as nat
    ensures var f := Frame(plen, crccheck, pnum, data);
            && |f| == FrameLen(plen, crccheck)
            && f[0] == (if plen == 1024 then STX else SOH) && f[1] == pnum && f[2] == !pnum
            && f[3..3 + |data|] == data
            && (forall i :: 3 + |data| <= i < 3 + plen as nat ==> f[i] == CTRLZ)
            && f[3 + plen..] == Trailer(crccheck != 0, f[3..3 + plen])
  {
    var payload := data + Pad(plen as nat - |data|);
    var f := Frame(plen, crccheck, pnum, data);
    assert f[3..3 + plen] == payload;
    assert f[3..3 + |data|] == payload[..|data|];
  }

  /** A data-state poll sends the frame of the bytes mem_read returns, or,
      when it returns none, EOT and ends the transfer with 1. */
  lemma TxDataSends(c: Config, s: Snapshot, now: uint32)
    requires TxReady(c, s)
    ensures var o := TxData(c, s, now);
            var data := StoreRead(s.store, Add32(c.addr, s.xferlen), TxWant(c, s));
            && o.after.pnum == s.pnum && o.after.xferlen == s.xferlen
            && (|data| > 0 ==> o.res == 0 && o.after.state == TX_ACK_WAIT
                               && o.after.output == s.output + Frame(s.plen, s.crccheck, s.pnum, data))
            && (|data| == 0 ==> o.res == 1 && o.after.state == IDLE && o.after.output == s.output + [EOT])
  {
  }

  /** What an ack-wait poll does with the byte it reads. ACK advances pnum by
      one (mod 256) and xferlen by plen, or after the last packet clamps
      xferlen to totallen, sends EOT and ends with 1; NAK goes back to the
      data state with pnum and xferlen unchanged, so the same packet is
      sent again; CAN ends with -3. */
  lemma TxAckSequencing(c: Config, s: Snapshot, now: uint32)
    requires TxReady(c, s) && |s.input| > 0
    ensures var o := TxAck(c, s, now);
            var x := Add32(s.xferlen, s.plen);
            && (s.input[0] == ACK && x < c.totallen ==>
                  o.res == 0 && o.after.state == TX_DATA && o.after.pnum == s.pnum + 1
                  && o.after.xferlen == x && o.after.output == s.output)
            && (s.input[0] == ACK && x >= c.totallen ==>
                  o.res == 1 && o.after.state == IDLE && o.after.pnum == s.pnum + 1
                  && o.after.xferlen == c.totallen && o.after.output == s.output + [EOT])
            && (s.input[0] == NAK ==>
                  o.res == 0 && o.after.state == TX_DATA && o.after.pnum == s.pnum
                  && o.after.xferlen == s.xferlen && o.after.output == s.output)
            && (s.input[0] == CAN ==> o.res == -3 && o.after.state == IDLE)
  {
  }

  /** A NAK makes the next data poll send the same frame again. */
  lemma TxNakResendsSameFrame(c: Config, s: Snapshot, now1: uint32, now2: uint32)
    requires TxReady(c, s) && s.state == TX_DATA
    requires var d := TxData(c, s, now1); d.res == 0 && |d.after.input| > 0 && d.after.input[0] == NAK
    ensures var d := TxData(c, s, now1);
            var n := TxAck(c, d.after, now2);
            TxReady(c, n.after) && n.after.state == TX_DATA
            && TxData(c, n.after, now2).after.output[|n.after.output|..] == d.after.output[|s.output|..]
  {
    var d := TxData(c, s, now1);
    var n := TxAck(c, d.after, now2);
    var data := StoreRead(s.store, Add32(c.addr, s.xferlen), TxWant(c, s));
    assert n.after.store == s.store && n.after.xferlen == s.xferlen && n.after.pnum == s.pnum;
    assert n.after.plen == s.plen && n.after.crccheck == s.crccheck;
    var f := Frame(s.plen, s.crccheck, s.pnum, data);
    assert d.after.output[|s.output|..] == f;
    assert TxData(c, n.after, now2).after.output[|n.after.output|..] == f;
  }

  /** Start-wait as written: 'C' selects CRC mode and NAK checksum mode,
      CAN cancels; after any other byte each ack timeout spends one retry,
      and the last one ends the transfer with -4. */
  lemma TxStartHandshake(c: Config, s: Snapshot, now: uint32)
    requires TxReady(c, s)
    ensures var o := TxStartAsWritten(c, s, now);
            && (|s.input| > 0 && s.input[0] == CRC_REQUEST ==> o.res == 0 && o.after.state == TX_DATA && o.after.crccheck == 1)
            && (|s.input| > 0 && s.input[0] == NAK ==> o.res == 0 && o.after.state == TX_DATA && o.after.crccheck == 0)
            && (|s.input| > 0 && s.input[0] == CAN ==> o.res == -3 && o.after.state == IDLE)
            && (|s.input| > 0 && s.input[0] !in {CRC_REQUEST, NAK, CAN} && Elapsed(now, s.ms, c.ackTimeout) ==>
                  o.after.ms == now &&
                  (if s.startTimeout <= 1 then o.res == -4 && o.after.state == IDLE
                   else o.res == 0 && o.after.state == s.state && o.after.startTimeout == s.startTimeout - 1))
  {
  }

  /** When a byte arrives, the read overwrites buf[0], so the code and the
      corrected start-wait agree: the two differ only on polls that read
      nothing. */
  lemma TxStartAgreesOnInput(c: Config, s: Snapshot, now: uint32)
    requires |s.buf| == BUF_LEN && |s.input| > 0
    ensures TxStart(c, s, now) == TxStartAsWritten(c, s, now)
  {
    assert s.buf[0 := 0][0 := s.input[0]] == s.buf[0 := s.input[0]];
  }

  /** As xmodem_tx is written, a start-wait poll that reads nothing while
      buf[0] still holds CAN (left there, say, by an earlier transfer the
      receiver cancelled) changes nothing at any time: the start timeout
      never runs and the transfer never ends with -4. */
  lemma TxStartStaleCanNeverTimesOut(c: Config, s: Snapshot, now: uint32)
    requires |s.buf| == BUF_LEN && |s.input| == 0 && s.buf[0] == CAN
    ensures TxStartAsWritten(c, s, now) == Outcome(s, 0)
  {
    assert s.buf[0 := s.buf[0]] == s.buf;
  }

  /** With buf[0] cleared before the read, a poll that reads nothing after
      the ack timeout always spends a retry or, on the last one, ends the
      transfer with -4, whatever the buffer held. */
  lemma TxStartTimesOut(c: Config, s: Snapshot, now: uint32)
    requires |s.buf| == BUF_LEN && |s.input| == 0 && Elapsed(now, s.ms, c.ackTimeout)
    ensures var o := TxStart(c, s, now);
            && o.after.ms == now
            && (s.startTimeout <= 1 ==> o.res == -4 && o.after.state == IDLE)
            && (s.startTimeout > 1 ==> o.res == 0 && o.after.state == s.state && o.after.startTimeout == s.startTimeout - 1)
  {
  }

  /** Every send poll keeps what the next one needs, in particular
      xferlen <= totallen. */
  lemma TxStepKeepsReady(c: Config, s: Snapshot, now: uint32)
    requires TxReady(c, s)
    ensures TxReady(c, TxStep(c, s, now).after)
  {
  }

  /** A start-wait poll reads at most one byte, sends nothing, and its
      result agrees with the state it leaves. */
  lemma TxStartSettles(c: Config, s: Snapshot, now: uint32)
    requires |s.buf| == BUF_LEN && s.state != IDLE
    ensures var o := TxStartAsWritten(c, s, now); o.after.output == s.output && Consumes(s, o.after) && Settled(o)
  {
    var o := TxStartByte(c, s, now);
    assert Consumes(s, o.after);
  }

  /** A data poll reads nothing and sends a frame (result 0) or EOT
      (result 1). */
  lemma TxDataSettles(c: Config, s: Snapshot, now: uint32)
    requires TxReady(c, s)
    ensures var o := TxData(c, s, now); o.after.input == s.input && Consumes(s, o.after) && Settled(o)
  {
    TxDataCases(c, s, now);
  }

  /** An ack-wait poll reads at most one byte and its result agrees with
      the state it leaves. */
  lemma TxAckSettles(c: Config, s: Snapshot, now: uint32)
    requires |s.buf| == BUF_LEN && s.state != IDLE
    ensures var o := TxAck(c, s, now); Consumes(s, o.after) && Settled(o)
  {
    if |s.input| > 0 {
      assert s.input[1..] == s.input[|s.input| - |s.input[1..]|..];
      if s.input[0] == ACK {
        assert TxAck(c, s, now).res == 0 ==> TxAck(c, s, now).after.state == TX_DATA;
      }
    } else {
      assert TxAck(c, s, now).after.input == s.input;
    }
  }

  /** Every xmodem_tx poll only appends to the channel and only consumes
      input from its front; a result of 0 leaves a transfer running and
      every result but -1 and 0 leaves the sender idle. */
  lemma TxStepSettles(c: Config, s: Snapshot, now: uint32)
    requires TxReady(c, s)
    ensures var o := TxStep(c, s, now); Consumes(s, o.after) && Settled(o)
  {
    if !(c.hasIoRead && c.hasIoWrite && c.hasMemRead && c.hasBuffer) || s.state == IDLE {
    } else if s.state == TX_START_WAIT {
      TxStartSettles(c, s, now);
    } else if s.state == TX_DATA {
      TxDataSettles(c, s, now);
    } else {
      TxAckSettles(c, s, now);
    }
  }

  // ---------------------------------------------------------------------
  // Sender and receiver together.

  /** The parts of a frame the receiver tests. */
  lemma FrameParts(plen: uint16, crccheck: uint8, pnum: Byte, data: seq<Byte>)
    requires |data| <= plen as nat
    ensures var f := Frame(plen, crccheck, pnum, data);
            && |f| == FrameLen(plen, crccheck) && f[1] == pnum && f[2] == !pnum
            && f[3 + plen..] == Trailer(crccheck != 0, f[3..3 + plen])
  {
    var payload := data + Pad(plen as nat - |data|);
    assert Frame(plen, crccheck, pnum, data)[3..3 + plen] == payload;
  }

  /** The parts of a frame held at the front of a longer buffer. */
  lemma FramePrefix(b: seq<Byte>, f: seq<Byte>, plen: nat, tl: nat)
    requires |f| == plen + 3 + tl <= |b| && b[..|f|] == f
    ensures b[1] == f[1] && b[2] == f[2]
    ensures b[3..3 + plen] == f[3..3 + plen] && b[3 + plen..3 + plen + tl] == f[3 + plen..]
  {
    SliceOfPrefix(b, |f|, 3, 3 + plen);
    SliceOfPrefix(b, |f|, 3 + plen, |f|);
  }

  /** A slice of a prefix is the same slice of the whole. */
  lemma SliceOfPrefix(b: seq<Byte>, n: nat, i: nat, j: nat)
    requires i <= j <= n <= |b|
    ensures b[..n][i..j] == b[i..j]
  {
    forall k | 0 <= k < j - i
      ensures b[..n][i..j][k] == b[i..j][k]
    {
      assert b[..n][i + k] == b[i + k];
    }
  }

  /** A frame built by the sender for packet pnum, once it is in a receiver
      expecting that packet (same packet length and mode), passes both the
      sequence and the integrity tests, so the receiver stores it. */
  lemma FrameAccepted(c: Config, s: Snapshot, now: uint32, data: seq<Byte>)
    requires |s.buf| == BUF_LEN && ValidPlen(s.plen) && s.xferlen <= c.totallen
    requires |data| <= s.plen as nat
    requires s.buf[..FrameLen(s.plen, s.crccheck)] == Frame(s.plen, s.crccheck, s.pnum + 1, data)
    ensures SeqOk(s) && TrailerGood(s)
    ensures RxFrame(c, s, now) == RxStore(c, s, now)
  {
    var f := Frame(s.plen, s.crccheck, s.pnum + 1, data);
    FrameParts(s.plen, s.crccheck, s.pnum + 1, data);
    hide Frame, RxStore;
    FramePrefix(s.buf, f, s.plen as nat, TrailerLen(s.crccheck != 0));
    SeqOkIff(s);
  }

  /** A buffer whose front is the frame f, and whose other bytes are those
      of b0, is b0 with f spliced in. */
  lemma FrameInBuffer(b0: seq<Byte>, b: seq<Byte>, f: seq<Byte>, plen: nat)
    requires |b| == |b0| && |f| <= |b|
    requires b[..|f|] == f && b[|f|..] == b0[|f|..]
    ensures b == Splice(b0, 0, f)
  {
    assert b == b[..|f|] + b[|f|..];
  }

  /** Reading the payload after the header leaves the header in place. */
  lemma HeaderKept(s: Snapshot, data: seq<Byte>)
    requires |s.buf| == BUF_LEN && 3 + |data| <= BUF_LEN
    ensures HeaderOk(Splice(TxHeader(s), 3, data), s.plen, s.pnum)
  {
  }

  /** The sender's two steps on a buffer b0 holding a frame header and len
      data bytes: b1 is b0 with the data padded to plen, b2 is b1 with the
      trailer of the padded payload after it. */
  predicate FrameSteps(b0: seq<Byte>, b1: seq<Byte>, b2: seq<Byte>, plen: uint16, crccheck: uint8, pnum: Byte, len: nat)
  {
    && HeaderOk(b0, plen, pnum) && ValidPlen(plen) && 0 < len <= plen as nat
    && b1 == Splice(b0, 3, b0[3..3 + len] + Pad(plen as nat - len))
    && b2 == Splice(b1, 3 + plen as nat, Trailer(crccheck != 0, b1[3..3 + plen]))
  }

  /** After the two steps the buffer holds the frame at its front. */
  lemma FrameAssembly(b0: seq<Byte>, b1: seq<Byte>, b2: seq<Byte>, plen: uint16, crccheck: uint8, pnum: Byte, len: nat)
    requires FrameSteps(b0, b1, b2, plen, crccheck, pnum, len)
    ensures |b0| == BUF_LEN && len + 3 <= BUF_LEN
    ensures b2 == Splice(b0, 0, Frame(plen, crccheck, pnum, b0[3..3 + len]))
  {
    var fl := FrameLen(plen, crccheck);
    var payload := b0[3..3 + len] + Pad(plen as nat - len);
    var f := Frame(plen, crccheck, pnum, b0[3..3 + len]);
    assert b1[3..3 + plen] == payload;
    assert b0[..3] == [b0[0], b0[1], b0[2]];
    assert b2[..3] == b0[..3];
    assert b2[3..3 + plen] == payload;
    assert b2[..fl] == b2[..3] + b2[3..3 + plen] + b2[3 + plen..fl];
    FrameInBuffer(b0, b2, f, plen as nat);
  }

  // ---------------------------------------------------------------------
  // The engine: s_state_st, the updated configuration fields, the packet
  // buffer and the environment, changed in place by each poll.

  class Engine {
    /** The fixed part of the bound configuration. */
    const cfg: Config
    /** The packet buffer the configuration points at. */
    const buf: array<Byte>

    var state: uint8
    var getlen: uint32
    var pnum: Byte
    var ms: uint32
    var xferlen: uint32
    var plen: uint16
    var crccheck: uint8
    var startTimeout: uint32
    /** Bytes the peer has sent that io_read has not returned yet. */
    var input: seq<Byte>
    /** Bytes io_write has sent, oldest first. */
    var output: seq<Byte>
    /** The memory image behind mem_read and mem_write. */
    var store: seq<Byte>

    function Current(): Snapshot
      reads this, buf
    {
      Snapshot(state, getlen, pnum, ms, xferlen, plen, crccheck, startTimeout, buf[..], input, output, store)
    }

    /** A configuration bound with its settings: the engine is idle
        (s_state_st starts zeroed) and nothing has been exchanged. */
    constructor (c: Config, plen0: uint16, crccheck0: uint8, startTimeout0: uint32, input0: seq<Byte>, store0: seq<Byte>)
      ensures cfg == c && fresh(buf)
      ensures Current() == Snapshot(IDLE, 0, 0, 0, 0, plen0, crccheck0, startTimeout0,
                                    seq(BUF_LEN, _ => 0), input0, [], store0)
    {
      cfg := c;
      buf := new Byte[BUF_LEN](_ => 0);
      state, getlen, pnum, ms, xferlen := IDLE, 0, 0, 0, 0;
      plen, crccheck, startTimeout := plen0, crccheck0, startTimeout0;
      input, output, store := input0, [], store0;
    }

    /** io_read_flush, when bound: pending input is dropped. */
    method Flush()
      modifies this
      ensures Current() == old(Current()).(input := if cfg.hasReadFlush then [] else old(input))
    {
      if cfg.hasReadFlush {
        input := [];
      }
    }

    /** xmodem_init_rx: start-wait, no bytes collected, last packet 0. */
    method InitRx()
      requires buf.Length == BUF_LEN
      modifies this
      ensures Current() == old(Current()).(state := RX_START_WAIT, getlen := 0, pnum := 0,
                                           input := if cfg.hasReadFlush then [] else old(input))
      ensures RxReady(cfg, Current())
    {
      state, getlen, pnum := RX_START_WAIT, 0, 0;
      Flush();
    }

    /** xmodem_init_tx: start-wait, packet 1 next, nothing sent yet, the
        start timer running from now. */
    method InitTx(now: uint32)
      requires buf.Length == BUF_LEN
      modifies this
      ensures Current() == old(Current()).(state := TX_START_WAIT, getlen := 0, pnum := 1, ms := now, xferlen := 0,
                                           input := if cfg.hasReadFlush then [] else old(input))
      ensures ValidPlen(plen) ==> TxReady(cfg, Current())
    {
      state, getlen, pnum := TX_START_WAIT, 0, 1;
      ms := now;
      xferlen := 0;
      Flush();
    }

    /** Copies src into buf from index off on. */
    method Place(src: seq<Byte>, off: nat)
      requires off + |src| <= buf.Length
      modifies buf
      ensures buf[..] == Splice(old(buf[..]), off, src)
    {
      var i := 0;
      while i < |src|
        invariant 0 <= i <= |src|
        invariant forall k :: 0 <= k < i ==> buf[off + k] == src[k]
        invariant forall k :: 0 <= k < buf.Length && !(off <= k < off + i) ==> buf[k] == old(buf[k])
      {
        buf[off + i] := src[i];
        i := i + 1;
      }
      forall k | 0 <= k < buf.Length
        ensures buf[k] == Splice(old(buf[..]), off, src)[k]
      {
        SpliceAt(old(buf[..]), off, src, k);
      }
      assert buf[..] == Splice(old(buf[..]), off, src);
    }

    /** io_read(buf + off, n): what the channel holds, at most n bytes. */
    method ReadInto(off: nat, n: nat) returns (k: nat)
      requires off + n <= buf.Length
      modifies this, buf
      ensures k == Avail(old(input), n)
      ensures Current() == old(Current()).(buf := Splice(old(buf[..]), off, old(input)[..k]), input := old(input)[k..])
    {
      k := Avail(input, n);
      Place(input[..k], off);
      input := input[k..];
    }

    /** io_read(buf, 1): true when a byte arrived, which is then in buf[0]. */
    method ReadByte() returns (got: bool)
      requires buf.Length == BUF_LEN
      modifies this, buf
      ensures got == (|old(input)| > 0)
      ensures Current() == old(Current()).(buf := if got then old(buf[..])[0 := old(input)[0]] else old(buf[..]),
                                           input := if got then old(input)[1..] else old(input))
    {
      got := |input| > 0;
      if got {
        buf[0] := input[0];
        input := input[1..];
      }
    }

    /** mem_read(a, buf + off, n). */
    method MemRead(a: nat, off: nat, n: nat) returns (k: nat)
      requires off + n <= buf.Length
      modifies buf
      ensures k == |StoreRead(store, a, n)|
      ensures buf[..] == Splice(old(buf[..]), off, StoreRead(store, a, n))
    {
      var data := StoreRead(store, a, n);
      Place(data, off);
      k := |data|;
    }

    /** mem_write(a, buf + off, n). */
    method MemWrite(a: nat, off: nat, n: nat) returns (w: nat)
      requires off + n <= buf.Length
      modifies this
      ensures (store, w) == StoreWrite(old(store), a, buf[off..off + n])
      ensures Current() == old(Current()).(store := store)
    {
      var r := StoreWrite(store, a, buf[off..off + n]);
      store, w := r.0, r.1;
    }
  
    // -------------------------------------------------------------------
    // xmodem_rx

    /** Start-wait of the receiver. */
    method RxStartPoll(now: uint32) returns (res: int)
      modifies this
      ensures var o := RxStart(cfg, old(Current()), now); Current() == o.after && res == o.res
    {
      var tmp := if crccheck != 0 then CRC_REQUEST else NAK;
      output := output + [tmp];
      ms := now;
      state := RX_START_WAIT_HEAD;
      xferlen := 0;
      res := 0;
    }

    /** Header-wait of the receiver, the byte read. */
    method RxHeadBytePoll(now: uint32) returns (res: int)
      requires buf.Length == BUF_LEN
      modifies this, buf
      ensures var o := RxHeadByte(cfg, old(Current()), now); Current() == o.after && res == o.res
    {
      res := 0;
      buf[0] := 0;
      var got := ReadByte();
      if got {
        var b0 := buf[0];
        if b0 == SOH || b0 == STX {
          plen := if b0 == SOH then 128 else 1024;
          ms := now;
          state := RX_DATA_WAIT;
          getlen := 1;
        }
        if b0 == EOT {
          output := output + [ACK];
          state := IDLE;
          res := if xferlen >= cfg.totallen then 1 else -3;
        }
        if b0 == CAN {
          state := IDLE;
          res := -8;
        }
      }
    }

    /** Header-wait of the receiver, before the first packet or between two. */
    method RxHeadPoll(now: uint32) returns (res: int)
      requires buf.Length == BUF_LEN
      modifies this, buf
      ensures var o := RxHead(cfg, old(Current()), now); Current() == o.after && res == o.res
    {
      var t0 := ms;
      res := RxHeadBytePoll(now);
      if buf[0] != SOH && buf[0] != STX {
        if Elapsed(now, t0, cfg.ackTimeout) {
          if startTimeout <= 1 {
            state := IDLE;
            res := -4;
          } else if state == RX_START_WAIT_HEAD {
            startTimeout := startTimeout - 1;
            state := RX_START_WAIT;
          } else {
            state := IDLE;
            res := -5;
          }
        }
      }
    }

    /** A frame that passed both tests: record it and store its payload. */
    method RxStorePoll(now: uint32) returns (res: int)
      requires buf.Length == BUF_LEN && ValidPlen(plen) && xferlen <= cfg.totallen
      modifies this
      ensures var o := RxStore(cfg, old(Current()), now); Current() == o.after && res == o.res
    {
      pnum := buf[1];
      state := RX_DATA_WAIT_HEAD;
      ms := now;
      if Add32(xferlen, plen) >= cfg.totallen {
        res := RxStoreLastPoll();
      } else {
        res := RxStoreNextPoll();
      }
    }

    method RxStoreLastPoll() returns (res: int)
      requires buf.Length == BUF_LEN && ValidPlen(plen) && xferlen <= cfg.totallen
      requires Add32(xferlen, plen) >= cfg.totallen
      modifies this
      ensures var o := RxStoreLast(cfg, old(Current())); Current() == o.after && res == o.res
    {
      if xferlen >= cfg.totallen {
        output := output + [CAN];
        state := IDLE;
        res := 1;
      } else {
        output := output + [ACK];
        var _ := MemWrite(Add32(cfg.addr, xferlen), 3, cfg.totallen - xferlen);
        xferlen := cfg.totallen;
        res := 0;
      }
    }

    method RxStoreNextPoll() returns (res: int)
      requires buf.Length == BUF_LEN && ValidPlen(plen) && xferlen <= cfg.totallen
      modifies this
      ensures var o := RxStoreNext(cfg, old(Current())); Current() == o.after && res == o.res
    {
      output := output + [ACK];
      var w := MemWrite(Add32(cfg.addr, xferlen), 3, plen as nat);
      if w == 0 {
        output := output + [CAN];
        state := IDLE;
        res := -9;
      } else {
        xferlen := Add32(xferlen, plen);
        res := 0;
      }
    }

    /** A complete frame in buf: sequence test, integrity test, store. */
    method RxFramePoll(now: uint32) returns (res: int)
      requires buf.Length == BUF_LEN && ValidPlen(plen) && xferlen <= cfg.totallen
      modifies this
      ensures var o := RxFrame(cfg, old(Current()), now); Current() == o.after && res == o.res
    {
      if !NumberOk(pnum, buf[1], buf[2]) {
        output := output + [CAN];
        state := IDLE;
        res := -6;
      } else {
        var chk := Check(crccheck, buf, 3, plen as nat);
        if chk == 0 {
          res := RxStorePoll(now);
        } else {
          output := output + [NAK];
          state := RX_DATA_WAIT_HEAD;
          res := 0;
        }
      }
    }

    /** Data-wait of the receiver, the read: with io_getrxlen bound, only
        once the rest of the frame has arrived. */
    method RxCollectPoll()
      requires RxReady(cfg, Current()) && state == RX_DATA_WAIT
      modifies this, buf
      ensures Current() == RxCollect(cfg, old(Current()))
    {
      var need := FrameLen(plen, crccheck) - getlen as nat;
      var k := 0;
      if cfg.hasRxLen {
        if |input| >= need {
          k := ReadInto(getlen as nat, need);
        }
      } else {
        k := ReadInto(getlen as nat, need);
      }
      getlen := getlen + k;
    }

    /** Data-wait of the receiver: collect the frame, then test it. */
    method RxDataPoll(now: uint32) returns (res: int)
      requires RxReady(cfg, Current()) && state == RX_DATA_WAIT
      modifies this, buf
      ensures var o := RxData(cfg, old(Current()), now); Current() == o.after && res == o.res
    {
      ghost var s0 := Current();
      RxCollectPoll();
      if getlen as nat >= FrameLen(plen, crccheck) {
        res := RxFramePoll(now);
      } else if Elapsed(now, ms, cfg.packetTimeout) {
        output := output + [NAK];
        state := IDLE;
        res := -7;
      } else {
        res := 0;
      }
    }

    /** xmodem_rx: one poll of the receiver at time now. */
    method Rx(now: uint32) returns (res: int)
      requires RxReady(cfg, Current())
      modifies this, buf
      ensures var o := RxStep(cfg, old(Current()), now); Current() == o.after && res == o.res
      ensures RxReady(cfg, Current())
    {
      RxStepKeepsReady(cfg, Current(), now);
      if !(cfg.hasIoRead && cfg.hasIoWrite && cfg.hasMemWrite && cfg.hasBuffer) {
        return -1;
      }
      if state == IDLE {
        res := -2;
      } else if state == RX_START_WAIT {
        res := RxStartPoll(now);
      } else if state == RX_DATA_WAIT {
        res := RxDataPoll(now);
      } else {
        res := RxHeadPoll(now);
      }
    }
  
    // -------------------------------------------------------------------
    // xmodem_tx

    /** Start-wait of the sender, the byte read. */
    method TxStartBytePoll(now: uint32) returns (res: int)
      requires buf.Length == BUF_LEN
      modifies this, buf
      ensures var o := TxStartByte(cfg, old(Current()), now); Current() == o.after && res == o.res
    {
      res := 0;
      var got := ReadByte();
      if got {
        var b0 := buf[0];
        if b0 == CRC_REQUEST || b0 == NAK {
          crccheck := if b0 == CRC_REQUEST then 1 else 0;
          ms := now;
          state := TX_DATA;
        }
        if b0 == CAN {
          state := IDLE;
          res := -3;
        }
      }
    }

    /** Start-wait of the sender: wait for 'C' or NAK, within start_timeout
        expiries of the ack timeout. */
    method TxStartPoll(now: uint32) returns (res: int)
      requires buf.Length == BUF_LEN
      modifies this, buf
      ensures var o := TxStartAsWritten(cfg, old(Current()), now); Current() == o.after && res == o.res
    {
      var t0 := ms;
      res := TxStartBytePoll(now);
      if buf[0] != CRC_REQUEST && buf[0] != NAK && buf[0] != CAN {
        if Elapsed(now, t0, cfg.ackTimeout) {
          if startTimeout <= 1 {
            state := IDLE;
            res := -4;
          } else {
            startTimeout := startTimeout - 1;
          }
          ms := now;
        }
      }
    }

    /** The payload of a frame: the len bytes read, then CTRLZ up to plen. */
    method PadPayload(len: nat)
      requires buf.Length == BUF_LEN && ValidPlen(plen) && 0 < len <= plen as nat
      modifies buf
      ensures buf[..] == Splice(old(buf[..]), 3, old(buf[3..3 + len]) + Pad(plen as nat - len))
    {
      ghost var p := old(buf[3..3 + len]) + Pad(plen as nat - len);
      ghost var r := Splice(old(buf[..]), 3, p);
      if len < plen as nat && len > 0 {
        Memset(buf, 3 + len, CTRLZ as int, plen as nat - len);
      }
      assert ToByte(CTRLZ as int) == CTRLZ;
      forall k | 0 <= k < buf.Length
        ensures buf[k] == r[k]
      {
        SpliceAt(old(buf[..]), 3, p, k);
        if 3 <= k < 3 + plen as nat {
          if k < 3 + len {
            assert p[k - 3] == old(buf[3..3 + len])[k - 3];
          } else {
            assert p[k - 3] == CTRLZ;
          }
        }
      }
      assert buf[..] == r;
    }

    /** xmodem_check_cal on the payload in buf: the trailer follows it. */
    method AppendTrailer()
      requires buf.Length == BUF_LEN && ValidPlen(plen)
      modifies buf
      ensures buf[..] == Splice(old(buf[..]), 3 + plen as nat, Trailer(crccheck != 0, old(buf[3..3 + plen])))
    {
      ghost var b1 := buf[..];
      ghost var at := 3 + plen as nat;
      ghost var t := Trailer(crccheck != 0, buf[3..at]);
      var _ := CheckCal(crccheck, buf, 3, plen as nat);
      assert buf[..] == buf[..at] + buf[at..at + |t|] + buf[at + |t|..];
    }

    /** Completes in buf the frame whose header and len data bytes are
        there: pads the data to plen and appends the trailer. */
    method BuildFrame(len: nat)
      requires buf.Length == BUF_LEN && ValidPlen(plen) && 0 < len <= plen as nat
      requires HeaderOk(buf[..], plen, pnum)
      modifies buf
      ensures buf[..] == Splice(old(buf[..]), 0, Frame(plen, crccheck, pnum, old(buf[3..3 + len])))
    {
      ghost var b0 := buf[..];
      PadPayload(len);
      ghost var b1 := buf[..];
      AppendTrailer();
      FrameAssembly(b0, b1, buf[..], plen, crccheck, pnum, len);
    }

    /** Sends the frame whose header and data are in buf. */
    method TxSendPoll(len: nat, now: uint32) returns (res: int)
      requires TxReady(cfg, Current()) && 0 < len <= plen as nat
      requires HeaderOk(buf[..], plen, pnum)
      modifies this, buf
      ensures var o := TxSend(cfg, old(Current()), old(buf[3..3 + len]), now); Current() == o.after && res == o.res
    {
      BuildFrame(len);
      var flen := FrameLen(plen, crccheck);
      output := output + buf[..flen];
      state := TX_ACK_WAIT;
      ms := now;
      res := 0;
    }

    /** The frame header: STX or SOH, pnum and its complement. */
    method WriteHeader()
      requires buf.Length == BUF_LEN
      modifies buf
      ensures buf[..] == TxHeader(old(Current()))
    {
      buf[0] := if plen == 1024 then STX else SOH;
      buf[1] := pnum;
      buf[2] := !buf[1];
    }

    /** Data state of the sender: build and send the frame of the next
        packet, or EOT when mem_read returns no bytes. */
    method TxDataPoll(now: uint32) returns (res: int)
      requires TxReady(cfg, Current())
      modifies this, buf
      ensures var o := TxData(cfg, old(Current()), now); Current() == o.after && res == o.res
    {
      hide TxData, TxSend, Frame, Trailer, Pad;
      ghost var s0 := Current();
      ghost var data := StoreRead(store, Add32(cfg.addr, xferlen), TxWant(cfg, s0));
      TxDataCases(cfg, s0, now);
      WriteHeader();
      var want := if Add32(xferlen, plen) >= cfg.totallen then cfg.totallen - xferlen as nat else plen as nat;
      var len := MemRead(Add32(cfg.addr, xferlen), 3, want);
      assert buf[..] == Splice(TxHeader(s0), 3, data);
      if len > 0 {
        HeaderKept(s0, data);
        res := TxSendPoll(len, now);
      } else {
        output := output + [EOT];
        state := IDLE;
        res := 1;
      }
    }

    /** Ack-wait of the sender: ACK moves to the next packet or ends the
        transfer, NAK resends, CAN or the ack timeout end it. */
    method TxAckPoll(now: uint32) returns (res: int)
      requires buf.Length == BUF_LEN
      modifies this, buf
      ensures var o := TxAck(cfg, old(Current()), now); Current() == o.after && res == o.res
    {
      res := 0;
      var t0 := ms;
      var got := ReadByte();
      if got {
        var b0 := buf[0];
        if b0 == ACK {
          var x := Add32(xferlen, plen);
          if x >= cfg.totallen {
            state := IDLE;
            pnum := pnum + 1;
            xferlen := cfg.totallen;
            output := output + [EOT];
            res := 1;
          } else {
            state := TX_DATA;
            pnum := pnum + 1;
            xferlen := x;
          }
        }
        if b0 == NAK {
          state := TX_DATA;
        }
        if b0 == CAN {
          state := IDLE;
          res := -3;
        }
      }
      if buf[0] != ACK && buf[0] != NAK && buf[0] != CAN {
        if Elapsed(now, t0, cfg.ackTimeout) {
          state := IDLE;
          res := -5;
        }
      }
    }

    /** xmodem_tx: one poll of the sender at time now. */
    method Tx(now: uint32) returns (res: int)
      requires TxReady(cfg, Current())
      modifies this, buf
      ensures var o := TxStep(cfg, old(Current()), now); Current() == o.after && res == o.res
      ensures TxReady(cfg, Current())
    {
      TxStepKeepsReady(cfg, Current(), now);
      if !(cfg.hasIoRead && cfg.hasIoWrite && cfg.hasMemRead && cfg.hasBuffer) {
        return -1;
      }
      if state == IDLE {
        res := -2;
      } else if state == TX_START_WAIT {
        res := TxStartPoll(now);
      } else if state == TX_DATA {
        res := TxDataPoll(now);
      } else {
        res := TxAckPoll(now);
      }
    }
  }
}
