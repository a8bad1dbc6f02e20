/**
 * The command sequencer as a pure function of the step counter and the two
 * banks: which request each step issues, how it edits the read-write bank, and
 * which step comes next. The driver's `SendNext` is proved to follow it.
 */
module Sequencer {
  import opened Bytes
  import opened BitFields
  import opened MemoryMap
  import opened Packet

  /** A request to the chip: read `count` words into `dest`, or write one word. */
  datatype Request =
    | ReadReq(address: bv16, count: nat, dest: Dest)
    | WriteReq(address: bv16, value: bv32)

  /** The frame a request puts on the wire. */
  function RequestFrame(r: Request): (f: seq<bv8>)
    ensures |f| == PACKET_SIZE
  {
    match r
    case ReadReq(a, n, _) => ReadFrame(a, n)
    case WriteReq(a, v) => WriteFrame(a, v)
  }

  /** Every request goes out as a checked frame carrying its kind and its address. */
  lemma RequestFrameFields(r: Request)
    ensures var f := RequestFrame(r);
      && Checked(f)
      && Decode(f).ctrl == (if r.ReadReq? then CTRL_READ else CTRL_WRITE)
      && PacketAddress(Decode(f)) == r.address & 0x0FFF
  {
    match r
    case ReadReq(a, n, _) => ReadFrameFields(a, n);
    case WriteReq(a, v) => WriteFrameFields(a, v);
  }

  /** The bytes a run of requests puts on the wire, one frame after the other. */
  function Wire(log: seq<Request>): (bs: seq<bv8>)
    ensures |bs| == PACKET_SIZE * |log|
  {
    if log == [] then [] else Wire(log[..|log| - 1]) + RequestFrame(log[|log| - 1])
  }

  lemma WireSnoc(log: seq<Request>, r: Request)
    ensures Wire(log + [r]) == Wire(log) + RequestFrame(r)
  {
    assert (log + [r])[..|log|] == log;
  }

  /** Request i of the log occupies bytes 8i to 8i+7 of the wire. */
  lemma {:induction false} WireAt(log: seq<Request>, i: nat)
    requires i < |log|
    ensures Wire(log)[PACKET_SIZE * i .. PACKET_SIZE * i + PACKET_SIZE] == RequestFrame(log[i])
  {
    if i < |log| - 1 {
      var init := log[..|log| - 1];
      WireAt(init, i);
      assert init[i] == log[i];
      WireKeepsFront(log, i);
    } else {
      WireEndsWithLast(log);
    }
  }

  /** The frames before the last request are those of the shorter log. */
  lemma WireKeepsFront(log: seq<Request>, i: nat)
    requires i < |log| - 1
    ensures Wire(log)[PACKET_SIZE * i .. PACKET_SIZE * i + PACKET_SIZE]
         == Wire(log[..|log| - 1])[PACKET_SIZE * i .. PACKET_SIZE * i + PACKET_SIZE]
  {
    var head := Wire(log[..|log| - 1]);
    var last := RequestFrame(log[|log| - 1]);
    assert Wire(log) == head + last;
    assert |head| == 8 * (|log| - 1);
    SliceOfFront(head, last, 8 * i, 8 * i + 8);
  }

  /** The last frame of the wire is the last request's. */
  lemma WireEndsWithLast(log: seq<Request>)
    requires |log| > 0
    ensures Wire(log)[PACKET_SIZE * (|log| - 1) .. PACKET_SIZE * (|log| - 1) + PACKET_SIZE]
         == RequestFrame(log[|log| - 1])
  {
    var n := |log| - 1;
    var init := log[..n];
    var head := Wire(init);
    var last := RequestFrame(log[n]);
    assert Wire(log) == head + last;
    assert |init| == n;
    SliceOfBack(head, last);
  }

  /** The length of the response frame that completes a request: the echo, a 3-byte header, the words, the checksum. */
  function ExpectedLen(r: Request): nat
  {
    match r
    case ReadReq(_, n, _) => PACKET_SIZE + 4 + 4 * n
    case WriteReq(_, _) => PACKET_SIZE + 4
  }

  /** What `start` issues: the status word into the first read-only slot. */
  const START_REQUEST: Request := ReadReq(SYS_STS, 1, Dest(RO, 0))

  /** The calibration words written by steps 7 to 18, in the order the steps write them. */
  const CALIBRATION_WRITES: seq<bv16> := [UADCC, IAADCC, PAC, PADCC, QAC, QADCC, PHC, IAC, IADCC, UC, UDCC, BPFPARA]

  /** The value that makes the read-write bank, with it in the CKSUM slot, sum to 0xFFFFFFFF. */
  function ChecksumWord(rw: seq<bv32>): (ck: bv32)
    requires |rw| == RW_LEN
    ensures Add32(Accumulate(rw[..CKSUM_SLOT]), ck) == 0xFFFF_FFFF
  {
    0xFFFF_FFFF - Accumulate(rw[..CKSUM_SLOT])
  }

  /** Storing the checksum word makes the 23 read-write words sum to 0xFFFFFFFF modulo 2^32. */
  lemma ChecksumBalances(rw: seq<bv32>)
    requires |rw| == RW_LEN
    ensures Accumulate(rw[CKSUM_SLOT := ChecksumWord(rw)]) == 0xFFFF_FFFF
  {
    var s := rw[CKSUM_SLOT := ChecksumWord(rw)];
    assert s[..|s| - 1] == rw[..CKSUM_SLOT];
  }

  /** What one call of `send_next` does: the request, the read-write bank afterwards, the new step. */
  datatype Command = Command(request: Request, rw: seq<bv32>, next: nat)

  /** The step counter after `send_next`: one more, except that past step 20 it falls back to 20. */
  function NextStep(step: nat): nat
  {
    if step <= 20 then step + 1 else 20
  }

  /** `after` keeps every word of `before` from slot `from` on, except the slots in `except`. */
  predicate KeepsWords(before: seq<bv32>, after: seq<bv32>, from: nat, except: set<nat>)
  {
    |after| == |before| && forall i | from <= i < |before| && i !in except :: after[i] == before[i]
  }

  /** Cases 0 to 3: read SysCtrl, write AnaCtrl0, set CSEL to 1 in AnaCtrl1, power up both ADCs. */
  function ConfigureCommand(step: nat, rw: seq<bv32>): (c: Command)
    requires step <= 3 && |rw| == RW_LEN
    ensures |c.rw| == RW_LEN && c.next == NextStep(step)
    ensures c.request.ReadReq? <==> step == 0
    ensures KeepsWords(rw, c.rw, ANA_CTRL1_SLOT + 1, {})
  {
    if step == 0 then
      Command(ReadReq(SYS_CTRL, 1, Dest(RW, SYS_CTRL_SLOT)), rw, 1)
    else if step == 1 then
      Command(WriteReq(ANA_CTRL0, rw[ANA_CTRL0_SLOT]), rw, 2)
    else if step == 2 then
      var ana1 := Set(rw[ANA_CTRL1_SLOT], CSEL, 1);
      Command(WriteReq(ANA_CTRL1, ana1), rw[ANA_CTRL1_SLOT := ana1], 3)
    else
      var sys := Set(Set(rw[SYS_CTRL_SLOT], ADCUPDN, 1), ADCIAPDN, 1);
      Command(WriteReq(SYS_CTRL, sys), rw[SYS_CTRL_SLOT := sys], 4)
  }

  /**
   * Cases 4 to 6, the DC-offset calibration: short both inputs, read the whole
   * read-only bank, take the measured offsets as calibration words and release
   * the short.
   */
  function OffsetCommand(step: nat, rw: seq<bv32>, ro: seq<bv32>): (c: Command)
    requires 4 <= step <= 6 && |rw| == RW_LEN && |ro| == RO_LEN
    ensures |c.rw| == RW_LEN && c.next == NextStep(step)
    ensures c.request.ReadReq? <==> step == 5
    ensures KeepsWords(rw, c.rw, ANA_CTRL1_SLOT + 1, {UADCC_SLOT, IAADCC_SLOT})
  {
    if step == 4 then
      var sys := Set(Set(rw[SYS_CTRL_SLOT], SHORTU, 1), SHORTI, 1);
      Command(WriteReq(SYS_CTRL, sys), rw[SYS_CTRL_SLOT := sys], 5)
    else if step == 5 then
      Command(ReadReq(RO_START, RO_LEN, Dest(RO, 0)), rw, 6)
    else
      var sys := Set(Set(rw[SYS_CTRL_SLOT], SHORTU, 0), SHORTI, 0);
      var rw' := rw[UADCC_SLOT := ro[UDCINST_SLOT]][IAADCC_SLOT := ro[IADCINST_SLOT]][SYS_CTRL_SLOT := sys];
      Command(WriteReq(SYS_CTRL, sys), rw', 7)
  }

  /** Cases 7 to 18: write one calibration word, from its slot, in the order of `CALIBRATION_WRITES`. */
  function CalibrationCommand(step: nat, rw: seq<bv32>): (c: Command)
    requires 7 <= step <= 18 && |rw| == RW_LEN
    ensures c.rw == rw && c.next == NextStep(step)
    ensures c.request.WriteReq? && c.request.address in CALIBRATION
  {
    CalibrationSlotsFit();
    assert CALIBRATION_WRITES[step - 7] in CALIBRATION;
    var address := CALIBRATION_WRITES[step - 7];
    Command(WriteReq(address, rw[CalibrationSlot(address)]), rw, step + 1)
  }

  /** Case 19 and the polling: seal the bank with its checksum, then alternate the T8BAUD read and the bulk read. */
  function PollCommand(step: nat, rw: seq<bv32>): (c: Command)
    requires 19 <= step && |rw| == RW_LEN
    ensures |c.rw| == RW_LEN && c.next == NextStep(step)
    ensures c.request.WriteReq? <==> step == 19
    ensures step > 19 ==> c.rw == rw && c.request.dest.bank == RO
  {
    if step == 19 then
      var ck := ChecksumWord(rw);
      Command(WriteReq(CKSUM, ck), rw[CKSUM_SLOT := ck], 20)
    else if step == 20 then
      Command(ReadReq(T8BAUD, 1, Dest(RO, T8BAUD_SLOT)), rw, 21)
    else
      Command(ReadReq(RO_START, RO_LEN - 1, Dest(RO, 0)), rw, 20)
  }

  /**
   * The `switch (step++)` of `send_next`. Every read it issues fits its bank and
   * its response fits the receive buffer well before the wrap-around point.
   */
  function NextCommand(step: nat, rw: seq<bv32>, ro: seq<bv32>): (c: Command)
    requires |rw| == RW_LEN && |ro| == RO_LEN
    ensures |c.rw| == RW_LEN
    ensures c.next == NextStep(step)
    ensures c.request.ReadReq? ==> FitsBank(c.request.dest, c.request.count)
    ensures ExpectedLen(c.request) <= 100 < BUFFER_SIZE
  {
    if step <= 3 then ConfigureCommand(step, rw)
    else if step <= 6 then OffsetCommand(step, rw, ro)
    else if step <= 18 then CalibrationCommand(step, rw)
    else PollCommand(step, rw)
  }

  /** The kind and the address of a request: the part of it that does not depend on the banks. */
  datatype Target = Target(read: bool, address: bv16)

  function TargetOf(r: Request): Target
  {
    Target(r.ReadReq?, r.address)
  }

  /** The bring-up order, steps 0 to 19: reads and writes of the control words, the DC-offset calibration, the calibration words, the checksum. */
  const BRING_UP: seq<Target> := [
    Target(true, 0x0180),
    Target(false, 0x0182), Target(false, 0x0183), Target(false, 0x0180), Target(false, 0x0180),
    Target(true, 0x00CA),
    Target(false, 0x0180),
    Target(false, 0x0106), Target(false, 0x0104), Target(false, 0x00F6), Target(false, 0x00F8),
    Target(false, 0x00F9), Target(false, 0x00FB), Target(false, 0x00F7), Target(false, 0x00FD),
    Target(false, 0x00FE), Target(false, 0x00FF), Target(false, 0x0108), Target(false, 0x0107),
    Target(false, 0x0109)]

  /** Whatever the banks hold, steps 0 to 19 issue the bring-up order. */
  lemma BringUpOrder(step: nat, rw: seq<bv32>, ro: seq<bv32>)
    requires |rw| == RW_LEN && |ro| == RO_LEN
    requires step < |BRING_UP|
    ensures TargetOf(NextCommand(step, rw, ro).request) == BRING_UP[step]
  {
  }

  /** From step 20 on only reads into the read-only bank are issued, and the read-write bank is left alone. */
  lemma SteadyStateReadsOnly(step: nat, rw: seq<bv32>, ro: seq<bv32>)
    requires |rw| == RW_LEN && |ro| == RO_LEN
    requires step >= 20
    ensures var c := NextCommand(step, rw, ro);
      && c.request.ReadReq? && c.request.dest.bank == RO && c.rw == rw
      && (if step == 20 then c.request == ReadReq(T8BAUD, 1, Dest(RO, RO_LEN - 1))
          else c.request == ReadReq(RO_START, RO_LEN - 1, Dest(RO, 0)) && c.next == 20)
  {
    TelemetrySlotsFit();
  }

  /** The bulk read of the steady state stops just below T8BAUD's slot, so it never overwrites it. */
  lemma BulkReadSparesT8Baud(rw: seq<bv32>, ro: seq<bv32>)
    requires |rw| == RW_LEN && |ro| == RO_LEN
    ensures var r := NextCommand(21, rw, ro).request;
      r.ReadReq? && r.dest.start + r.count == T8BAUD_SLOT
  {
    TelemetrySlotsFit();
  }

  /** The step counter values of `k` consecutive calls of `send_next` from `step`. */
  function Visits(step: nat, k: nat): (vs: seq<nat>)
    ensures |vs| == k
    decreases k
  {
    if k == 0 then [] else [step] + Visits(NextStep(step), k - 1)
  }

  /**
   * After `start`, call i of `send_next` runs step i for the first twenty-one calls,
   * and from then on steps 20 and 21 alternate for ever.
   */
  lemma {:induction false} VisitsFromStart(k: nat, i: nat)
    requires i < k
    ensures Visits(0, k)[i] == (if i <= 20 then i else 20 + (i - 20) % 2)
  {
    VisitsFrom(0, k, i);
  }

  lemma {:induction false} VisitsFrom(step: nat, k: nat, i: nat)
    requires step <= 21 && i < k
    ensures Visits(step, k)[i] == (if step + i <= 20 then step + i else 20 + (step + i - 20) % 2)
    decreases i
  {
    if i > 0 {
      VisitsFrom(NextStep(step), k - 1, i - 1);
      if step == 21 {
        assert (step + i - 20) % 2 == (20 + i - 1 - 20) % 2 by {
          assert step + i - 20 == (i - 1) + 2;
        }
      }
    }
  }

  /** The calibration writes each carry the current value of their slot and leave the banks as they are. */
  lemma CalibrationWritesCurrentValue(step: nat, rw: seq<bv32>, ro: seq<bv32>)
    requires |rw| == RW_LEN && |ro| == RO_LEN
    requires 7 <= step <= 18
    ensures var c := NextCommand(step, rw, ro);
      && c.rw == rw
      && c.request.WriteReq? && RW_START <= c.request.address
      && c.request.value == rw[CalibrationSlot(c.request.address)]
  {
  }

  /**
   * Steps 0, 1 and 5 move words without changing the bank: step 0 reads SysCtrl
   * into its own slot, step 1 writes AnaCtrl0's current word, and step 5 reads
   * the whole read-only bank from slot 0 on, which takes in the UDCINST and
   * IADCINST words that step 6 copies.
   */
  lemma TransferSteps(rw: seq<bv32>, ro: seq<bv32>)
    requires |rw| == RW_LEN && |ro| == RO_LEN
    ensures NextCommand(0, rw, ro) == Command(ReadReq(SYS_CTRL, 1, Dest(RW, SYS_CTRL_SLOT)), rw, 1)
    ensures NextCommand(1, rw, ro) == Command(WriteReq(ANA_CTRL0, rw[ANA_CTRL0_SLOT]), rw, 2)
    ensures NextCommand(5, rw, ro) == Command(ReadReq(RO_START, RO_LEN, Dest(RO, 0)), rw, 6)
    ensures UDCINST_SLOT < RO_LEN && IADCINST_SLOT < RO_LEN
  {
    TelemetrySlotsFit();
  }

  /** Step 2 sets CSEL to 1 (bit 28 set, bit 29 clear) and changes no other bit or word. */
  lemma Step2SelectsChannel(rw: seq<bv32>, ro: seq<bv32>)
    requires |rw| == RW_LEN && |ro| == RO_LEN
    ensures var c := NextCommand(2, rw, ro);
      && c.rw == rw[ANA_CTRL1_SLOT := (rw[ANA_CTRL1_SLOT] & !0x3000_0000) | 0x1000_0000]
      && c.request == WriteReq(ANA_CTRL1, c.rw[ANA_CTRL1_SLOT])
  {
    SetCselOne(rw[ANA_CTRL1_SLOT]);
  }

  /** Step 3 powers up both ADCs: it sets bits 29 and 27 of SysCtrl, nothing else. */
  lemma Step3PowersAdcs(rw: seq<bv32>, ro: seq<bv32>)
    requires |rw| == RW_LEN && |ro| == RO_LEN
    ensures var c := NextCommand(3, rw, ro);
      && c.rw == rw[SYS_CTRL_SLOT := rw[SYS_CTRL_SLOT] | 0x2800_0000]
      && c.request == WriteReq(SYS_CTRL, c.rw[SYS_CTRL_SLOT])
  {
    SetAdcPowerUp(rw[SYS_CTRL_SLOT]);
  }

  /** Step 4 shorts both inputs for the DC-offset measurement: it sets bits 13 and 12 of SysCtrl. */
  lemma Step4ShortsInputs(rw: seq<bv32>, ro: seq<bv32>)
    requires |rw| == RW_LEN && |ro| == RO_LEN
    ensures var c := NextCommand(4, rw, ro);
      && c.rw == rw[SYS_CTRL_SLOT := rw[SYS_CTRL_SLOT] | 0x3000]
      && c.request == WriteReq(SYS_CTRL, c.rw[SYS_CTRL_SLOT])
  {
    SetShortInputs(rw[SYS_CTRL_SLOT]);
  }

  /**
   * Step 6 takes the measured DC offsets as calibration words (UDCINST into
   * UADCC, IADCINST into IAADCC), releases the short on both inputs and
   * changes no other word.
   */
  lemma Step6TakesDcOffsets(rw: seq<bv32>, ro: seq<bv32>)
    requires |rw| == RW_LEN && |ro| == RO_LEN
    ensures var c := NextCommand(6, rw, ro);
      && c.rw[UADCC_SLOT] == ro[UDCINST_SLOT]
      && c.rw[IAADCC_SLOT] == ro[IADCINST_SLOT]
      && c.rw[SYS_CTRL_SLOT] == rw[SYS_CTRL_SLOT] & !0x3000
      && (forall i :: 0 <= i < RW_LEN && i != UADCC_SLOT && i != IAADCC_SLOT && i != SYS_CTRL_SLOT ==> c.rw[i] == rw[i])
      && c.request == WriteReq(SYS_CTRL, c.rw[SYS_CTRL_SLOT])
  {
    ClearShortInputs(rw[SYS_CTRL_SLOT]);
  }

  /** Step 19 stores the checksum word and writes it to CKSUM; the bank then sums to 0xFFFFFFFF. */
  lemma Step19SealsBank(rw: seq<bv32>, ro: seq<bv32>)
    requires |rw| == RW_LEN && |ro| == RO_LEN
    ensures var c := NextCommand(19, rw, ro);
      && c.request == WriteReq(CKSUM, c.rw[CKSUM_SLOT])
      && (forall i :: 0 <= i < RW_LEN && i != CKSUM_SLOT ==> c.rw[i] == rw[i])
      && Accumulate(c.rw) == 0xFFFF_FFFF
  {
    ChecksumBalances(rw);
  }
}
