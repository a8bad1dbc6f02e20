/**
 * The driver's mirror of the chip's registers: a read-write bank of control
 * and calibration words and a read-only bank of status and telemetry words.
 * Each named register is bound to a fixed slot of its bank by address
 * arithmetic; the calibration words start with the defaults tuned for one chip.
 */
module MemoryMap {

  // Register addresses on the chip.

  const SYS_CTRL: bv16 := 0x0180
  const ANA_CTRL0: bv16 := 0x0182
  const ANA_CTRL1: bv16 := 0x0183

  const PAC: bv16 := 0x00F6
  const PHC: bv16 := 0x00F7
  const PADCC: bv16 := 0x00F8
  const QAC: bv16 := 0x00F9
  const QADCC: bv16 := 0x00FB
  const IAC: bv16 := 0x00FD
  const IADCC: bv16 := 0x00FE
  const UC: bv16 := 0x00FF
  const IAADCC: bv16 := 0x0104
  const UADCC: bv16 := 0x0106
  const BPFPARA: bv16 := 0x0107
  const UDCC: bv16 := 0x0108
  const CKSUM: bv16 := 0x0109

  const RW_START: bv16 := PAC

  const SYS_STS_CLR: bv16 := 0x019D
  const SFTRST: bv16 := 0x01BF

  const SYS_STS: bv16 := 0x00CA
  const FREQINST: bv16 := 0x00CB
  const PAINST: bv16 := 0x00CC
  const QINST: bv16 := 0x00CD
  const IAINST: bv16 := 0x00CE
  const UINST: bv16 := 0x00CF
  const PAAVG: bv16 := 0x00D0
  const QAVG: bv16 := 0x00D1
  const FREQAVG: bv16 := 0x00D2
  const IAAVG: bv16 := 0x00D3
  const UAVG: bv16 := 0x00D4
  const UDCINST: bv16 := 0x00D9
  const IADCINST: bv16 := 0x00DA
  const ZXDATREG: bv16 := 0x00DC
  const ZXDAT: bv16 := 0x00DD
  const PHDAT: bv16 := 0x00DE

  const T8BAUD: bv16 := 0x00E0

  const RO_START: bv16 := SYS_STS

  // Bank and buffer sizes.

  const RW_LEN: nat := 23
  const RO_LEN: nat := 22
  /** Room for the largest response plus the largest query. */
  const BUFFER_SIZE: nat := 256 + 8

  datatype Bank = RW | RO

  function BankLen(b: Bank): nat
  {
    match b
    case RW => RW_LEN
    case RO => RO_LEN
  }

  /** Where a pending read stores its words: a bank and the first slot written. */
  datatype Dest = Dest(bank: Bank, start: nat)

  // Slot binding.

  /** The three bit-packed control words occupy the first RW slots. */
  const SYS_CTRL_SLOT: nat := 0
  const ANA_CTRL0_SLOT: nat := 1
  const ANA_CTRL1_SLOT: nat := 2

  /** A calibration register sits three slots past its distance from the calibration block's start. */
  function CalibrationSlot(addr: bv16): (slot: nat)
    requires RW_START <= addr
    ensures ANA_CTRL1_SLOT < slot
    ensures addr <= CKSUM ==> slot < RW_LEN
  {
    3 + (addr - RW_START) as nat
  }

  /** A status or telemetry register sits at its distance from the read-only block's start. */
  function RoSlot(addr: bv16): (slot: nat)
    requires RO_START <= addr
    ensures addr as nat < RO_START as nat + RO_LEN ==> slot < RO_LEN
  {
    (addr - RO_START) as nat
  }

  const PAC_SLOT: nat := CalibrationSlot(PAC)
  const PHC_SLOT: nat := CalibrationSlot(PHC)
  const PADCC_SLOT: nat := CalibrationSlot(PADCC)
  const QAC_SLOT: nat := CalibrationSlot(QAC)
  const QADCC_SLOT: nat := CalibrationSlot(QADCC)
  const IAC_SLOT: nat := CalibrationSlot(IAC)
  const IADCC_SLOT: nat := CalibrationSlot(IADCC)
  const UC_SLOT: nat := CalibrationSlot(UC)
  const IAADCC_SLOT: nat := CalibrationSlot(IAADCC)
  const UADCC_SLOT: nat := CalibrationSlot(UADCC)
  const BPFPARA_SLOT: nat := CalibrationSlot(BPFPARA)
  const UDCC_SLOT: nat := CalibrationSlot(UDCC)
  const CKSUM_SLOT: nat := CalibrationSlot(CKSUM)

  const UDCINST_SLOT: nat := RoSlot(UDCINST)
  const IADCINST_SLOT: nat := RoSlot(IADCINST)
  /** T8BAUD is pulled one slot down, into the last slot of the bank. */
  const T8BAUD_SLOT: nat := RoSlot(T8BAUD) - 1

  /** The calibration registers, in address order. */
  const CALIBRATION: seq<bv16> := [PAC, PHC, PADCC, QAC, QADCC, IAC, IADCC, UC, IAADCC, UADCC, BPFPARA, UDCC, CKSUM]

  /** The status and telemetry registers bound by plain offset, in address order. */
  const TELEMETRY: seq<bv16> := [
    SYS_STS, FREQINST, PAINST, QINST, IAINST, UINST, PAAVG, QAVG, FREQAVG, IAAVG, UAVG,
    UDCINST, IADCINST, ZXDATREG, ZXDAT, PHDAT]

  /**
   * Every calibration register gets its own slot after the three control words,
   * the checksum the last one, and the bank is exactly one slot longer than the
   * highest slot used.
   */
  lemma CalibrationSlotsFit()
    ensures forall i :: 0 <= i < |CALIBRATION| ==>
      RW_START <= CALIBRATION[i] && ANA_CTRL1_SLOT < CalibrationSlot(CALIBRATION[i]) < RW_LEN
    ensures forall i, j :: 0 <= i < j < |CALIBRATION| ==> CalibrationSlot(CALIBRATION[i]) < CalibrationSlot(CALIBRATION[j])
    ensures CKSUM_SLOT == RW_LEN - 1
    ensures SYS_CTRL_SLOT < ANA_CTRL0_SLOT < ANA_CTRL1_SLOT
  {
  }

  /**
   * Every offset-bound status register gets its own slot below T8BAUD's; T8BAUD's
   * plain offset would be one past the end of the bank, and the one-slot
   * adjustment puts it in the last slot instead.
   */
  lemma TelemetrySlotsFit()
    ensures forall i :: 0 <= i < |TELEMETRY| ==> RO_START <= TELEMETRY[i] && RoSlot(TELEMETRY[i]) < T8BAUD_SLOT
    ensures forall i, j :: 0 <= i < j < |TELEMETRY| ==> RoSlot(TELEMETRY[i]) < RoSlot(TELEMETRY[j])
    ensures RoSlot(T8BAUD) == RO_LEN && T8BAUD_SLOT == RO_LEN - 1
  {
  }

  /** The quantities the driver reports; each is scaled from telemetry words. */
  datatype Parameter = Voltage | Amperage | Frequency | Power | Reactive

  /** The read-only slots a reported quantity is computed from; frequency also reads the baud timer. */
  function ParameterSlots(p: Parameter): (slots: seq<nat>)
    ensures |slots| >= 1
    ensures forall i :: 0 <= i < |slots| ==> slots[i] < RO_LEN
    ensures p == Frequency <==> T8BAUD_SLOT in slots
  {
    match p
    case Voltage => [RoSlot(UAVG)]
    case Amperage => [RoSlot(IAAVG)]
    case Frequency => [T8BAUD_SLOT, RoSlot(FREQAVG)]
    case Power => [RoSlot(PAAVG)]
    case Reactive => [RoSlot(QAVG)]
  }

  // Calibration defaults preset at construction; all other words start at zero.

  const PAC_DEFAULT: bv32 := 0
  const PADCC_DEFAULT: bv32 := 0
  const PHC_DEFAULT: bv32 := 0
  const QAC_DEFAULT: bv32 := 0
  const QADCC_DEFAULT: bv32 := 0
  const IAC_DEFAULT: bv32 := 0
  const IADCC_DEFAULT: bv32 := 16758789
  /** The signed value -1103500000, as its 32-bit two's complement pattern. */
  const UC_DEFAULT: bv32 := 0 - 1103500000
  const UDCC_DEFAULT: bv32 := 1196289
  const BPFPARA_DEFAULT: bv32 := 0x8067_64B6
}
