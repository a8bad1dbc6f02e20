/**
 * The driver object: the two register banks, the receive buffer, the pending
 * request descriptor and the step counter, with the operations that update
 * them in place. The serial port is replaced by a log of the frames sent and
 * by the chunk of bytes handed to the receive handler; the single-shot timer
 * that runs the next step becomes a flag.
 */
module Driver {
  import opened Wrappers
  import opened Bytes
  import opened BitFields
  import opened MemoryMap
  import opened Packet
  import opened Sequencer

  /** `s` with the elements `xs` stored from index `at` on: bytes into the buffer, words into a bank. */
  function Splice<T>(s: seq<T>, at: nat, xs: seq<T>): (r: seq<T>)
    requires at + |xs| <= |s|
    ensures |r| == |s|
    ensures forall i :: 0 <= i < |s| ==> r[i] == if at <= i < at + |xs| then xs[i - at] else s[i]
  {
    s[..at] + xs + s[at + |xs|..]
  }

  /** The contents of both banks. */
  datatype Banks = Banks(rw: seq<bv32>, ro: seq<bv32>)

  /** The banks after `ws` has been stored at `d`; the other bank is untouched. */
  function Store(b: Banks, d: Dest, ws: seq<bv32>): (r: Banks)
    requires |b.rw| == RW_LEN && |b.ro| == RO_LEN && FitsBank(d, |ws|)
    ensures d.bank == RW ==> r.ro == b.ro && r.rw == Splice(b.rw, d.start, ws)
    ensures d.bank == RO ==> r.rw == b.rw && r.ro == Splice(b.ro, d.start, ws)
  {
    match d.bank
    case RW => b.(rw := Splice(b.rw, d.start, ws))
    case RO => b.(ro := Splice(b.ro, d.start, ws))
  }

  /** The receive position after storing up to `n` bytes: reaching the end of the buffer wraps it to 0. */
  function Wrap(n: nat): (r: nat)
    ensures n <= BUFFER_SIZE ==> r < BUFFER_SIZE && r == n % BUFFER_SIZE
  {
    if n == BUFFER_SIZE then 0 else n
  }

  /** The register that case `s` of the calibration writes names, one case per register. */
  method CalibrationAddress(s: nat) returns (address: bv16)
    requires 7 <= s <= 18
    ensures address == CALIBRATION_WRITES[s - 7]
  {
    if s == 7 {
      address := UADCC;
    } else if s == 8 {
      address := IAADCC;
    } else if s == 9 {
      address := PAC;
    } else if s == 10 {
      address := PADCC;
    } else if s == 11 {
      address := QAC;
    } else if s == 12 {
      address := QADCC;
    } else if s == 13 {
      address := PHC;
    } else if s == 14 {
      address := IAC;
    } else if s == 15 {
      address := IADCC;
    } else if s == 16 {
      address := UC;
    } else if s == 17 {
      address := UDCC;
    } else {
      address := BPFPARA;
    }
  }

  /** `calc_check`: the `std::accumulate` loop over `len` signed bytes from `from`, complemented, plus 0x33. */
  method CalcCheck(buff: array<bv8>, from: nat, len: nat) returns (c: bv8)
    requires from + len <= buff.Length
    ensures c == CheckByte(buff[from..from + len])
  {
    var sum: int := 0;
    var i := 0;
    while i < len
      invariant 0 <= i <= len
      invariant sum == SignedSum(buff[from..from + i])
    {
      assert buff[from..from + i + 1][..i] == buff[from..from + i];
      sum := sum + SignedChar(buff[from + i]);
      i := i + 1;
    }
    c := Truncate8(Complement(sum) + 0x33);
  }

  /** `std::accumulate` over the first `n` words of `a`, wrapping at 2^32. */
  method AccumulateWords(a: array<bv32>, n: nat) returns (acc: bv32)
    requires n <= a.Length
    ensures acc == Accumulate(a[..n])
  {
    acc := 0;
    for i := 0 to n
      invariant acc == Accumulate(a[..i])
    {
      assert a[..i + 1] == a[..i] + [a[i]];
      AccumulateSnoc(a[..i], a[i]);
      acc := Add32(acc, a[i]);
    }
  }

  /** Moves `k` little-endian words from byte `off` of `src` into `dst` from slot `start` on, as the `memcpy` does. */
  method CopyWords(dst: array<bv32>, start: nat, src: array<bv8>, off: nat, k: nat)
    requires start + k <= dst.Length && off + 4 * k <= src.Length
    modifies dst
    ensures dst[..] == Splice(old(dst[..]), start, LeWords(src[..], off, k))
  {
    ghost var ws := LeWords(src[..], off, k);
    var j := 0;
    while j < k
      invariant 0 <= j <= k
      invariant forall i :: 0 <= i < dst.Length ==>
        dst[i] == if start <= i < start + j then ws[i - start] else old(dst[i])
    {
      assert src[..][off + 4 * j .. off + 4 * j + 4] == src[off + 4 * j .. off + 4 * j + 4];
      dst[start + j] := LeWord(src[off + 4 * j .. off + 4 * j + 4]);
      j := j + 1;
    }
    assert dst[..] == Splice(old(dst[..]), start, ws);
  }

  class V9240 {
    /** The step `send_next` runs next. */
    var step: nat
    /** The length of the response that completes the pending request; 0 when none is pending. */
    var nextReadLen: nat
    /** How many bytes of the current response have been received. */
    var byteReaded: nat
    const serialBuff: array<bv8>
    /** Where the pending read stores its words. */
    var ptrRead: Option<Dest>
    const rwMem: array<bv32>
    const roMem: array<bv32>
    /** Set when the handler has scheduled `send_next`; the timer firing consumes it. */
    var nextScheduled: bool
    /** The bytes written to the port, oldest first. */
    var output: seq<bv8>
    /** The requests those bytes encode, oldest first. */
    ghost var sent: seq<Request>

    predicate Valid()
      reads this
    {
      && serialBuff.Length == BUFFER_SIZE && rwMem.Length == RW_LEN && roMem.Length == RO_LEN
      && rwMem != roMem
      && byteReaded < BUFFER_SIZE
    }

    /** The output is exactly the frames of the logged requests. */
    ghost predicate Logged()
      reads this
    {
      output == Wire(sent)
    }

    function BankArray(b: Bank): array<bv32>
      reads this
    {
      match b
      case RW => rwMem
      case RO => roMem
    }

    /** Both banks zeroed, then the tuned calibration defaults preset; nothing pending. */
    constructor ()
      ensures Valid() && Logged() && fresh(serialBuff) && fresh(rwMem) && fresh(roMem)
      ensures step == 0 && nextReadLen == 0 && byteReaded == 0 && ptrRead == None
      ensures !nextScheduled && sent == [] && output == []
      ensures rwMem[IADCC_SLOT] == IADCC_DEFAULT && rwMem[UC_SLOT] == UC_DEFAULT
      ensures rwMem[UDCC_SLOT] == UDCC_DEFAULT && rwMem[BPFPARA_SLOT] == BPFPARA_DEFAULT
      ensures forall i :: 0 <= i < RW_LEN && i !in {IADCC_SLOT, UC_SLOT, UDCC_SLOT, BPFPARA_SLOT} ==> rwMem[i] == 0
      ensures forall i :: 0 <= i < RO_LEN ==> roMem[i] == 0
      ensures forall i :: 0 <= i < BUFFER_SIZE ==> serialBuff[i] == 0
    {
      step, nextReadLen, byteReaded, ptrRead := 0, 0, 0, None;
      nextScheduled := false;
      sent := [];
      output := [];
      serialBuff := new bv8[BUFFER_SIZE](_ => 0);
      rwMem := new bv32[RW_LEN](_ => 0);
      roMem := new bv32[RO_LEN](_ => 0);
      new;
      rwMem[PAC_SLOT] := PAC_DEFAULT;
      rwMem[PADCC_SLOT] := PADCC_DEFAULT;
      rwMem[PHC_SLOT] := PHC_DEFAULT;
      rwMem[QAC_SLOT] := QAC_DEFAULT;
      rwMem[QADCC_SLOT] := QADCC_DEFAULT;
      rwMem[IAC_SLOT] := IAC_DEFAULT;
      rwMem[IADCC_SLOT] := IADCC_DEFAULT;
      rwMem[UC_SLOT] := UC_DEFAULT;
      rwMem[UDCC_SLOT] := UDCC_DEFAULT;
      rwMem[BPFPARA_SLOT] := BPFPARA_DEFAULT;
    }

    /** `read`: sends a read frame and makes it the only pending request. */
    method Read(dest: Dest, address: bv16, n: nat)
      requires Valid() && Logged()
      modifies this
      ensures Valid() && Logged()
      ensures sent == old(sent) + [ReadReq(address, n, dest)]
      ensures output == old(output) + ReadFrame(address, n)
      ensures nextReadLen == PACKET_SIZE + 4 + 4 * n && byteReaded == 0 && ptrRead == Some(dest)
      ensures step == old(step) && nextScheduled == old(nextScheduled)
    {
      var f := ReadFrame(address, n);
      nextReadLen := PACKET_SIZE + 4 + 4 * n;
      byteReaded := 0;
      ptrRead := Some(dest);
      output := output + f;
      WireSnoc(sent, ReadReq(address, n, dest));
      sent := sent + [ReadReq(address, n, dest)];
    }

    /** `write`: sends a write frame; the destination of an earlier read is left as it was. */
    method Write(address: bv16, data: bv32)
      requires Valid() && Logged()
      modifies this
      ensures Valid() && Logged()
      ensures sent == old(sent) + [WriteReq(address, data)]
      ensures output == old(output) + WriteFrame(address, data)
      ensures nextReadLen == PACKET_SIZE + 4 && byteReaded == 0 && ptrRead == old(ptrRead)
      ensures step == old(step) && nextScheduled == old(nextScheduled)
    {
      var f := WriteFrame(address, data);
      nextReadLen := PACKET_SIZE + 4;
      byteReaded := 0;
      output := output + f;
      WireSnoc(sent, WriteReq(address, data));
      sent := sent + [WriteReq(address, data)];
    }

    /** `start`: back to step 0, and a read of the status word into the first read-only slot. */
    method Start()
      requires Valid() && Logged()
      modifies this
      ensures Valid() && Logged()
      ensures step == 0
      ensures sent == old(sent) + [START_REQUEST]
      ensures nextReadLen == ExpectedLen(START_REQUEST) && byteReaded == 0 && ptrRead == Some(START_REQUEST.dest)
      ensures nextScheduled == old(nextScheduled)
    {
      step := 0;
      Read(Dest(RO, 0), SYS_STS, 1);
    }

    /** `set_checksum`: stores the balancing word in the CKSUM slot and writes it to the chip. */
    method SetChecksum()
      requires Valid() && Logged()
      modifies this, rwMem
      ensures Valid() && Logged()
      ensures rwMem[..] == old(rwMem[..])[CKSUM_SLOT := ChecksumWord(old(rwMem[..]))]
      ensures Accumulate(rwMem[..]) == 0xFFFF_FFFF
      ensures sent == old(sent) + [WriteReq(CKSUM, rwMem[CKSUM_SLOT])]
      ensures nextReadLen == PACKET_SIZE + 4 && byteReaded == 0 && ptrRead == old(ptrRead)
      ensures step == old(step) && nextScheduled == old(nextScheduled)
    {
      var acc := AccumulateWords(rwMem, RW_LEN - 1);
      rwMem[CKSUM_SLOT] := 0xFFFF_FFFF - acc;
      ChecksumBalances(old(rwMem[..]));
      Write(CKSUM, rwMem[CKSUM_SLOT]);
    }

    /** The state after the request and bank edit `c` were carried out, given the log and destination before. */
    ghost predicate Performed(c: Command, sent0: seq<Request>, ptr0: Option<Dest>)
      reads this, rwMem
    {
      && rwMem[..] == c.rw
      && sent == sent0 + [c.request]
      && nextReadLen == ExpectedLen(c.request) && byteReaded == 0
      && ptrRead == (if c.request.ReadReq? then Some(c.request.dest) else ptr0)
    }

    /** `send_next`: runs the current step of the bring-up or of the steady-state polling. */
    method SendNext()
      requires Valid() && Logged()
      modifies this, rwMem
      ensures Valid() && Logged()
      ensures var c := NextCommand(old(step), old(rwMem[..]), old(roMem[..]));
        Performed(c, old(sent), old(ptrRead)) && step == c.next
      ensures !nextScheduled
    {
      nextScheduled := false;
      var s := step;
      // `step++` in the switch, and the default case's reset to 20.
      step := NextStep(s);
      if s <= 18 {
        BringUpStep(s);
      } else {
        assert NextCommand(s, rwMem[..], roMem[..]) == PollCommand(s, rwMem[..]);
        PollStep(s);
      }
    }

    /** Cases 0 to 18 of the bring-up. */
    method BringUpStep(s: nat)
      requires Valid() && Logged() && s <= 18
      modifies this, rwMem
      ensures Valid() && Logged()
      ensures Performed(NextCommand(s, old(rwMem[..]), old(roMem[..])), old(sent), old(ptrRead))
      ensures step == old(step) && nextScheduled == old(nextScheduled)
    {
      ghost var c := NextCommand(s, rwMem[..], roMem[..]);
      if s <= 3 {
        assert c == ConfigureCommand(s, rwMem[..]);
        ConfigureStep(s);
      } else if s <= 6 {
        assert c == OffsetCommand(s, rwMem[..], roMem[..]);
        OffsetStep(s);
      } else {
        assert c == CalibrationCommand(s, rwMem[..]);
        CalibrationStep(s);
      }
    }

    /** Case 19 seals the bank, case 20 polls T8BAUD, and any later step reads the status block and returns to case 20. */
    method PollStep(s: nat)
      requires Valid() && Logged() && 19 <= s
      modifies this, rwMem
      ensures Valid() && Logged()
      ensures Performed(PollCommand(s, old(rwMem[..])), old(sent), old(ptrRead))
      ensures step == old(step) && nextScheduled == old(nextScheduled)
    {
      if s == 19 {
        SetChecksum();
      } else if s == 20 {
        Read(Dest(RO, T8BAUD_SLOT), T8BAUD, 1);
      } else {
        Read(Dest(RO, 0), RO_START, RO_LEN - 1);
      }
    }

    /** Cases 0 to 3: read SysCtrl, write both analog control words (CSEL set to 1), power up the ADCs. */
    method ConfigureStep(s: nat)
      requires Valid() && Logged() && s <= 3
      modifies this, rwMem
      ensures Valid() && Logged()
      ensures Performed(ConfigureCommand(s, old(rwMem[..])), old(sent), old(ptrRead))
      ensures step == old(step) && nextScheduled == old(nextScheduled)
    {
      if s == 0 {
        Read(Dest(RW, SYS_CTRL_SLOT), SYS_CTRL, 1);
      } else if s == 1 {
        Write(ANA_CTRL0, rwMem[ANA_CTRL0_SLOT]);
      } else if s == 2 {
        rwMem[ANA_CTRL1_SLOT] := Set(rwMem[ANA_CTRL1_SLOT], CSEL, 1);
        Write(ANA_CTRL1, rwMem[ANA_CTRL1_SLOT]);
      } else {
        rwMem[SYS_CTRL_SLOT] := Set(rwMem[SYS_CTRL_SLOT], ADCUPDN, 1);
        rwMem[SYS_CTRL_SLOT] := Set(rwMem[SYS_CTRL_SLOT], ADCIAPDN, 1);
        Write(SYS_CTRL, rwMem[SYS_CTRL_SLOT]);
      }
    }

    /** Cases 4 to 6: the DC-offset calibration, shorting the inputs, reading the offsets and taking them over. */
    method OffsetStep(s: nat)
      requires Valid() && Logged() && 4 <= s <= 6
      modifies this, rwMem
      ensures Valid() && Logged()
      ensures Performed(OffsetCommand(s, old(rwMem[..]), old(roMem[..])), old(sent), old(ptrRead))
      ensures step == old(step) && nextScheduled == old(nextScheduled)
    {
      ghost var c := OffsetCommand(s, rwMem[..], roMem[..]);
      if s == 4 {
        rwMem[SYS_CTRL_SLOT] := Set(rwMem[SYS_CTRL_SLOT], SHORTU, 1);
        rwMem[SYS_CTRL_SLOT] := Set(rwMem[SYS_CTRL_SLOT], SHORTI, 1);
        assert rwMem[..] == c.rw;
        Write(SYS_CTRL, rwMem[SYS_CTRL_SLOT]);
      } else if s == 5 {
        Read(Dest(RO, 0), RO_START, RO_LEN);
      } else {
        TakeDcOffsets();
      }
    }

    /** Case 6: take the measured offsets as calibration words and release the short. */
    method TakeDcOffsets()
      requires Valid() && Logged()
      modifies this, rwMem
      ensures Valid() && Logged()
      ensures Performed(OffsetCommand(6, old(rwMem[..]), old(roMem[..])), old(sent), old(ptrRead))
      ensures step == old(step) && nextScheduled == old(nextScheduled)
    {
      ghost var c := OffsetCommand(6, rwMem[..], roMem[..]);
      rwMem[UADCC_SLOT] := roMem[UDCINST_SLOT];
      rwMem[IAADCC_SLOT] := roMem[IADCINST_SLOT];
      rwMem[SYS_CTRL_SLOT] := Set(rwMem[SYS_CTRL_SLOT], SHORTU, 0);
      rwMem[SYS_CTRL_SLOT] := Set(rwMem[SYS_CTRL_SLOT], SHORTI, 0);
      assert rwMem[..] == c.rw;
      Write(SYS_CTRL, rwMem[SYS_CTRL_SLOT]);
    }

    /** Cases 7 to 18: one calibration word each, written from its slot. */
    method CalibrationStep(s: nat)
      requires Valid() && Logged() && 7 <= s <= 18
      modifies this
      ensures Valid() && Logged()
      ensures Performed(CalibrationCommand(s, old(rwMem[..])), old(sent), old(ptrRead))
      ensures step == old(step) && nextScheduled == old(nextScheduled)
    {
      var address := CalibrationAddress(s);
      Write(address, rwMem[CalibrationSlot(address)]);
    }

    /**
     * `read_data_from_port`: stores as much of `chunk` as fits (the rest stays
     * with the port) and, once exactly the expected number of bytes is in,
     * handles the response, clears the pending request and schedules the next step.
     */
    method ReadDataFromPort(chunk: seq<bv8>) returns (consumed: nat, outcome: Outcome)
      requires Valid()
      modifies this, serialBuff, rwMem, roMem
      ensures Valid()
      ensures consumed == if old(byteReaded) + |chunk| > BUFFER_SIZE then BUFFER_SIZE - old(byteReaded) else |chunk|
      ensures serialBuff[..] == Splice(old(serialBuff[..]), old(byteReaded), chunk[..consumed])
      ensures step == old(step) && sent == old(sent) && output == old(output)
      ensures var filled := Wrap(old(byteReaded) + consumed);
        if filled != old(nextReadLen) then
          && outcome == Incomplete && byteReaded == filled
          && nextReadLen == old(nextReadLen) && ptrRead == old(ptrRead) && nextScheduled == old(nextScheduled)
          && Banks(rwMem[..], roMem[..]) == old(Banks(rwMem[..], roMem[..]))
        else
          && outcome == Classify(serialBuff[..], filled, old(ptrRead))
          && nextReadLen == 0 && byteReaded == 0 && ptrRead == None && nextScheduled
          && Banks(rwMem[..], roMem[..]) ==
               if outcome.Copied?
               then Store(old(Banks(rwMem[..], roMem[..])), old(ptrRead).value, LeWords(serialBuff[..], 11, outcome.count))
               else old(Banks(rwMem[..], roMem[..]))
    {
      var bytes := |chunk|;
      if byteReaded + bytes > BUFFER_SIZE {
        bytes := BUFFER_SIZE - byteReaded;
      }
      StoreBytes(byteReaded, chunk[..bytes]);
      consumed := bytes;
      byteReaded := byteReaded + bytes;
      if byteReaded == BUFFER_SIZE {
        byteReaded := 0;
      }
      if byteReaded == nextReadLen {
        outcome := HandleFrame(nextReadLen);
        nextReadLen := 0;
        byteReaded := 0;
        ptrRead := None;
        nextScheduled := true;
      } else {
        outcome := Incomplete;
      }
    }

    /** The `port->read` into the buffer: `xs` stored from index `at` on. */
    method StoreBytes(at: nat, xs: seq<bv8>)
      requires Valid() && at + |xs| <= BUFFER_SIZE
      modifies serialBuff
      ensures serialBuff[..] == Splice(old(serialBuff[..]), at, xs)
    {
      var i := 0;
      while i < |xs|
        invariant 0 <= i <= |xs|
        invariant forall j :: 0 <= j < BUFFER_SIZE ==>
          serialBuff[j] == if at <= j < at + i then xs[j - at] else old(serialBuff[j])
      {
        serialBuff[at + i] := xs[i];
        i := i + 1;
      }
      assert serialBuff[..] == Splice(old(serialBuff[..]), at, xs);
    }

    /** The checksum test and the copy of a complete response of `len` bytes. */
    method HandleFrame(len: nat) returns (outcome: Outcome)
      requires Valid() && len < BUFFER_SIZE
      modifies rwMem, roMem
      ensures outcome == Classify(serialBuff[..], len, ptrRead)
      ensures Banks(rwMem[..], roMem[..]) ==
        if outcome.Copied?
        then Store(old(Banks(rwMem[..], roMem[..])), ptrRead.value, LeWords(serialBuff[..], 11, outcome.count))
        else old(Banks(rwMem[..], roMem[..]))
    {
      if len < 9 {
        // The checked length underflows in the C++ driver: there is no defined behaviour to follow.
        return Fault;
      }
      var checksum := CalcCheck(serialBuff, PACKET_SIZE, len - PACKET_SIZE - 1);
      assert serialBuff[PACKET_SIZE..PACKET_SIZE + (len - PACKET_SIZE - 1)] == serialBuff[..][8..len - 1];
      if checksum != serialBuff[len - 1] {
        return Mismatch;
      }
      if serialBuff[9] & 0xF != CTRL_READ {
        return Acknowledged;
      }
      var k := if serialBuff[10] == 0 then 1 else serialBuff[10] as nat;
      if ptrRead.None? || !FitsBank(ptrRead.value, k) {
        // A copy to no destination, or past the end of the bank.
        return Fault;
      }
      assert k == CopyCount(serialBuff[..]);
      StoreReply(ptrRead.value, k);
      outcome := Copied(k);
    }

    /** The `memcpy` of `k` payload words from the buffer into the destination bank. */
    method StoreReply(d: Dest, k: nat)
      requires Valid() && FitsBank(d, k) && 11 + 4 * k <= BUFFER_SIZE
      modifies rwMem, roMem
      ensures Banks(rwMem[..], roMem[..]) == Store(old(Banks(rwMem[..], roMem[..])), d, LeWords(serialBuff[..], 11, k))
    {
      CopyWords(BankArray(d.bank), d.start, serialBuff, 11, k);
    }
  }
}
