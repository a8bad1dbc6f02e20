# V9240 energy-meter driver, modelled in Dafny

This project models the `V9240` driver class, which talks to the V9240
single-phase metering chip over a serial line. It covers four parts of the class.

- **The register memory map.** There are two banks of 32-bit words: `rw_mem`
  (23 control and calibration words) and `ro_mem` (22 status and telemetry
  words). Each named register is bound to a fixed slot by address
  arithmetic. The bit-packed control words are described by their bit fields.
- **The packet codec.** A request is 8 bytes: the header 0x7D; the control
  nibble and the address-high nibble; the address-low byte; a little-endian
  32-bit payload; and a checksum byte, `~sum + 0x33`. `set_checksum` seals the
  read-write bank so that its words sum to 0xFFFFFFFF.
- **Response reassembly.** `read_data_from_port` collects the response in a
  264-byte buffer. Once the expected number of bytes is in, it checks the
  response and copies the payload words into the pending destination.
- **The command sequencer.** `start` and `send_next` form a step-counter
  state machine. It runs the bring-up: configuration, DC-offset calibration,
  the calibration words and the checksum. It then polls the chip for ever,
  alternating a T8BAUD read with a bulk read of the telemetry block.

Modules, one file each:

- `Wrappers`: `Option`.
- `Bytes`: signed/unsigned byte sums, 8- and 32-bit truncation, little-endian
  words, and the wrapping 32-bit `std::accumulate`.
- `BitFields`: field get/set on a word, and the packed layouts of the register
  unions.
- `MemoryMap`: the addresses, bank sizes, slot binding and calibration defaults.
- `Packet`: the frame codec, the checksum, and the classification of a
  complete response.
- `Sequencer`: a pure specification of what each step of `send_next` sends and
  how it edits the read-write bank.
- `Driver`: `class V9240`. Its fields are the source's state. Its methods
  update that state in place and are proved against `Packet` and `Sequencer`.

How the environment is modelled:

- The serial port is represented by two fields. `output` holds the bytes
  written so far. The ghost field `sent` holds the requests those bytes encode;
  the invariant `Logged()` ties the two together.
- Incoming data is a `chunk` parameter of `ReadDataFromPort`. It returns how
  many bytes of the chunk it took.
- The 25 ms single-shot timer that runs `send_next` becomes the flag
  `nextScheduled`.
- `ptr_read` becomes `Option<Dest>`: a bank and a start slot, or none.

Behaviour of the code worth knowing:

- In the steady state, steps 20 and 21 alternate, because `default` resets the
  step to 20: a T8BAUD read is followed by the bulk read, and so on for ever.
- The number of words copied from a read response comes from the `addr_l`
  field of the response header, byte 10 of the buffer (offset 8 is where that
  header starts), with 0 read as 1. The count the request asked for plays no
  part.
- Issuing a request replaces the expected response length of any pending one,
  but only a read replaces the destination: a write keeps the destination of
  an earlier read. Nothing stops a second request while one is in flight.
- T8BAUD (0x0E0) is bound to read-only slot 21, the slot the step-5 read of
  22 words from 0x0CA fills with the word of register 0x0DF. Until step 20
  reads T8BAUD itself, slot 21 holds that other register's word; the
  steady-state bulk read of 21 words leaves it alone afterwards.

## Model

| member | source | states |
|---|---|---|
| Bytes.SignedChar | v9240.cpp:111 | a `char` read from a byte lies in [-128, 128) and agrees with the byte modulo 256 |
| Bytes.SignedSum | v9240.cpp:111 | the `int` sum `std::accumulate` forms over n signed `char`s lies between -128n and 127n |
| Bytes.Truncate8 | v9240.cpp:111 | the conversion of the `int` result to `char` keeps its remainder modulo 256 |
| Bytes.SignedSumShift | v9240.cpp:111 | the `int` sum of signed `char`s is the unsigned byte sum minus 256 for every negative `char` |
| Bytes.SignedSumMod | v9240.cpp:111 | summing the bytes as signed or as unsigned values agrees modulo 256 |
| Bytes.ByteSumUpdate | v9240.cpp:111 | replacing one byte moves the unsigned sum by exactly the difference of the two bytes |
| Bytes.LeWordOfBytes | v9240_types.h:154 | the payload word decoded from its four little-endian bytes is the word encoded |
| Bytes.LeBytesOfWord | v9240_types.h:154 | any four bytes are the little-endian encoding of the word they decode to |
| Bytes.LeWordsOfBytes | v9240.cpp:224-225 | words laid out little-endian are read back unchanged, whatever bytes surround them |
| Bytes.Accumulate | v9240.cpp:105 | a run of zero words sums to zero (see Left out) |
| Bytes.AccumulateSnoc | v9240.cpp:105 | the wrapping 32-bit sum of a run with one more word is the old sum plus that word |
| BitFields.Get | v9240_types.h:63-144 | a bit-field read yields no bit above the field's width |
| BitFields.Set | v9240_types.h:63-144 | assigning a bit field changes no bit outside the field's span |
| BitFields.SetCommutes | v9240_types.h:63-144 | assigning two fields whose spans do not overlap gives the same word in either order |
| BitFields.PackedDisjoint | v9240_types.h:63-144 | in a packed struct, a later member starts at or after the end of an earlier one |
| BitFields.PackedInside | v9240_types.h:63-144 | every member of a packed struct lies inside the struct's total width |
| BitFields.SysCtrlOffsets | v9240_types.h:81-108 | the SysCtrl members tile exactly 32 bits: shorti starts at bit 12, shortu at 13, adciapdn at 27, adcupdn at 29 |
| BitFields.AnaCtrlOffsets | v9240_types.h:111-131 | both analog control structs tile exactly 32 bits, with IT at bit 8 and CSEL at bit 28 |
| BitFields.StatusWidths | v9240_types.h:63-144 | SysStsClr (lines 133-144) tiles 32 bits; SysSts (lines 63-79) declares the low 12 bits |
| BitFields.SysCtrlFieldPositions | v9240_types.h:81-108 | the members named shorti, shortu, adciapdn and adcupdn are the one-bit fields at bits 12, 13, 27 and 29 |
| BitFields.AnaCtrlFieldPositions | v9240_types.h:111-131 | the members named IT and CSEL are the two-bit fields at bits 8 and 28 |
| BitFields.SysCtrlReadBack | v9240_types.h:94-105 | each SysCtrl field used by the bring-up reads back the assigned value modulo 2 |
| BitFields.AnaCtrlReadBack | v9240_types.h:117-128 | IT and CSEL read back the assigned value modulo 4 |
| BitFields.SetCselOne | v9240.cpp:126 | `CSEL = 1` sets bit 28, clears bit 29 and keeps every other bit |
| BitFields.SetAdcPowerUp | v9240.cpp:131-132 | setting adcupdn and adciapdn sets bits 29 and 27 and nothing else |
| BitFields.SetShortInputs | v9240.cpp:137-138 | setting shortu and shorti sets bits 13 and 12 and nothing else |
| BitFields.ClearShortInputs | v9240.cpp:148-149 | clearing shortu and shorti clears bits 13 and 12 and nothing else |
| MemoryMap.CalibrationSlot | v9240.cpp:16-28 | a calibration register's slot comes after the three control words, and lies inside the 23-word bank for every address up to CKSUM |
| MemoryMap.RoSlot | v9240.cpp:30-46 | a status or telemetry register's slot lies inside the 22-word bank for every address in the 22 addresses from SYS_STS on |
| MemoryMap.CalibrationSlotsFit | v9240.cpp:16-28 | every calibration address maps to its own slot between the control words and the end of the 23-word bank, in address order, and CKSUM maps to the last slot |
| MemoryMap.TelemetrySlotsFit | v9240.cpp:30-46 | every offset-bound status address maps to its own slot below T8BAUD's, in address order; T8BAUD's plain offset is one past the 22-word bank and the -1 puts it in the last slot |
| MemoryMap.ParameterSlots | v9240.cpp:77-100 | each reported quantity reads in-bounds read-only slots, and only the frequency reads T8BAUD |
| Packet.Encode | v9240_types.h:147-158 | a packet occupies eight bytes: the header first, the low address byte third, the check byte last |
| Packet.Decode | v9240_types.h:147-158 | viewing eight bytes through the union gives nibble-sized control and address-high fields, and takes the header, the low address byte and the check byte from bytes 0, 2 and 7 |
| Packet.DecodeEncode | v9240_types.h:147-158 | decoding the eight bytes of a packet gives the packet back |
| Packet.EncodeDecode | v9240_types.h:147-158 | any eight bytes are the encoding of the packet they decode to |
| Packet.ControlCodes | v9240_types.h:56-58 | the read and write codes are distinct and each fits the control nibble |
| Packet.CheckByte | v9240.cpp:109-112 | `calc_check` equals (0x32 - unsigned byte sum) modulo 256, so it depends only on the byte sum modulo 256 |
| Packet.CheckByteSeals | v9240.cpp:109-112 | the bytes plus their check byte sum to 0x32 modulo 256 |
| Packet.CheckByteDetectsSingleChange | v9240.cpp:218-219 | changing any one byte changes the check byte |
| Packet.RequestPacket | v9240.cpp:296-304 | a request packet is well formed and carries the header 0x7D, the control code and the payload unchanged |
| Packet.RequestPacketAddress | v9240.cpp:301-302 | a request packet carries the low 12 bits of the address, split into the high nibble and the low byte |
| Packet.RequestBytes | v9240.cpp:296-304 | the request frame is, byte by byte, 0x7D; ctrl in the low nibble and address bits 8-11 in the high nibble; the low address byte; the payload least significant byte first; the check byte of the seven before it |
| Packet.RequestChecked | v9240.cpp:304 | a request frame's last byte is the checksum of the first seven, so the frame sums to 0x32 modulo 256 |
| Packet.ReadFrame | v9240.cpp:296-304 | the frame `read` sends is eight bytes long and starts with the header 0x7D |
| Packet.ReadFrameFields | v9240.cpp:296-304 | the frame `read` sends passes the checksum and decodes to control 1, the address and the count truncated to 32 bits |
| Packet.WriteFrame | v9240.cpp:315-323 | the frame `write` sends is eight bytes long and starts with the header 0x7D |
| Packet.WriteFrameFields | v9240.cpp:315-323 | the frame `write` sends passes the checksum and decodes to control 2, the address and the value |
| Packet.CopyCount | v9240.cpp:225 | the number of words copied is the `addr_l` field of the response header (byte 10 of the buffer), between 1 and 255, with 0 read as 1 |
| Packet.Classify | v9240.cpp:216-226 | a complete frame never counts as incomplete; a copy happens only when the checksum passes and the control nibble is the read code, copies `CopyCount` words, needs a destination, fits the bank and stays inside the buffer; an acknowledgement needs a passing checksum and a non-read control nibble |
| Packet.ClassifyComplete | v9240.cpp:216-226 | for every buffer and length: a bad checksum gives Mismatch, a valid frame with a non-read control nibble gives Acknowledged, and a valid read reply whose `CopyCount` words fit the destination gives Copied(CopyCount), whatever length the request expected |
| Packet.Sealed | v9240.cpp:218-219 | a body followed by its check byte passes the checksum test |
| Packet.EchoIgnored | v9240.cpp:218 | the echoed request bytes 0-7 play no part in the decision |
| Packet.ReadReplyAccepted | v9240.cpp:216-226 | a well-formed read response carrying n words (n = byte 10), with a destination that fits them, is copied as n words |
| Packet.ReadReplyWords | v9240.cpp:224-225 | the words read from offset 11 of a read response are exactly the words it carries |
| Packet.ReadReplyRoundTrip | v9240.cpp:216-226 | a read response is accepted and yields exactly its words, in order |
| Packet.OtherReplyAcknowledged | v9240.cpp:219-222 | a valid response with any control nibble other than 1 is accepted and copies nothing |
| Packet.WriteReplyAcknowledged | v9240.cpp:219-222 | a valid response with control 2 is accepted and copies nothing |
| Packet.ReadReplyCountZero | v9240.cpp:222-225 | a valid single-word read response whose count byte is 0 copies one word, and that word is the one it carries |
| Packet.CorruptReplyDiscarded | v9240.cpp:218-219 | a response with any one body byte corrupted is discarded as a mismatch |
| Sequencer.RequestFrameFields | v9240.cpp:296-331 | every request goes out as a checked frame carrying its control code and address |
| Sequencer.WireSnoc | v9240.cpp:310 | sending one more request appends its frame to the wire |
| Sequencer.WireAt | v9240.cpp:310 | request i of the log occupies bytes 8i to 8i+7 of the output |
| Sequencer.ChecksumWord | v9240.cpp:105 | the checksum word, added to the wrapping sum of the 22 words before the CKSUM slot, gives 0xFFFFFFFF |
| Sequencer.ChecksumBalances | v9240.cpp:103-107 | with the checksum word in the CKSUM slot, the 23 read-write words sum to 0xFFFFFFFF modulo 2^32 |
| Sequencer.ConfigureCommand | v9240.cpp:118-134 | cases 0-3 advance the step by one, read only in case 0, and leave every calibration word unchanged |
| Sequencer.OffsetCommand | v9240.cpp:135-151 | cases 4-6 advance the step by one, read only in case 5, and change no calibration word other than UADCC and IAADCC |
| Sequencer.CalibrationCommand | v9240.cpp:152-188 | cases 7-18 advance the step by one, change no word, and write one of the calibration registers |
| Sequencer.PollCommand | v9240.cpp:189-198 | case 19 is the only write; every later case reads into the read-only bank and changes no word; the step advances by one, except past 20 where it falls back to 20 |
| Sequencer.NextCommand | v9240.cpp:115-199 | each step advances the counter by one, except past 20 where it returns to 20; every read fits its bank; every response is at most 100 bytes, below the 264-byte buffer |
| Sequencer.BringUpOrder | v9240.cpp:118-191 | whatever the banks hold, steps 0-19 send, in order: read 0x180; write 0x182, 0x183, 0x180, 0x180; read 0x0CA; write 0x180; write the 12 calibration addresses in source order; write 0x109 |
| Sequencer.SteadyStateReadsOnly | v9240.cpp:192-198 | from step 20 on, only reads into the read-only bank are sent and the read-write bank is unchanged: at step 20, T8BAUD x1 into the last slot; after that, 21 words from 0x0CA into slot 0, with the step back at 20 |
| Sequencer.BulkReadSparesT8Baud | v9240.cpp:196 | the steady-state bulk read ends just below T8BAUD's slot |
| Sequencer.VisitsFromStart | v9240.cpp:115-199 | after `start`, call i of `send_next` runs step i for i <= 20, and from then on steps 20 and 21 alternate |
| Sequencer.CalibrationWritesCurrentValue | v9240.cpp:152-188 | steps 7-18 each write a calibration address with the word in that register's slot and leave the banks unchanged |
| Sequencer.TransferSteps | v9240.cpp:118-142 | step 0 reads one word of SysCtrl into its slot, step 1 writes AnaCtrl0's current word, step 5 reads all 22 read-only words from slot 0 on, which covers the UDCINST and IADCINST slots; none of them changes the bank |
| Sequencer.Step2SelectsChannel | v9240.cpp:124-128 | step 2 sets CSEL to 1 in AnaCtrl1, changes no other bit or word, and writes the new word |
| Sequencer.Step3PowersAdcs | v9240.cpp:129-134 | step 3 sets bits 29 and 27 of SysCtrl, changes nothing else, and writes the new word |
| Sequencer.Step4ShortsInputs | v9240.cpp:135-140 | step 4 sets bits 13 and 12 of SysCtrl, changes nothing else, and writes the new word |
| Sequencer.Step6TakesDcOffsets | v9240.cpp:144-151 | step 6 copies UDCINST into UADCC and IADCINST into IAADCC, clears bits 13 and 12 of SysCtrl, changes no other word, and writes SysCtrl |
| Sequencer.Step19SealsBank | v9240.cpp:189-191 | step 19 changes only the CKSUM slot, makes the bank sum to 0xFFFFFFFF, and writes that word to CKSUM |
| Driver.Wrap | v9240.cpp:213-214 | for byte counts up to the buffer size, the receive position is the count modulo 264, so it always lies inside the buffer |
| Driver.Splice | v9240.cpp:209 | storing bytes at an offset (or words from a slot) changes exactly those positions and no other |
| Driver.Store | v9240.cpp:225 | a copy into one bank leaves the other bank unchanged |
| Driver.CalibrationAddress | v9240.cpp:152-188 | case s of the calibration names the register at position s-7 of the write order |
| Driver.CalcCheck | v9240.cpp:109-112 | the checksum loop over `len` bytes computes `CheckByte` of exactly those bytes |
| Driver.AccumulateWords | v9240.cpp:105 | the summing loop computes the wrapping 32-bit sum of the first n words |
| Driver.CopyWords | v9240.cpp:224-225 | the copy loop stores exactly the k little-endian words at the destination and changes no other slot |
| Driver.V9240.constructor | v9240.cpp:10-63 | both banks start zeroed except the four non-zero calibration defaults; step 0, nothing pending, nothing sent |
| Driver.V9240.Read | v9240.cpp:296-313 | appends exactly the read frame to the output; expects 12 + 4n bytes; resets the byte count; makes `dest` the only pending destination |
| Driver.V9240.Write | v9240.cpp:315-331 | appends exactly the write frame to the output; expects 12 bytes; resets the byte count; keeps the pending destination |
| Driver.V9240.Start | v9240.cpp:71-75 | sets step 0 and sends the status read (0x0CA, 1 word) into read-only slot 0 |
| Driver.V9240.SetChecksum | v9240.cpp:103-107 | changes only the CKSUM slot, leaves the bank summing to 0xFFFFFFFF, and sends the write of that word to 0x109 |
| Driver.V9240.SendNext | v9240.cpp:115-199 | carries out `NextCommand` for the current step: its request, its bank edit, the new step; and no step is scheduled |
| Driver.V9240.BringUpStep | v9240.cpp:118-188 | cases 0-18 carry out `NextCommand` on the old banks |
| Driver.V9240.ConfigureStep | v9240.cpp:118-134 | cases 0-3 carry out `ConfigureCommand` |
| Driver.V9240.OffsetStep | v9240.cpp:135-151 | cases 4-6 carry out `OffsetCommand` |
| Driver.V9240.TakeDcOffsets | v9240.cpp:144-151 | case 6 carries out `OffsetCommand`: the two offsets are taken over, the short is released, and SysCtrl is written |
| Driver.V9240.CalibrationStep | v9240.cpp:152-188 | cases 7-18 carry out `CalibrationCommand` |
| Driver.V9240.PollStep | v9240.cpp:189-198 | case 19, case 20 and the default carry out `PollCommand` |
| Driver.V9240.ReadDataFromPort | v9240.cpp:202-234 | takes at most the free room of the buffer and stores exactly those bytes; wraps the count at 264. Until the count equals the expected length, nothing else changes. At that length it classifies the frame, copies only on `Copied`, clears the counters and the destination, and schedules the next step |
| Driver.V9240.StoreBytes | v9240.cpp:209 | the bytes of the chunk land at the current offset and nowhere else |
| Driver.V9240.HandleFrame | v9240.cpp:218-226 | the outcome is `Classify` of the buffer; the banks change only by the copy of a `Copied` outcome |
| Driver.V9240.StoreReply | v9240.cpp:224-225 | the `memcpy` stores the payload words into the destination bank |

## Left out

- `open`, `close` and `reset`: their serial-port configuration, the baud-102 reset pulse and the blocking wait are I/O on a foreign library.
- `port->write`, `bytesAvailable` and `port->read`: replaced by the `output` field and the `chunk` parameter. Bytes of the chunk beyond the buffer's room stay with the port, as `ReadDataFromPort`'s `consumed` result shows.
- `QTimer::singleShot(25, …)`: the delay and the event loop are not modelled; only the `nextScheduled` flag records that `send_next` is due.
- `value()`: its float scaling and the frequency formula are floating point. Only the slots each quantity reads are modelled (`ParameterSlots`).
- The `volatile` references and `reinterpret_cast` aliasing: replaced by slot constants. Compiler bit-field packing is assumed to be first member in the lowest bits, as the layout comments say.
- Driver.V9240.HandleFrame: the source has undefined behaviour in three cases: a complete frame shorter than 9 bytes (the checksum length underflows), a read response with no pending destination, or a copy count that runs past the end of the bank. The model returns `Fault` in these cases and copies nothing. The usual trigger for the first case is an empty chunk while nothing is pending, because then 0 received bytes equals the expected length of 0.
- Driver.V9240.ReadDataFromPort: the same three undefined cases end in `Fault` with no bank change; the counters are cleared and the next step is scheduled, as on a mismatch.
- Packet.ReadFrame: the `size_t` count is truncated to the 32-bit payload field (`Truncate32`). No read in the model has a count that large.
- Bytes.Accumulate: the contract does not state that the wrapping sum equals the integer sum modulo 2^32. The wrap itself is modelled exactly, as bit-vector addition in `Add32`, and `AccumulateSnoc`, `ChecksumBalances` and `Driver.AccumulateWords` are stated in those terms.
- Sequencer.ChecksumWord: `std::accumulate` sums in signed `int`, which can overflow; the model sums with 32-bit wrap-around, which is what the code evidently relies on.
- BitFields.SysCtrlReadBack: read-back is proved for the five fields the driver assigns (shortu, shorti, adcupdn and adciapdn here, CSEL in `AnaCtrlReadBack`) and for AnaCtrl0.IT, not for a field at an arbitrary symbolic offset.
- `serial_buff` is indeterminate before the first byte arrives in the source; the model starts it zeroed.
- Issuing a request while another is pending is not prevented, and neither is it in the source: `Read` and `Write` replace the pending expectation.

