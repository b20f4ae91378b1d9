# async-embedded-traits, modelled in Dafny

`async-embedded-traits` declares `async` interfaces for embedded peripherals: delays, serial ports, SPI and I2C. It also
supplies default adapters that turn an `embedded-hal` driver's single-attempt operations (`nb::Result`: done, failed or
"would block") into futures that a cooperative executor polls until they are ready.

This project models the parts of the crate that hold logic:

- **Serial futures** (`Serial`): the five serial futures. `ReadByte`, `WriteByte` and `Flush` make one driver call
  per poll. `Read` fills the caller's buffer through a cursor. `Write` shrinks the caller's slice as bytes are accepted.
- **SPI transfer** (`Spi`): the full-duplex transfer future. It alternates a `Sending` and a `Receiving` phase per
  byte slot and overwrites each slot with the byte received.
- **I2C addresses** (`I2c`): the range-checked 7-bit and 10-bit address wrappers.
- **Delays** (`Delay`): the macro-generated delay methods that widen or convert a duration and forward it to the
  canonical implementation.

Every future is a class with the source's fields. Its `Poll` method has the source's loop, and its result and new state
are proved equal to a pure function of the old state (`PollRead`, `PollWrite`, `PollTransfer`). The properties are
proved about those functions and about value-level invariants (`Filled`, `Drained`, `Exchanged`) that each poll keeps.

The driver behind a future (`Driver`) is a scripted oracle. Each primitive (`read`, `write`, `flush`, `send`) has the
sequence of outcomes its successive calls yield. Ghost logs record the bytes the driver accepted or handed out. An
exhausted script answers "would block" for ever. The task's waker (`Types.Waker`) counts its `wake_by_ref` calls.

`impl_delay_ms_for_us_u64` widens the `u32` to `u64` before multiplying by 1000, and `(2^32 - 1) * 1000 < 2^64`,
so the product cannot overflow; `Delay.DelayMsU32` proves it fits.

## Model

| member | source | states |
|---|---|---|
| Types.Waker.WakeByRef | src/serial.rs:89 | each `wake_by_ref` adds exactly one wake-up |
| Driver.SerialDriver.constructor | src/serial.rs:57 | a port starts with its scripts, no calls made and empty logs |
| Driver.SerialDriver.Read | src/serial.rs:107 | one `read` consumes one scripted outcome, counts one call and logs the byte of a `Done` |
| Driver.SerialDriver.Write | src/serial.rs:193 | one `write` consumes one scripted outcome, counts one call and logs the byte only if it was accepted |
| Driver.SerialDriver.Flush | src/serial.rs:217 | one `flush` consumes one scripted outcome and changes nothing else but the call count |
| Driver.SpiDriver.constructor | src/spi.rs:49 | an SPI master starts with its scripts, no calls made and empty logs |
| Driver.SpiDriver.Send | src/spi.rs:85 | one `send` consumes one scripted outcome and logs the byte only if it was accepted |
| Driver.SpiDriver.Read | src/spi.rs:100 | one `read` consumes one scripted outcome and logs the byte of a `Done` |
| Serial.Complete | src/serial.rs:85-92 | a single-shot poll is `Pending` exactly when the driver would block, and ready with `Ok` exactly when the call succeeded, carrying the driver's value or error |
| Serial.CompleteReportsOutcome | src/serial.rs:84-93 | a single-shot poll result and the driver outcome determine each other: `Observed` inverts `Complete` in both directions |
| Serial.ReadByteFuture.constructor | src/serial.rs:64-66 | `async_read_byte` borrows the port |
| Serial.ReadByteFuture.Poll | src/serial.rs:84-93 | one `read` per poll, reported as `Complete` of its outcome; the received byte is logged; the waker is woken exactly on `Pending` |
| Serial.PollRead | src/serial.rs:105-124 | a read poll keeps the buffer's length, moves the cursor only forward and within the buffer, completes exactly when the buffer is full, and leaves the slots before the old cursor and from the new cursor on unchanged |
| Serial.PollReadStoresScript | src/serial.rs:106-112 | the bytes a read poll stores are the values of the port's first outcomes, all `Done`, in order, one slot each from the cursor on |
| Serial.PollReadStopsOnScript | src/serial.rs:114-120 | a read poll that does not fill the buffer consumes exactly one more outcome and reports it: `Failed(e)` as `Ready(Err(e))`, would-block as `Pending`; a full buffer consumes nothing more |
| Serial.ReadThenContinue | src/serial.rs:107-120 | one pass of the read loop: a byte is stored at the cursor and the poll goes on from the next slot; any other outcome ends the poll with buffer and cursor untouched |
| Serial.PollReadBoundaryCases | src/serial.rs:106-123 | a full (or empty) buffer completes at once and consumes nothing; a port that would block leaves the poll `Pending` with no progress |
| Serial.ReadKeepsFilled | src/serial.rs:108-111 | storing a received byte keeps the read invariant: the filled slots are exactly the bytes received, the rest still the caller's |
| Serial.ReadFuture.constructor | src/serial.rs:68-73 | `async_read` starts at cursor 0 over the caller's buffer, with the read invariant holding |
| Serial.ReadFuture.ReadSlot | src/serial.rs:107-112 | one pass of the read loop on the future's state: one `read`, a byte stored at the cursor, and the rest of the poll as `PollRead` prescribes |
| Serial.ReadFuture.Poll | src/serial.rs:105-124 | the buffer, cursor, port script and result after a poll are those of `PollRead`; the read invariant holds across polls; one call per stored byte plus one unless complete; one wake-up exactly on `Pending` |
| Serial.PollWrite | src/serial.rs:191-206 | a write poll never grows the slice and completes exactly when the slice is empty |
| Serial.PollWriteFollowsScript | src/serial.rs:192-203 | a write poll drops exactly the first `k` bytes, accepted by the port's first `k` outcomes, all `Done`; if bytes remain, the next outcome is consumed and reported |
| Serial.WriteByteFuture.constructor | src/serial.rs:149-151 | `async_write_byte` stores the byte |
| Serial.WriteByteFuture.Poll | src/serial.rs:170-180 | one `write` of the stored byte per poll, reported as `Complete` of its outcome; the byte is logged only when accepted; one wake-up exactly on `Pending` |
| Serial.WriteKeepsDrained | src/serial.rs:194-197 | an accepted byte keeps the write invariant: the caller's slice is the bytes accepted followed by the slice left, so each byte is sent once and in order |
| Serial.WriteFuture.constructor | src/serial.rs:153-155 | `async_write` keeps the caller's slice, with the write invariant holding |
| Serial.WriteFuture.Poll | src/serial.rs:191-206 | the slice left, the port script and the result after a poll are those of `PollWrite`; the port has accepted exactly the caller's bytes so far, in order; one wake-up exactly on `Pending` |
| Serial.FlushFuture.constructor | src/serial.rs:157-159 | `async_flush` borrows the port |
| Serial.FlushFuture.Poll | src/serial.rs:216-225 | one `flush` per poll, reported as `Complete` of its outcome, with no byte sent or received; one wake-up exactly on `Pending` |
| Spi.PollTransfer | src/spi.rs:80-120 | a transfer poll keeps the buffer's length, never moves the cursor back or past the end, is in `Sending` whenever the buffer is full, completes exactly when it is full, and never returns to a half-step it has passed |
| Spi.PollTransferKeepsSlots | src/spi.rs:99-106 | a transfer poll leaves the slots before the old cursor and from the new cursor on unchanged |
| Spi.PollTransferStopsAtOnce | src/spi.rs:85-115 | a poll whose first call fails or would block, in either phase, consumes that one outcome, reports it and changes nothing else |
| Spi.SendThenContinue | src/spi.rs:83-89 | after an accepted send the poll goes on from the same slot in `Receiving` |
| Spi.ReceiveThenContinue | src/spi.rs:99-107 | after a received byte the poll goes on from the next slot in `Sending`, with the byte stored |
| Spi.SendKeepsExchanged | src/spi.rs:84-88 | the byte offered is the slot's original byte, and after it is accepted the slot is in flight and counted as sent |
| Spi.ReceiveKeepsExchanged | src/spi.rs:100-106 | a received byte is stored in the slot in flight and the next slot is still untouched and unsent |
| Spi.TransferFuture.constructor | src/spi.rs:55-62 | `async_transfer` starts at cursor 0 in `Sending` over the caller's buffer, with the transfer invariant holding |
| Spi.TransferFuture.SendSlot | src/spi.rs:83-98 | the `Sending` arm: one `send` of the cursor's byte; when accepted the slot is in flight; the rest of the poll is as `PollTransfer` prescribes |
| Spi.TransferFuture.ReceiveSlot | src/spi.rs:99-116 | the `Receiving` arm: one `read`; a byte overwrites the slot in flight and the cursor advances; the rest of the poll is as `PollTransfer` prescribes |
| Spi.TransferFuture.Poll | src/spi.rs:80-120 | buffer, cursor, phase, scripts and result after a poll are those of `PollTransfer`; across polls the driver has accepted each slot's original byte exactly once, in order, and the finished slots hold the bytes received; one call per half-step plus one unless complete; one wake-up exactly on `Pending` |
| Spi.Drive | src/spi.rs:93-95 | an executor that re-polls after each `Pending` keeps the buffer's length and counts no more `Pending` polls than it made |
| Spi.DriveAfterPending | src/spi.rs:93-95 | after a `Pending` poll the run goes on from the state that poll left, one `Pending` more |
| Spi.DriveSameFirstPoll | src/spi.rs:80-120 | two runs whose first polls agree agree altogether |
| Spi.SlowSendBlocks | src/spi.rs:93-95 | with a send that would block once, the first poll of a slot is `Pending` and stays in `Sending` |
| Spi.SlowReadBlocks | src/spi.rs:86-113 | the next poll gets the send accepted and is `Pending` on the read, in `Receiving` |
| Spi.SlowSlot | src/spi.rs:83-116 | a slot whose send and read each block once takes two `Pending` polls, and its third poll stores the byte and starts the next slot |
| Spi.SlowTransferEnds | src/spi.rs:119 | once every slot is done, the next poll completes with the buffer unchanged |
| Spi.SlowTransferFrom | src/spi.rs:80-120 | from slot `i`, the rest of such a transfer takes exactly two `Pending` polls per remaining slot and then completes with the received bytes in the buffer |
| Spi.SlowTransfer | src/spi.rs:55-120 | an n-byte transfer over a driver that blocks once before every send and read is `Pending` on exactly 2n polls, completes on the next, and leaves the received bytes in the buffer in order |
| I2c.TryFrom7Bit | src/i2c.rs:19-25 | a 7-bit address is accepted exactly when below 0x80, keeps its value (`IntoU8` gives it back) and is valid; otherwise the result is `AddressRangeError` |
| I2c.TryFrom10Bit | src/i2c.rs:44-50 | a 10-bit address is accepted exactly when below 0x400, keeps its value (`IntoU16` gives it back) and is valid; otherwise the result is `AddressRangeError` |
| I2c.IntoU8 | src/i2c.rs:28-32 | a 7-bit wrapper converts to a value below 0x80 exactly when it is valid |
| I2c.IntoU16 | src/i2c.rs:53-57 | a 10-bit wrapper converts to a value below 0x400 exactly when it is valid |
| I2c.SevenBitRebuilds | src/i2c.rs:28-32 | every valid 7-bit address is rebuilt, unchanged, from the `u8` it converts to |
| I2c.TenBitRebuilds | src/i2c.rs:53-57 | every valid 10-bit address is rebuilt, unchanged, from the `u16` it converts to |
| I2c.AddressBoundaries | src/i2c.rs:15-50 | 127 and 1023 are accepted; 128 and 1024 are rejected with `AddressRangeError` |
| Delay.I32AsU32 | src/delay.rs:58 | `as u32` on an `i32` keeps the value modulo 2^32 |
| Delay.DelayMsU16 | src/delay.rs:38-40 | a `u16` millisecond delay reaches `AsyncDelayMs<u32>` as the same length of time |
| Delay.DelayMsU8 | src/delay.rs:47-49 | a `u8` millisecond delay reaches `AsyncDelayMs<u32>` as the same length of time |
| Delay.DelayMsI32 | src/delay.rs:56-59 | an `i32` millisecond delay is forwarded exactly when non-negative, as the same length of time; a negative one aborts |
| Delay.DelayUsU16 | src/delay.rs:73-75 | a `u16` microsecond delay reaches `AsyncDelayUs<u32>` as the same length of time |
| Delay.DelayUsU8 | src/delay.rs:82-84 | a `u8` microsecond delay reaches `AsyncDelayUs<u32>` as the same length of time |
| Delay.DelayUsI32 | src/delay.rs:91-94 | an `i32` microsecond delay is forwarded exactly when non-negative, as the same length of time; a negative one aborts |
| Delay.DelayUsU32 | src/delay.rs:108-110 | a `u32` microsecond delay reaches `AsyncDelayUs<u64>` as the same length of time |
| Delay.DelayMsU32 | src/delay.rs:125-127 | a `u32` millisecond delay reaches `AsyncDelayUs<u64>` as 1000 times as many microseconds, without overflow |
| Delay.ToUsU64 | src/delay.rs:102-131 | on a provider built from `AsyncDelayUs<u64>`, every canonical call reaches the primitive as the same length of time |
| Delay.NarrowDelaysReachPrimitive | src/delay.rs:120-131 | on such a provider every `u8`, `u16` and non-negative `i32` delay, in either unit, reaches the primitive with its value in microseconds |
| Delay.FiveMillisAsU8 | src/delay.rs:47-49 | a 5 ms delay given as a `u8` reaches the primitive as 5000 µs |
| Delay.NegativeWouldWrap | src/delay.rs:56-59 | without the assertion, a delay of -1 would become 2^32 - 1 units; with it, the call aborts |

## Left out

- The executor, `Context` and `Pin` are not modelled. The waker only counts `wake_by_ref` calls. Re-polling is modelled
  only by `Spi.Drive`, for the SPI transfer scenario.
- `Spi.Drive`: runs for at most `fuel` polls; a run that needs more ends with `Pending`. The lemmas supply enough fuel.
- The hardware drivers (`embedded_hal::serial::Read`/`Write`, `spi::FullDuplex`) are outside the crate. They are
  modelled by outcome scripts, and an exhausted script stands for a driver that never becomes ready again.
- The exclusive borrows that let a future own its port and buffer are not modelled. Nothing in the model stops two
  futures from sharing a driver or an array; each future's invariant speaks only of its own bytes.
- The trait declarations carry no logic and are not modelled. These are `AsyncDelayMs`, `AsyncDelayUs`,
  `AsyncRead`, `AsyncWrite`, `AsyncTransfer`, the SPI `AsyncWrite` and `AsyncWriteIter`, `AsyncI2cTransfer` and
  `AsyncI2cWrite`.
- The marker traits, the sealed `I2cAddressType`, the blanket implementations, generic associated types and lifetimes
  are type-level only and are not modelled.
- src/prelude.rs and src/lib.rs only re-export and declare modules; they are not part of this model.
- The delay futures themselves are not modelled. They come from the canonical implementation, which the crate does not
  contain. The model stops at the call each method forwards.
- The panic of a failed `assert!` in the `i32` delay paths is modelled as the value `Abort`; unwinding is not modelled.
- `Spi.PollTransfer`'s result does not list the bytes a poll sends. Those bytes are fixed by the cursor and phase before
  and after the poll, and `Spi.Exchanged` states them: the original bytes of every slot up to the one in flight.
- A future polled again after it returned `Ready` simply resumes from its state. The model allows this, and the source
  does not forbid it.
