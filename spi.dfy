/** The default `AsyncTransfer` implementation for an SPI master: a future
    that exchanges the caller's buffer in place, one byte slot at a time,
    sending the slot's byte and then overwriting it with the byte received. */
module Spi {
  import opened Types
  import opened Driver

  /** Which half of the current slot's exchange comes next. */
  datatype State = Sending | Receiving

  /** How many sends of the current round have been accepted but not yet
      answered by a receive: one while `Receiving`. */
  function InFlight(state: State): nat
  {
    if state == Receiving then 1 else 0
  }

  /** The state after one poll of a transfer future, and what the poll
      returned. */
  datatype TransferPoll<E> = TransferPoll(
    data: seq<u8>, offset: nat, state: State,
    sendScript: seq<NbResult<(), E>>, readScript: seq<NbResult<u8, E>>,
    out: Poll<Result<(), E>>)

  /** One poll of a transfer future with buffer `data`, cursor `offset` and
      phase `state`, against a driver whose coming `send` and `read` outcomes
      are `sendScript` and `readScript`. While slots remain: in `Sending`,
      offer the cursor's byte and switch to `Receiving` once it is accepted;
      in `Receiving`, store the received byte at the cursor, advance it and
      switch back to `Sending`. A failure ends the poll with the error and a
      blocked call suspends it, in either phase.

      The cursor never moves back or past the buffer's end, a full buffer is
      always in `Sending`, the poll completes exactly when the buffer is full,
      and the exchange never goes back to a half-step it has passed. */
  function PollTransfer<E>(
    data: seq<u8>, offset: nat, state: State,
    sendScript: seq<NbResult<(), E>>, readScript: seq<NbResult<u8, E>>): (r: TransferPoll<E>)
    requires offset <= |data| && (offset == |data| ==> state == Sending)
    ensures |r.data| == |data|
    ensures offset <= r.offset <= |data| && (r.offset == |data| ==> r.state == Sending)
    ensures r.out == Ready(Ok(())) <==> r.offset == |data|
    ensures offset + InFlight(state) <= r.offset + InFlight(r.state)
    decreases 2 * (|data| - offset) - InFlight(state)
  {
    if offset == |data| then TransferPoll(data, offset, state, sendScript, readScript, Ready(Ok(())))
    else
      match state
      case Sending =>
        (match Next(sendScript)
         case Done(_) =>
           PollTransfer(data, offset, Receiving, Rest(sendScript), readScript)
         case Failed(e) => TransferPoll(data, offset, state, Rest(sendScript), readScript, Ready(Err(e)))
         case NotReady => TransferPoll(data, offset, state, Rest(sendScript), readScript, Pending))
      case Receiving =>
        match Next(readScript)
        case Done(byte) => PollTransfer(data[offset := byte], offset + 1, Sending, sendScript, Rest(readScript))
        case Failed(e) => TransferPoll(data, offset, state, sendScript, Rest(readScript), Ready(Err(e)))
        case NotReady => TransferPoll(data, offset, state, sendScript, Rest(readScript), Pending)
  }

  /** What a poll does to the buffer: the slots before the old cursor and
      from the new cursor on keep their bytes. */
  lemma {:induction false} PollTransferKeepsSlots<E>(
    data: seq<u8>, offset: nat, state: State,
    sendScript: seq<NbResult<(), E>>, readScript: seq<NbResult<u8, E>>)
    requires offset <= |data| && (offset == |data| ==> state == Sending)
    ensures var r := PollTransfer(data, offset, state, sendScript, readScript);
      r.data[..offset] == data[..offset] && r.data[r.offset..] == data[r.offset..]
    decreases 2 * (|data| - offset) - InFlight(state)
  {
    if offset < |data| {
      if state == Sending && Next(sendScript).Done? {
        PollTransferKeepsSlots(data, offset, Receiving, Rest(sendScript), readScript);
      } else if state == Receiving && Next(readScript).Done? {
        var next := data[offset := Next(readScript).value];
        PollTransferKeepsSlots(next, offset + 1, Sending, sendScript, Rest(readScript));
        var r := PollTransfer(next, offset + 1, Sending, sendScript, Rest(readScript));
        assert r.data[..offset] == r.data[..offset + 1][..offset];
        assert next[..offset] == data[..offset];
      }
    }
  }

  /** A poll whose first driver call blocks or fails changes nothing but the
      script of the primitive it called: buffer, cursor and phase stay, in
      either phase, and the outcome is the one reported. */
  lemma PollTransferStopsAtOnce<E>(
    data: seq<u8>, offset: nat, state: State,
    sendScript: seq<NbResult<(), E>>, readScript: seq<NbResult<u8, E>>)
    requires offset < |data|
    ensures var r := PollTransfer(data, offset, state, sendScript, readScript);
      && (state == Sending && !Next(sendScript).Done? ==>
            r == TransferPoll(data, offset, state, Rest(sendScript), readScript, r.out)
            && Halts(Next(sendScript), r.out))
      && (state == Receiving && !Next(readScript).Done? ==>
            r == TransferPoll(data, offset, state, sendScript, Rest(readScript), r.out)
            && Halts(Next(readScript), r.out))
  {
  }

  /** What remains of a poll after an accepted send: the rest of the poll
      continues from the same slot in `Receiving`. */
  lemma SendThenContinue<E>(
    data: seq<u8>, offset: nat, sendScript: seq<NbResult<(), E>>, readScript: seq<NbResult<u8, E>>)
    requires offset < |data| && Next(sendScript).Done?
    ensures PollTransfer(data, offset, Sending, sendScript, readScript)
      == PollTransfer(data, offset, Receiving, Rest(sendScript), readScript)
  {
  }

  /** What remains of a poll after a received byte: the rest of the poll
      continues from the next slot in `Sending`, with the byte stored. */
  lemma ReceiveThenContinue<E>(
    data: seq<u8>, offset: nat, sendScript: seq<NbResult<(), E>>, readScript: seq<NbResult<u8, E>>)
    requires offset < |data| && Next(readScript).Done?
    ensures PollTransfer(data, offset, Receiving, sendScript, readScript)
      == PollTransfer(data[offset := Next(readScript).value], offset + 1, Sending, sendScript, Rest(readScript))
  {
  }

  /** The transfer invariant, over values: `original` is the caller's
      buffer, `data`, `offset` and `state` the future's, and `sent` and
      `received` the bytes this transfer has had accepted and has received.
      The cursor stays within the buffer and a full buffer is in `Sending`;
      the slots from the cursor on still hold the caller's bytes; the driver
      has accepted the original byte of every finished slot and, in
      `Receiving`, of the cursor's slot, each once and in order; and the
      finished slots hold exactly the bytes received, in order. */
  ghost predicate Exchanged(original: seq<u8>, data: seq<u8>, offset: nat, state: State, sent: seq<u8>, received: seq<u8>)
  {
    && offset <= |data| && (offset == |data| ==> state == Sending)
    && |original| == |data|
    && data[offset..] == original[offset..]
    && sent == original[..offset + InFlight(state)]
    && received == data[..offset]
  }

  /** An accepted send keeps the invariant: the byte offered is the slot's
      original byte, and the slot is now in flight, so it is not offered
      again. */
  lemma SendKeepsExchanged(original: seq<u8>, data: seq<u8>, offset: nat, sent: seq<u8>, received: seq<u8>)
    requires Exchanged(original, data, offset, Sending, sent, received) && offset < |data|
    ensures data[offset] == original[offset]
    ensures Exchanged(original, data, offset, Receiving, sent + [data[offset]], received)
  {
    assert data[offset] == data[offset..][0];
    assert original[..offset + 1] == original[..offset] + [original[offset]];
  }

  /** A received byte keeps the invariant: it is stored in the slot in
      flight, the cursor moves past it, and the next slot is still
      untouched and unsent. */
  lemma ReceiveKeepsExchanged(original: seq<u8>, data: seq<u8>, offset: nat, sent: seq<u8>, received: seq<u8>, byte: u8)
    requires Exchanged(original, data, offset, Receiving, sent, received)
    ensures offset < |data|
    ensures Exchanged(original, data[offset := byte], offset + 1, Sending, sent, received + [byte])
  {
    var data' := data[offset := byte];
    assert data'[..offset + 1] == data[..offset] + [byte];
    assert data'[offset + 1..] == data[offset + 1..];
    assert data[offset + 1..] == data[offset..][1..];
    assert original[offset + 1..] == original[offset..][1..];
  }

  /** `DefaultTransferFuture` */
  class TransferFuture<E> {
    const spi: SpiDriver<E>
    const data: array<u8>
    var offset: nat
    var state: State
    ghost const original: seq<u8>        // the buffer when the transfer began
    ghost const sentBefore: seq<u8>      // the driver's logs when it began
    ghost const receivedBefore: seq<u8>
    ghost var sent: seq<u8>              // bytes this transfer has had accepted
    ghost var received: seq<u8>          // bytes this transfer has received

    ghost predicate Valid()
      reads this, data, spi
    {
      && spi.sent == sentBefore + sent
      && spi.received == receivedBefore + received
      && Exchanged(original, data[..], offset, state, sent, received)
    }

    /** `async_transfer` */
    constructor (spi: SpiDriver<E>, data: array<u8>)
      ensures Valid()
      ensures this.spi == spi && this.data == data && offset == 0 && state == Sending
      ensures original == data[..] && sentBefore == spi.sent && receivedBefore == spi.received
    {
      this.spi, this.data, offset, state := spi, data, 0, Sending;
      original, sentBefore, receivedBefore := data[..], spi.sent, spi.received;
      sent, received := [], [];
    }

    /** The `Sending` arm of a poll: offer the cursor's byte once. An
        accepted byte puts the slot in flight. */
    method SendSlot() returns (o: NbResult<(), E>)
      requires Valid() && state == Sending && offset < data.Length
      modifies this`state, this`sent, spi
      ensures Valid()
      ensures o == Next(old(spi.sendScript)) && spi.sendScript == Rest(old(spi.sendScript))
      ensures spi.readScript == old(spi.readScript) && spi.calls == old(spi.calls) + 1
      ensures o.Done? ==> state == Receiving && sent == old(sent) + [data[offset]]
      ensures !o.Done? ==> state == Sending && sent == old(sent)
      ensures var r := PollTransfer(data[..], offset, Sending, old(spi.sendScript), old(spi.readScript));
        if o.Done? then PollTransfer(data[..], offset, state, spi.sendScript, spi.readScript) == r
        else && data[..] == r.data && offset == r.offset && state == r.state
             && spi.sendScript == r.sendScript && spi.readScript == r.readScript && Halts(o, r.out)
    {
      if Next(spi.sendScript).Done? {
        SendThenContinue(data[..], offset, spi.sendScript, spi.readScript);
      } else {
        PollTransferStopsAtOnce(data[..], offset, state, spi.sendScript, spi.readScript);
      }
      var byte := data[offset];
      o := spi.Send(byte);
      if o.Done? {
        SendKeepsExchanged(original, data[..], offset, sent, received);
        sent := sent + [byte];
        state := Receiving;
      }
    }

    /** The `Receiving` arm of a poll: take the byte clocked in once. A
        received byte overwrites the slot in flight and finishes it. */
    method ReceiveSlot() returns (o: NbResult<u8, E>)
      requires Valid() && state == Receiving
      modifies this`offset, this`state, this`received, data, spi
      ensures Valid()
      ensures o == Next(old(spi.readScript)) && spi.readScript == Rest(old(spi.readScript))
      ensures spi.sendScript == old(spi.sendScript) && spi.calls == old(spi.calls) + 1
      ensures old(offset) < data.Length
      ensures o.Done? ==> data[..] == old(data[..])[old(offset) := o.value] && offset == old(offset) + 1 && state == Sending
      ensures !o.Done? ==> data[..] == old(data[..]) && offset == old(offset) && state == Receiving
      ensures var r := PollTransfer(old(data[..]), old(offset), Receiving, old(spi.sendScript), old(spi.readScript));
        if o.Done? then PollTransfer(data[..], offset, state, spi.sendScript, spi.readScript) == r
        else && data[..] == r.data && offset == r.offset && state == r.state
             && spi.sendScript == r.sendScript && spi.readScript == r.readScript && Halts(o, r.out)
    {
      if Next(spi.readScript).Done? {
        ReceiveThenContinue(data[..], offset, spi.sendScript, spi.readScript);
      } else {
        PollTransferStopsAtOnce(data[..], offset, state, spi.sendScript, spi.readScript);
      }
      o := spi.Read();
      if o.Done? {
        ghost var before := data[..];
        ReceiveKeepsExchanged(original, before, offset, sent, received, o.value);
        data[offset] := o.value;
        assert data[..] == before[offset := o.value];
        received := received + [o.value];
        offset := offset + 1;
        state := Sending;
      }
    }

    method Poll(cx: Waker) returns (p: Poll<Result<(), E>>)
      requires Valid()
      modifies this`offset, this`state, this`sent, this`received, data, spi, cx
      ensures Valid()
      ensures var r := PollTransfer(old(data[..]), old(offset), old(state), old(spi.sendScript), old(spi.readScript));
        && data[..] == r.data && offset == r.offset && state == r.state && p == r.out
        && spi.sendScript == r.sendScript && spi.readScript == r.readScript
      ensures spi.calls == old(spi.calls) + (|sent| - |old(sent)|) + (offset - old(offset))
                           + (if p == Ready(Ok(())) then 0 else 1)
      ensures cx.wakes == old(cx.wakes) + (if p.Pending? then 1 else 0)
    {
      ghost var spec := PollTransfer(data[..], offset, state, spi.sendScript, spi.readScript);
      while offset < data.Length
        invariant Valid()
        invariant old(offset) <= offset
        invariant PollTransfer(data[..], offset, state, spi.sendScript, spi.readScript) == spec
        invariant spi.calls == old(spi.calls) + (|sent| - |old(sent)|) + (offset - old(offset))
        invariant cx.wakes == old(cx.wakes)
        decreases 2 * (data.Length - offset) - InFlight(state)
      {
        match state {
          case Sending =>
            var o := SendSlot();
            match o {
              case Done(_) =>
              case Failed(e) =>
                return Ready(Err(e));
              case NotReady =>
                cx.WakeByRef();
                return Pending;
            }
          case Receiving =>
            var o := ReceiveSlot();
            match o {
              case Done(_) =>
              case Failed(e) =>
                return Ready(Err(e));
              case NotReady =>
                cx.WakeByRef();
                return Pending;
            }
        }
      }
      return Ready(Ok(()));
    }
  }

  // ---------------------------------------------------------------------
  // Driving a transfer to completion

  /** Where an executor that keeps polling a transfer stands: the buffer, how
      many polls returned `Pending`, and the final result, or `Pending` if
      the polls allowed ran out first. */
  datatype Run<E> = Run(data: seq<u8>, pendings: nat, out: Poll<Result<(), E>>)

  /** Polls a transfer, at most `fuel` times, until one returns `Ready`. */
  function Drive<E>(
    data: seq<u8>, offset: nat, state: State,
    sendScript: seq<NbResult<(), E>>, readScript: seq<NbResult<u8, E>>, fuel: nat): (run: Run<E>)
    requires offset <= |data| && (offset == |data| ==> state == Sending)
    ensures |run.data| == |data| && run.pendings <= fuel
    decreases fuel
  {
    if fuel == 0 then Run(data, 0, Pending)
    else
      var r := PollTransfer(data, offset, state, sendScript, readScript);
      if r.out.Pending? then
        var run := Drive(r.data, r.offset, r.state, r.sendScript, r.readScript, fuel - 1);
        run.(pendings := run.pendings + 1)
      else Run(r.data, 0, r.out)
  }

  /** A `send` script that blocks once before accepting each of `n` bytes. */
  function SlowSends<E>(n: nat): seq<NbResult<(), E>>
  {
    if n == 0 then [] else [NotReady, Done(())] + SlowSends(n - 1)
  }

  /** A `read` script that blocks once before delivering each byte of `bytes`. */
  function SlowReads<E>(bytes: seq<u8>): seq<NbResult<u8, E>>
  {
    if bytes == [] then [] else [NotReady, Done(bytes[0])] + SlowReads(bytes[1..])
  }

  /** An executor's view of one `Pending` poll: the run goes on from the
      state that poll left, with one more `Pending` counted. */
  lemma DriveAfterPending<E>(
    data: seq<u8>, offset: nat, state: State,
    sendScript: seq<NbResult<(), E>>, readScript: seq<NbResult<u8, E>>, fuel: nat)
    requires offset <= |data| && (offset == |data| ==> state == Sending) && fuel > 0
    requires PollTransfer(data, offset, state, sendScript, readScript).out.Pending?
    ensures var r := PollTransfer(data, offset, state, sendScript, readScript);
      var run := Drive(r.data, r.offset, r.state, r.sendScript, r.readScript, fuel - 1);
      Drive(data, offset, state, sendScript, readScript, fuel) == run.(pendings := run.pendings + 1)
  {
  }

  /** The first poll of a slot whose send blocks once. */
  lemma SlowSendBlocks<E>(data: seq<u8>, i: nat, sends: seq<NbResult<(), E>>, incoming: seq<NbResult<u8, E>>)
    requires i < |data|
    ensures PollTransfer(data, i, Sending, [NotReady, Done(())] + sends, incoming)
      == TransferPoll(data, i, Sending, [Done(())] + sends, incoming, Pending)
  {
    assert Rest([NotReady, Done(())] + sends) == [Done(())] + sends;
  }

  /** The second poll of a slot: the send is accepted and the read blocks
      once. */
  lemma SlowReadBlocks<E>(data: seq<u8>, i: nat, sends: seq<NbResult<(), E>>, b: u8, incoming: seq<NbResult<u8, E>>)
    requires i < |data|
    ensures PollTransfer(data, i, Sending, [Done(())] + sends, [NotReady, Done(b)] + incoming)
      == TransferPoll(data, i, Receiving, sends, [Done(b)] + incoming, Pending)
  {
    assert Rest([Done(())] + sends) == sends;
    assert Rest([NotReady, Done(b)] + incoming) == [Done(b)] + incoming;
    SendThenContinue(data, i, [Done(())] + sends, [NotReady, Done(b)] + incoming);
  }

  /** Two runs whose first polls agree agree altogether. */
  lemma DriveSameFirstPoll<E>(
    data: seq<u8>, offset: nat, state: State, sendScript: seq<NbResult<(), E>>, readScript: seq<NbResult<u8, E>>,
    data': seq<u8>, offset': nat, state': State, sendScript': seq<NbResult<(), E>>, readScript': seq<NbResult<u8, E>>,
    fuel: nat)
    requires offset <= |data| && (offset == |data| ==> state == Sending)
    requires offset' <= |data'| && (offset' == |data'| ==> state' == Sending)
    requires fuel > 0
    requires PollTransfer(data, offset, state, sendScript, readScript) == PollTransfer(data', offset', state', sendScript', readScript')
    ensures Drive(data, offset, state, sendScript, readScript, fuel) == Drive(data', offset', state', sendScript', readScript', fuel)
  {
  }

  /** One slot of the slow transfer: from the start of slot `i`, two polls
      are `Pending` and the third stores the slot's byte and carries on from
      the start of slot `i + 1`. */
  lemma SlowSlot<E>(bytes: seq<u8>, data: seq<u8>, i: nat, fuel: nat)
    requires |data| == |bytes| && i < |bytes| && fuel >= 3
    ensures var n := |bytes|;
      var run := Drive(data[i := bytes[i]], i + 1, Sending, SlowSends<E>(n - i - 1), SlowReads<E>(bytes[i + 1..]), fuel - 2);
      Drive(data, i, Sending, SlowSends<E>(n - i), SlowReads<E>(bytes[i..]), fuel) == run.(pendings := run.pendings + 2)
  {
    var n := |bytes|;
    var sends := SlowSends<E>(n - i - 1);
    var incoming := SlowReads<E>(bytes[i + 1..]);
    assert bytes[i..][1..] == bytes[i + 1..];
    assert SlowReads<E>(bytes[i..]) == [NotReady, Done(bytes[i])] + incoming;
    // first poll: the send blocks
    SlowSendBlocks(data, i, sends, SlowReads<E>(bytes[i..]));
    DriveAfterPending(data, i, Sending, SlowSends<E>(n - i), SlowReads<E>(bytes[i..]), fuel);
    // second poll: the send goes through and the read blocks
    SlowReadBlocks(data, i, sends, bytes[i], incoming);
    DriveAfterPending(data, i, Sending, [Done(())] + sends, SlowReads<E>(bytes[i..]), fuel - 1);
    // third poll: the read goes through and slot `i + 1` starts
    ReceiveThenContinue(data, i, sends, [Done(bytes[i])] + incoming);
    assert Rest([Done(bytes[i])] + incoming) == incoming;
    DriveSameFirstPoll(data, i, Receiving, sends, [Done(bytes[i])] + incoming,
                       data[i := bytes[i]], i + 1, Sending, sends, incoming, fuel - 2);
  }

  /** Once every slot holds its byte, the next poll completes the transfer
      at once. */
  lemma SlowTransferEnds<E>(bytes: seq<u8>, data: seq<u8>)
    requires |data| == |bytes| && data[..|bytes|] == bytes
    ensures Drive(data, |bytes|, Sending, SlowSends<E>(0), SlowReads<E>(bytes[|bytes|..]), 1)
      == Run(bytes, 0, Ready(Ok(())))
  {
    assert data == data[..|bytes|];
  }

  /** From the start of slot `i`, with the slots before it already holding
      the bytes received, the rest of the transfer takes two `Pending` polls
      per remaining slot and then completes with the buffer holding the
      received bytes. */
  lemma {:induction false} SlowTransferFrom<E>(bytes: seq<u8>, data: seq<u8>, i: nat)
    requires |data| == |bytes| && i <= |bytes|
    requires data[..i] == bytes[..i]
    ensures var n := |bytes|;
      Drive(data, i, Sending, SlowSends<E>(n - i), SlowReads<E>(bytes[i..]), 2 * (n - i) + 1)
        == Run(bytes, 2 * (n - i), Ready(Ok(())))
    decreases |bytes| - i
  {
    var n := |bytes|;
    if i == n {
      SlowTransferEnds<E>(bytes, data);
    } else {
      var data' := data[i := bytes[i]];
      assert data'[..i + 1] == bytes[..i + 1];
      var fuel := 2 * (n - i) + 1;
      SlowTransferFrom<E>(bytes, data', i + 1);
      var rest := Drive(data', i + 1, Sending, SlowSends<E>(n - i - 1), SlowReads<E>(bytes[i + 1..]), fuel - 2);
      assert rest == Run(bytes, 2 * (n - i - 1), Ready(Ok(())));
      SlowSlot<E>(bytes, data, i, fuel);
    }
  }

  /** With a driver that blocks once before every successful `send` and
      every successful `read`, an n-byte transfer is `Pending` on exactly 2n
      polls and completes on the next, leaving the received bytes in the
      buffer in order. */
  lemma SlowTransfer<E>(data: seq<u8>, bytes: seq<u8>)
    requires |data| == |bytes|
    ensures var n := |bytes|;
      Drive(data, 0, Sending, SlowSends<E>(n), SlowReads<E>(bytes), 2 * n + 1)
        == Run(bytes, 2 * n, Ready(Ok(())))
  {
    assert bytes[0..] == bytes;
    SlowTransferFrom<E>(bytes, data, 0);
  }
}
