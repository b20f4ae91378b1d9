/** The default `AsyncRead` / `AsyncWrite` implementations for a serial
    port: five futures that turn the port's single-attempt `read`, `write`
    and `flush` into operations a cooperative executor polls to completion. */
module Serial {
  import opened Types
  import opened Driver

  /** What one poll of a single-shot future reports for one driver outcome:
      `Ok(v)` becomes `Ready(Ok(v))`, `Other(e)` becomes `Ready(Err(e))` and
      `WouldBlock` becomes `Pending`. A poll is pending exactly when the
      driver would block, and a ready poll succeeds exactly when the driver
      call did, carrying the driver's value or error. */
  function Complete<T, E>(o: NbResult<T, E>): (r: Poll<Result<T, E>>)
    ensures r.Pending? <==> o.NotReady?
    ensures r.Ready? && r.value.Ok? <==> o.Done?
    ensures o.Done? ==> r.value.value == o.value
    ensures o.Failed? ==> r.value.Err? && r.value.error == o.error
  {
    match o
    case Done(v) => Ready(Ok(v))
    case Failed(e) => Ready(Err(e))
    case NotReady => Pending
  }

  /** The driver outcome a single-shot poll result stands for. */
  function Observed<T, E>(p: Poll<Result<T, E>>): NbResult<T, E>
  {
    match p
    case Ready(Ok(v)) => Done(v)
    case Ready(Err(e)) => Failed(e)
    case Pending => NotReady
  }

  /** A single-shot poll loses nothing and invents nothing: its result
      determines the driver's outcome, and every poll result is the report
      of exactly one outcome. */
  lemma CompleteReportsOutcome<T, E>(o: NbResult<T, E>, p: Poll<Result<T, E>>)
    ensures Observed(Complete(o)) == o
    ensures Complete(Observed(p)) == p
  {
  }

  // ---------------------------------------------------------------------
  // Receiving into a buffer (`DefaultReadFuture`)

  /** The state after one poll of a read future, and what the poll returned. */
  datatype ReadPoll<E> = ReadPoll(data: seq<u8>, offset: nat, readScript: seq<NbResult<u8, E>>, out: Poll<Result<(), E>>)

  /** One poll of a read future whose buffer is `data` and whose cursor is
      `offset`, against a port whose coming `read` outcomes are `readScript`: take
      bytes while they are ready, storing each at the cursor, until the buffer
      is full, the port fails, or the port would block. */
  function PollRead<E>(data: seq<u8>, offset: nat, readScript: seq<NbResult<u8, E>>): (r: ReadPoll<E>)
    requires offset <= |data|
    ensures |r.data| == |data| && offset <= r.offset <= |data|
    ensures r.out == Ready(Ok(())) <==> r.offset == |data|
    ensures r.data[..offset] == data[..offset]
    ensures r.data[r.offset..] == data[r.offset..]
    decreases |data| - offset
  {
    if offset == |data| then ReadPoll(data, offset, readScript, Ready(Ok(())))
    else
      match Next(readScript)
      case Done(byte) => PollRead(data[offset := byte], offset + 1, Rest(readScript))
      case Failed(e) => ReadPoll(data, offset, Rest(readScript), Ready(Err(e)))
      case NotReady => ReadPoll(data, offset, Rest(readScript), Pending)
  }

  /** The bytes a read poll stores are the values of the port's first
      outcomes, all of them `Done`, in order, one slot each from the cursor
      on. */
  lemma {:induction false} PollReadStoresScript<E>(data: seq<u8>, offset: nat, readScript: seq<NbResult<u8, E>>)
    requires offset <= |data|
    decreases |data| - offset
    ensures var r := PollRead(data, offset, readScript);
      && r.offset - offset <= |readScript|
      && forall i :: 0 <= i < r.offset - offset ==> readScript[i].Done? && r.data[offset + i] == readScript[i].value
  {
    if offset < |data| && Next(readScript).Done? {
      var tail := readScript[1..];
      var next := data[offset := readScript[0].value];
      PollReadStoresScript(next, offset + 1, tail);
      var r := PollRead(next, offset + 1, tail);
      assert PollRead(data, offset, readScript) == r;
      assert r.data[offset] == readScript[0].value by {
        assert r.data[..offset + 1] == next[..offset + 1];
      }
      forall i | 1 <= i < r.offset - offset
        ensures readScript[i].Done? && r.data[offset + i] == readScript[i].value
      {
        assert readScript[i] == tail[i - 1];
      }
    }
  }

  /** After the `k` bytes it stores, a read poll stops on the next outcome
      of the script: a full buffer consumes nothing more, otherwise that
      outcome is consumed and reported, `Failed(e)` as `Ready(Err(e))` and
      `NotReady` as `Pending`. */
  lemma {:induction false} PollReadStopsOnScript<E>(data: seq<u8>, offset: nat, readScript: seq<NbResult<u8, E>>)
    requires offset <= |data|
    decreases |data| - offset
    ensures var r := PollRead(data, offset, readScript); var k := r.offset - offset;
      && k <= |readScript|
      && (r.offset == |data| ==> r.readScript == readScript[k..])
      && (r.offset < |data| ==> r.readScript == Rest(readScript[k..]) && Halts(Next(readScript[k..]), r.out))
  {
    if offset < |data| && Next(readScript).Done? {
      var tail := readScript[1..];
      var next := data[offset := readScript[0].value];
      PollReadStopsOnScript(next, offset + 1, tail);
      var r := PollRead(next, offset + 1, tail);
      assert PollRead(data, offset, readScript) == r;
      var k := r.offset - offset;
      assert readScript[k..] == tail[k - 1..];
    }
  }

  /** One pass of the read poll: after a byte arrives the rest of the poll
      continues from the next slot with the byte stored; any other outcome
      ends the poll there, with the buffer and cursor as they were. */
  lemma ReadThenContinue<E>(data: seq<u8>, offset: nat, readScript: seq<NbResult<u8, E>>)
    requires offset < |data|
    ensures Next(readScript).Done? ==>
      PollRead(data, offset, readScript) == PollRead(data[offset := Next(readScript).value], offset + 1, Rest(readScript))
    ensures !Next(readScript).Done? ==>
      var r := PollRead(data, offset, readScript);
      r.data == data && r.offset == offset && r.readScript == Rest(readScript) && Halts(Next(readScript), r.out)
  {
  }

  /** A poll that meets a port which would block makes no progress: the
      buffer and cursor are as they were and the poll is `Pending`. An empty
      or full buffer completes at once and consumes nothing. */
  lemma PollReadBoundaryCases<E>(data: seq<u8>, offset: nat, readScript: seq<NbResult<u8, E>>)
    requires offset <= |data|
    ensures offset == |data| ==> PollRead(data, offset, readScript) == ReadPoll(data, offset, readScript, Ready(Ok(())))
    ensures offset < |data| && Next(readScript) == NotReady ==>
      PollRead(data, offset, readScript) == ReadPoll(data, offset, Rest(readScript), Pending)
  {
  }

  /** `DefaultReadByteFuture`: one `read` per poll. */
  class ReadByteFuture<E> {
    const serial: SerialDriver<E>

    /** `async_read_byte` */
    constructor (serial: SerialDriver<E>)
      ensures this.serial == serial
    {
      this.serial := serial;
    }

    method Poll(cx: Waker) returns (p: Poll<Result<u8, E>>)
      modifies serial, cx
      ensures p == Complete(Next(old(serial.readScript))) && serial.readScript == Rest(old(serial.readScript))
      ensures serial.calls == old(serial.calls) + 1
      ensures serial.received == old(serial.received) + (if p.Ready? && p.value.Ok? then [p.value.value] else [])
      ensures serial.writeScript == old(serial.writeScript) && serial.flushScript == old(serial.flushScript)
      ensures serial.written == old(serial.written)
      ensures cx.wakes == old(cx.wakes) + (if p.Pending? then 1 else 0)
    {
      var o := serial.Read();
      match o
      case Done(byte) =>
        p := Ready(Ok(byte));
      case Failed(e) =>
        p := Ready(Err(e));
      case NotReady =>
        cx.WakeByRef();
        p := Pending;
    }
  }

  /** The read invariant, over values: `original` is the caller's buffer,
      `data` and `offset` the future's, and `received` the bytes the port
      has handed to this read. The cursor stays within the buffer, the slots
      from the cursor on still hold the caller's bytes, and the slots before
      it hold exactly the bytes received, in order. */
  ghost predicate Filled(original: seq<u8>, data: seq<u8>, offset: nat, received: seq<u8>)
  {
    && offset <= |data|
    && |original| == |data|
    && data[offset..] == original[offset..]
    && received == data[..offset]
  }

  /** A received byte keeps the invariant: it lands in the cursor's slot,
      the cursor moves past it, and every other slot is unchanged. */
  lemma ReadKeepsFilled(original: seq<u8>, data: seq<u8>, offset: nat, received: seq<u8>, byte: u8)
    requires Filled(original, data, offset, received) && offset < |data|
    ensures Filled(original, data[offset := byte], offset + 1, received + [byte])
  {
    var data' := data[offset := byte];
    assert data'[..offset + 1] == data[..offset] + [byte];
    assert data'[offset + 1..] == data[offset + 1..];
    assert data[offset + 1..] == data[offset..][1..];
    assert original[offset + 1..] == original[offset..][1..];
  }

  /** `DefaultReadFuture`: fills the caller's buffer byte by byte. */
  class ReadFuture<E> {
    const serial: SerialDriver<E>
    const data: array<u8>
    var offset: nat
    ghost const original: seq<u8>        // the buffer when the read began
    ghost const receivedBefore: seq<u8>  // the port's log when the read began
    ghost var received: seq<u8>          // bytes this read has received

    ghost predicate Valid()
      reads this, data, serial
    {
      && serial.received == receivedBefore + received
      && Filled(original, data[..], offset, received)
    }

    /** `async_read` */
    constructor (serial: SerialDriver<E>, data: array<u8>)
      ensures Valid()
      ensures this.serial == serial && this.data == data && offset == 0
      ensures original == data[..] && receivedBefore == serial.received
    {
      this.serial, this.data, offset := serial, data, 0;
      original, receivedBefore, received := data[..], serial.received, [];
    }

    /** One pass of the poll loop: one `read`, whose byte, if any, fills
        the cursor's slot. */
    method ReadSlot() returns (o: NbResult<u8, E>)
      requires Valid() && offset < data.Length
      modifies this`offset, this`received, data, serial
      ensures Valid()
      ensures o == Next(old(serial.readScript)) && serial.readScript == Rest(old(serial.readScript))
      ensures serial.calls == old(serial.calls) + 1
      ensures serial.writeScript == old(serial.writeScript) && serial.flushScript == old(serial.flushScript)
      ensures serial.written == old(serial.written)
      ensures o.Done? ==> data[..] == old(data[..])[old(offset) := o.value] && offset == old(offset) + 1
      ensures !o.Done? ==> data[..] == old(data[..]) && offset == old(offset)
      ensures var r := PollRead(old(data[..]), old(offset), old(serial.readScript));
        if o.Done? then PollRead(data[..], offset, serial.readScript) == r
        else data[..] == r.data && offset == r.offset && serial.readScript == r.readScript && Halts(o, r.out)
    {
      ReadThenContinue(data[..], offset, serial.readScript);
      o := serial.Read();
      if o.Done? {
        ghost var before := data[..];
        ReadKeepsFilled(original, before, offset, received, o.value);
        data[offset] := o.value;
        assert data[..] == before[offset := o.value];
        received := received + [o.value];
        offset := offset + 1;
      }
    }

    method Poll(cx: Waker) returns (p: Poll<Result<(), E>>)
      requires Valid()
      modifies this`offset, this`received, data, serial, cx
      ensures Valid()
      ensures var r := PollRead(old(data[..]), old(offset), old(serial.readScript));
        data[..] == r.data && offset == r.offset && serial.readScript == r.readScript && p == r.out
      ensures serial.calls == old(serial.calls) + (offset - old(offset)) + (if p == Ready(Ok(())) then 0 else 1)
      ensures serial.writeScript == old(serial.writeScript) && serial.flushScript == old(serial.flushScript)
      ensures serial.written == old(serial.written)
      ensures cx.wakes == old(cx.wakes) + (if p.Pending? then 1 else 0)
    {
      ghost var spec := PollRead(data[..], offset, serial.readScript);
      while offset < data.Length
        invariant Valid()
        invariant old(offset) <= offset
        invariant PollRead(data[..], offset, serial.readScript) == spec
        invariant serial.calls == old(serial.calls) + (offset - old(offset))
        invariant serial.writeScript == old(serial.writeScript) && serial.flushScript == old(serial.flushScript)
        invariant serial.written == old(serial.written)
        invariant cx.wakes == old(cx.wakes)
        decreases data.Length - offset
      {
        var o := ReadSlot();
        match o
        case Done(_) =>
        case Failed(e) =>
          return Ready(Err(e));
        case NotReady =>
          cx.WakeByRef();
          return Pending;
      }
      return Ready(Ok(()));
    }
  }

  // ---------------------------------------------------------------------
  // Transmitting a buffer (`DefaultWriteFuture`)

  /** The state after one poll of a write future, and what the poll returned. */
  datatype WritePoll<E> = WritePoll(data: seq<u8>, writeScript: seq<NbResult<(), E>>, out: Poll<Result<(), E>>)

  /** One poll of a write future whose slice still to send is `data`, against
      a port whose coming `write` outcomes are `writeScript`: hand over the first
      byte and drop it from the slice while the port accepts, until the slice
      is empty, the port fails, or the port would block. */
  function PollWrite<E>(data: seq<u8>, writeScript: seq<NbResult<(), E>>): (r: WritePoll<E>)
    ensures |r.data| <= |data|
    ensures r.out == Ready(Ok(())) <==> r.data == []
    decreases |data|
  {
    if data == [] then WritePoll(data, writeScript, Ready(Ok(())))
    else
      match Next(writeScript)
      case Done(_) => PollWrite(data[1..], Rest(writeScript))
      case Failed(e) => WritePoll(data, Rest(writeScript), Ready(Err(e)))
      case NotReady => WritePoll(data, Rest(writeScript), Pending)
  }

  /** A write poll is fully determined by the port's script: what remains
      is the slice without its first `k` bytes, which the first `k` outcomes,
      all `Done`, accepted; if bytes remain, the next outcome is the one
      reported. */
  lemma {:induction false} PollWriteFollowsScript<E>(data: seq<u8>, writeScript: seq<NbResult<(), E>>)
    ensures var r := PollWrite(data, writeScript); var k := |data| - |r.data|;
      && r.data == data[k..]
      && k <= |writeScript|
      && (forall i :: 0 <= i < k ==> writeScript[i].Done?)
      && (r.data == [] ==> r.writeScript == writeScript[k..])
      && (r.data != [] ==> r.writeScript == Rest(writeScript[k..]) && Halts(Next(writeScript[k..]), r.out))
  {
    if data != [] && Next(writeScript).Done? {
      PollWriteFollowsScript(data[1..], Rest(writeScript));
      var k := |data| - |PollWrite(data, writeScript).data|;
      assert writeScript[k..] == Rest(writeScript)[k - 1..];
    }
  }

  /** `DefaultWriteByteFuture`: one `write` of the stored byte per poll. */
  class WriteByteFuture<E> {
    const serial: SerialDriver<E>
    const byte: u8

    /** `async_write_byte` */
    constructor (serial: SerialDriver<E>, byte: u8)
      ensures this.serial == serial && this.byte == byte
    {
      this.serial, this.byte := serial, byte;
    }

    method Poll(cx: Waker) returns (p: Poll<Result<(), E>>)
      modifies serial, cx
      ensures p == Complete(Next(old(serial.writeScript))) && serial.writeScript == Rest(old(serial.writeScript))
      ensures serial.calls == old(serial.calls) + 1
      ensures serial.written == old(serial.written) + (if p.Ready? && p.value.Ok? then [byte] else [])
      ensures serial.readScript == old(serial.readScript) && serial.flushScript == old(serial.flushScript)
      ensures serial.received == old(serial.received)
      ensures cx.wakes == old(cx.wakes) + (if p.Pending? then 1 else 0)
    {
      var o := serial.Write(byte);
      match o
      case Done(u) =>
        p := Ready(Ok(u));
      case Failed(e) =>
        p := Ready(Err(e));
      case NotReady =>
        cx.WakeByRef();
        p := Pending;
    }
  }

  /** The write invariant, over values: the caller's slice `original` is
      the bytes the port has accepted from this write, `written`, followed by
      the slice still to send, `data`. */
  ghost predicate Drained(original: seq<u8>, data: seq<u8>, written: seq<u8>)
  {
    original == written + data
  }

  /** An accepted byte keeps the invariant: the first byte of the remaining
      slice moves to the accepted ones, so it is sent exactly once and the
      bytes go out in the caller's order. */
  lemma WriteKeepsDrained(original: seq<u8>, data: seq<u8>, written: seq<u8>)
    requires Drained(original, data, written) && data != []
    ensures Drained(original, data[1..], written + [data[0]])
  {
    assert written + data == (written + [data[0]]) + data[1..];
  }

  /** `DefaultWriteFuture`: sends the caller's slice, shrinking it by one
      byte per accepted write. */
  class WriteFuture<E> {
    const serial: SerialDriver<E>
    var data: seq<u8>                   // the part of the slice not yet accepted
    ghost const original: seq<u8>       // the slice when the write began
    ghost const writtenBefore: seq<u8>  // the port's log when the write began
    ghost var written: seq<u8>          // bytes the port accepted from this write

    ghost predicate Valid()
      reads this, serial
    {
      && serial.written == writtenBefore + written
      && Drained(original, data, written)
    }

    /** `async_write` */
    constructor (serial: SerialDriver<E>, data: seq<u8>)
      ensures Valid()
      ensures this.serial == serial && this.data == data
      ensures original == data && writtenBefore == serial.written
    {
      this.serial, this.data := serial, data;
      original, writtenBefore, written := data, serial.written, [];
    }

    method Poll(cx: Waker) returns (p: Poll<Result<(), E>>)
      requires Valid()
      modifies this`data, this`written, serial, cx
      ensures Valid()
      ensures var r := PollWrite(old(data), old(serial.writeScript));
        data == r.data && serial.writeScript == r.writeScript && p == r.out
      ensures serial.calls == old(serial.calls) + (|old(data)| - |data|) + (if p == Ready(Ok(())) then 0 else 1)
      ensures serial.readScript == old(serial.readScript) && serial.flushScript == old(serial.flushScript)
      ensures serial.received == old(serial.received)
      ensures cx.wakes == old(cx.wakes) + (if p.Pending? then 1 else 0)
    {
      ghost var spec := PollWrite(data, serial.writeScript);
      while data != []
        invariant Valid()
        invariant |data| <= |old(data)|
        invariant PollWrite(data, serial.writeScript) == spec
        invariant serial.calls == old(serial.calls) + (|old(data)| - |data|)
        invariant serial.readScript == old(serial.readScript) && serial.flushScript == old(serial.flushScript)
        invariant serial.received == old(serial.received)
        invariant cx.wakes == old(cx.wakes)
        decreases |data|
      {
        var o := serial.Write(data[0]);
        match o
        case Done(_) =>
          WriteKeepsDrained(original, data, written);
          written := written + [data[0]];
          data := data[1..];
        case Failed(e) =>
          return Ready(Err(e));
        case NotReady =>
          cx.WakeByRef();
          return Pending;
      }
      return Ready(Ok(()));
    }
  }

  /** `DefaultFlushFuture`: one `flush` per poll. */
  class FlushFuture<E> {
    const serial: SerialDriver<E>

    /** `async_flush` */
    constructor (serial: SerialDriver<E>)
      ensures this.serial == serial
    {
      this.serial := serial;
    }

    method Poll(cx: Waker) returns (p: Poll<Result<(), E>>)
      modifies serial, cx
      ensures p == Complete(Next(old(serial.flushScript))) && serial.flushScript == Rest(old(serial.flushScript))
      ensures serial.calls == old(serial.calls) + 1
      ensures serial.readScript == old(serial.readScript) && serial.writeScript == old(serial.writeScript)
      ensures serial.received == old(serial.received) && serial.written == old(serial.written)
      ensures cx.wakes == old(cx.wakes) + (if p.Pending? then 1 else 0)
    {
      var o := serial.Flush();
      match o
      case Done(u) =>
        p := Ready(Ok(u));
      case Failed(e) =>
        p := Ready(Err(e));
      case NotReady =>
        cx.WakeByRef();
        p := Pending;
    }
  }
}
