/** The peripheral drivers behind the adapters, as scripted oracles. The
    `embedded_hal` traits `serial::Read`, `serial::Write` and
    `spi::FullDuplex` are implemented by hardware this model does not see; each
    primitive is modelled by the sequence of outcomes its successive calls
    yield. Ghost logs record what the hardware took and gave. */
module Driver {
  import opened Types

  /** The outcome the next call of a scripted primitive yields. An exhausted
      script stands for a driver that never becomes ready again. */
  function Next<T, E>(script: seq<NbResult<T, E>>): NbResult<T, E>
  {
    if script == [] then NotReady else script[0]
  }

  /** The script left after one call. */
  function Rest<T, E>(script: seq<NbResult<T, E>>): seq<NbResult<T, E>>
  {
    if script == [] then [] else script[1..]
  }

  /** `out` is what a buffer-walking poll returns when a driver call yields
      `o` and the poll cannot go on: `Failed(e)` ends it with `Ready(Err(e))`,
      `NotReady` suspends it with `Pending`. */
  ghost predicate Halts<T, E>(o: NbResult<T, E>, out: Poll<Result<(), E>>)
  {
    match o
    case Done(_) => false
    case Failed(e) => out == Ready(Err(e))
    case NotReady => out == Pending
  }

  /** A serial port: `embedded_hal::serial::Read<u8>` and `Write<u8>`. */
  class SerialDriver<E> {
    var readScript: seq<NbResult<u8, E>>     // outcomes of the coming `read()` calls
    var writeScript: seq<NbResult<(), E>>    // outcomes of the coming `write(byte)` calls
    var flushScript: seq<NbResult<(), E>>   // outcomes of the coming `flush()` calls
    var calls: nat                      // primitive calls made so far
    ghost var received: seq<u8>         // bytes handed out by successful reads
    ghost var written: seq<u8>          // bytes accepted by successful writes

    constructor (readScript: seq<NbResult<u8, E>>, writeScript: seq<NbResult<(), E>>, flushScript: seq<NbResult<(), E>>)
      ensures this.readScript == readScript && this.writeScript == writeScript && this.flushScript == flushScript
      ensures calls == 0 && received == [] && written == []
    {
      this.readScript, this.writeScript, this.flushScript := readScript, writeScript, flushScript;
      calls, received, written := 0, [], [];
    }

    /** `serial::Read::read`: one attempt to take a received byte. */
    method Read() returns (o: NbResult<u8, E>)
      modifies this
      ensures o == Next(old(readScript)) && readScript == Rest(old(readScript))
      ensures calls == old(calls) + 1
      ensures received == old(received) + (if o.Done? then [o.value] else [])
      ensures writeScript == old(writeScript) && flushScript == old(flushScript) && written == old(written)
    {
      o := Next(readScript);
      readScript := Rest(readScript);
      calls := calls + 1;
      if o.Done? {
        received := received + [o.value];
      }
    }

    /** `serial::Write::write`: one attempt to hand `byte` to the transmitter. */
    method Write(byte: u8) returns (o: NbResult<(), E>)
      modifies this
      ensures o == Next(old(writeScript)) && writeScript == Rest(old(writeScript))
      ensures calls == old(calls) + 1
      ensures written == old(written) + (if o.Done? then [byte] else [])
      ensures readScript == old(readScript) && flushScript == old(flushScript) && received == old(received)
    {
      o := Next(writeScript);
      writeScript := Rest(writeScript);
      calls := calls + 1;
      if o.Done? {
        written := written + [byte];
      }
    }

    /** `serial::Write::flush`: one attempt to drain the transmitter. */
    method Flush() returns (o: NbResult<(), E>)
      modifies this
      ensures o == Next(old(flushScript)) && flushScript == Rest(old(flushScript))
      ensures calls == old(calls) + 1
      ensures readScript == old(readScript) && writeScript == old(writeScript)
      ensures received == old(received) && written == old(written)
    {
      o := Next(flushScript);
      flushScript := Rest(flushScript);
      calls := calls + 1;
    }
  }

  /** An SPI master: `embedded_hal::spi::FullDuplex<u8>`. */
  class SpiDriver<E> {
    var sendScript: seq<NbResult<(), E>>     // outcomes of the coming `send(byte)` calls
    var readScript: seq<NbResult<u8, E>>     // outcomes of the coming `read()` calls
    var calls: nat                      // primitive calls made so far
    ghost var sent: seq<u8>             // bytes accepted by successful sends
    ghost var received: seq<u8>         // bytes handed out by successful reads

    constructor (sendScript: seq<NbResult<(), E>>, readScript: seq<NbResult<u8, E>>)
      ensures this.sendScript == sendScript && this.readScript == readScript
      ensures calls == 0 && sent == [] && received == []
    {
      this.sendScript, this.readScript := sendScript, readScript;
      calls, sent, received := 0, [], [];
    }

    /** `FullDuplex::send`: one attempt to clock `byte` out. */
    method Send(byte: u8) returns (o: NbResult<(), E>)
      modifies this
      ensures o == Next(old(sendScript)) && sendScript == Rest(old(sendScript))
      ensures calls == old(calls) + 1
      ensures sent == old(sent) + (if o.Done? then [byte] else [])
      ensures readScript == old(readScript) && received == old(received)
    {
      o := Next(sendScript);
      sendScript := Rest(sendScript);
      calls := calls + 1;
      if o.Done? {
        sent := sent + [byte];
      }
    }

    /** `FullDuplex::read`: one attempt to take the byte clocked in. */
    method Read() returns (o: NbResult<u8, E>)
      modifies this
      ensures o == Next(old(readScript)) && readScript == Rest(old(readScript))
      ensures calls == old(calls) + 1
      ensures received == old(received) + (if o.Done? then [o.value] else [])
      ensures sendScript == old(sendScript) && sent == old(sent)
    {
      o := Next(readScript);
      readScript := Rest(readScript);
      calls := calls + 1;
      if o.Done? {
        received := received + [o.value];
      }
    }
  }
}
