/** Delays: how a delay provider that implements one canonical width gets
    the other widths. Each macro-generated method converts its argument and
    forwards it to the canonical implementation; the model is the call it
    forwards, and the length of time that call asks for. */
module Delay {
  import opened Types

  /** A call of a canonical delay implementation: `AsyncDelayMs<u32>`,
      `AsyncDelayUs<u32>` or `AsyncDelayUs<u64>`. */
  datatype Call = MsU32(ms: u32) | UsU32(us: u32) | UsU64(micros: u64)

  /** The outcome of a forwarding method that asserts its argument: the call
      it forwards, or the panic a failed `assert!` raises. */
  datatype Forwarded<T> = Forward(value: T) | Abort

  /** The length of time a call asks for, in microseconds. */
  function Micros(c: Call): nat
  {
    match c
    case MsU32(ms) => ms as nat * 1000
    case UsU32(us) => us as nat
    case UsU64(us) => us as nat
  }

  /** Rust's `x as u32` for an `i32`: the bit pattern is kept, so the result
      agrees with `x` modulo 2^32 and a negative value wraps to a large one. */
  function I32AsU32(x: i32): (r: u32)
    ensures (r as int - x as int) % 0x1_0000_0000 == 0
  {
    if x >= 0 then x as int as u32 else (x as int + 0x1_0000_0000) as u32
  }

  // ---------------------------------------------------------------------
  // `impl_delay_ms_for_ms_u32`: milliseconds, forwarded to `AsyncDelayMs<u32>`

  /** `AsyncDelayMs<u16>`: the same number of milliseconds reaches the u32
      implementation. */
  function DelayMsU16(ms: u16): (c: Call)
    ensures c.MsU32? && Micros(c) == ms as nat * 1000
  {
    MsU32(ms as int as u32)
  }

  /** `AsyncDelayMs<u8>` */
  function DelayMsU8(ms: u8): (c: Call)
    ensures c.MsU32? && Micros(c) == ms as nat * 1000
  {
    MsU32(ms as int as u32)
  }

  /** `AsyncDelayMs<i32>`: a negative duration fails the assertion; any other
      reaches the u32 implementation unchanged. */
  function DelayMsI32(ms: i32): (f: Forwarded<Call>)
    ensures f.Forward? <==> ms >= 0
    ensures f.Forward? ==> f.value.MsU32? && Micros(f.value) == ms as int * 1000
  {
    if ms >= 0 then Forward(MsU32(I32AsU32(ms))) else Abort
  }

  // ---------------------------------------------------------------------
  // `impl_delay_us_for_us_u32`: microseconds, forwarded to `AsyncDelayUs<u32>`

  /** `AsyncDelayUs<u16>` */
  function DelayUsU16(us: u16): (c: Call)
    ensures c.UsU32? && Micros(c) == us as nat
  {
    UsU32(us as int as u32)
  }

  /** `AsyncDelayUs<u8>` */
  function DelayUsU8(us: u8): (c: Call)
    ensures c.UsU32? && Micros(c) == us as nat
  {
    UsU32(us as int as u32)
  }

  /** `AsyncDelayUs<i32>` */
  function DelayUsI32(us: i32): (f: Forwarded<Call>)
    ensures f.Forward? <==> us >= 0
    ensures f.Forward? ==> f.value.UsU32? && Micros(f.value) == us as int
  {
    if us >= 0 then Forward(UsU32(I32AsU32(us))) else Abort
  }

  // ---------------------------------------------------------------------
  // `impl_delay_us_for_us_u64` and `impl_delay_ms_for_us_u64`: everything
  // forwarded to `AsyncDelayUs<u64>`

  /** `AsyncDelayUs<u32>` over `AsyncDelayUs<u64>` */
  function DelayUsU32(us: u32): (c: Call)
    ensures c.UsU64? && Micros(c) == us as nat
  {
    UsU64(us as int as u64)
  }

  /** `AsyncDelayMs<u32>` over `AsyncDelayUs<u64>`: the milliseconds become
      microseconds; the product of a u32 and 1000 always fits in a u64, so
      the multiplication cannot overflow. */
  function DelayMsU32(ms: u32): (c: Call)
    ensures c.UsU64? && Micros(c) == ms as nat * 1000
  {
    UsU64((ms as int as u64) * 1000)
  }

  /** A delay provider built from `AsyncDelayUs<u64>` alone, with both
      `impl_delay_us_for_us_u64` and `impl_delay_ms_for_us_u64`: the u32
      implementations it gets hand their calls on to the u64 one. */
  function ToUsU64(c: Call): (p: Call)
    ensures p.UsU64? && Micros(p) == Micros(c)
  {
    match c
    case MsU32(ms) => DelayMsU32(ms)
    case UsU32(us) => DelayUsU32(us)
    case UsU64(_) => c
  }

  /** On such a provider every narrow delay, in either unit, reaches the
      microsecond primitive as the same length of time; a non-negative `i32`
      one too, while a negative one panics before any call. */
  lemma NarrowDelaysReachPrimitive(a: u8, b: u16, c: i32)
    ensures ToUsU64(DelayMsU8(a)) == UsU64(a as int as u64 * 1000)
    ensures ToUsU64(DelayMsU16(b)) == UsU64(b as int as u64 * 1000)
    ensures ToUsU64(DelayUsU8(a)) == UsU64(a as int as u64)
    ensures ToUsU64(DelayUsU16(b)) == UsU64(b as int as u64)
    ensures DelayMsI32(c).Forward? ==> ToUsU64(DelayMsI32(c).value) == UsU64(c as int as u64 * 1000)
    ensures DelayUsI32(c).Forward? ==> ToUsU64(DelayUsI32(c).value) == UsU64(c as int as u64)
  {
  }

  /** A 5 ms delay asked for as a `u8` reaches the microsecond primitive as
      5000 µs. */
  lemma FiveMillisAsU8()
    ensures ToUsU64(DelayMsU8(5)) == UsU64(5000)
  {
  }

  /** Why the `i32` paths assert: without the check, the bit-preserving cast
      would turn a delay of -1 into one of 2^32 - 1 milliseconds, about
      49.7 days. */
  lemma NegativeWouldWrap()
    ensures I32AsU32(-1) == 0xFFFF_FFFF
    ensures DelayMsI32(-1) == Abort && DelayUsI32(-1) == Abort
  {
  }
}
