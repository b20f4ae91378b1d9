/** Values the adapter layer shares with the Rust core library, the `nb`
    crate and the task machinery: fixed-width integers, `Result`, `Poll`,
    the three-way outcome of a single-attempt driver call, and the waker. */
module Types {

  // Rust's fixed-width integer types, as ranges of the unbounded integers.
  newtype u8 = x: int | 0 <= x < 0x100
  newtype u16 = x: int | 0 <= x < 0x1_0000
  newtype u32 = x: int | 0 <= x < 0x1_0000_0000
  newtype u64 = x: int | 0 <= x < 0x1_0000_0000_0000_0000
  newtype i32 = x: int | -0x8000_0000 <= x < 0x8000_0000

  /** `core::result::Result` */
  datatype Result<+T, +E> = Ok(value: T) | Err(error: E)

  /** `core::task::Poll` */
  datatype Poll<+T> = Ready(value: T) | Pending

  /** `nb::Result<T, E>`: `Ok(v)` is `Done(v)`, `Err(nb::Error::Other(e))` is
      `Failed(e)` and `Err(nb::Error::WouldBlock)` is `NotReady`. */
  datatype NbResult<+T, +E> = Done(value: T) | Failed(error: E) | NotReady

  /** The waker of the task's `Context`. Only the number of `wake_by_ref`
      calls is observed; the executor that re-polls is not modelled. */
  class Waker {
    ghost var wakes: nat

    constructor ()
      ensures wakes == 0
    {
      wakes := 0;
    }

    method WakeByRef()
      modifies this
      ensures wakes == old(wakes) + 1
    {
      wakes := wakes + 1;
    }
  }
}
