/** I2C bus addresses: the 7-bit and 10-bit address wrappers, which can only
    be built from a value in range and give that value back unchanged. */
module I2c {
  import opened Types

  /** The one error a range check reports; it carries no value, so an
      out-of-range address is never truncated into a valid one. */
  datatype AddressRangeError = AddressRangeError

  /** A 7-bit I2C address. In the crate its field is private, so only the
      range check builds one; here the constructor is public, and `Valid7Bit`
      names the wrappers the range check can produce: `TryFrom7Bit` ensures
      it, and the lemmas about conversions back require it. */
  datatype I2cAddress7Bit = I2cAddress7Bit(address: u8)

  /** A 10-bit I2C address; `Valid10Bit` plays the part `Valid7Bit` plays
      for 7-bit addresses. */
  datatype I2cAddress10Bit = I2cAddress10Bit(address: u16)

  /** The wrappers a range check can produce. */
  predicate Valid7Bit(a: I2cAddress7Bit)
  {
    a.address < 0x80
  }

  predicate Valid10Bit(a: I2cAddress10Bit)
  {
    a.address < 0x400
  }

  /** `TryFrom<u8> for I2cAddress7Bit`: accepts exactly the addresses below
      0x80, keeping the value, and the wrapper it builds is a valid one that
      gives the value back. */
  function TryFrom7Bit(address: u8): (r: Result<I2cAddress7Bit, AddressRangeError>)
    ensures r.Ok? <==> address < 0x80
    ensures r.Ok? ==> Valid7Bit(r.value) && IntoU8(r.value) == address
  {
    if address < 0x80 then Ok(I2cAddress7Bit(address)) else Err(AddressRangeError)
  }

  /** `From<I2cAddress7Bit> for u8`: a valid wrapper converts to a 7-bit
      value, and only a valid one does. */
  function IntoU8(a: I2cAddress7Bit): (b: u8)
    ensures Valid7Bit(a) <==> b < 0x80
  {
    a.address
  }

  /** `TryFrom<u16> for I2cAddress10Bit`: accepts exactly the addresses below
      0x400, keeping the value, and the wrapper it builds is a valid one that
      gives the value back. */
  function TryFrom10Bit(address: u16): (r: Result<I2cAddress10Bit, AddressRangeError>)
    ensures r.Ok? <==> address < 0x400
    ensures r.Ok? ==> Valid10Bit(r.value) && IntoU16(r.value) == address
  {
    if address < 0x400 then Ok(I2cAddress10Bit(address)) else Err(AddressRangeError)
  }

  /** `From<I2cAddress10Bit> for u16`: a valid wrapper converts to a 10-bit
      value, and only a valid one does. */
  function IntoU16(a: I2cAddress10Bit): (b: u16)
    ensures Valid10Bit(a) <==> b < 0x400
  {
    a.address
  }

  /** The other round trip: every 7-bit address a range check can produce is
      rebuilt, unchanged, from the value it gives back. */
  lemma SevenBitRebuilds(a: I2cAddress7Bit)
    requires Valid7Bit(a)
    ensures TryFrom7Bit(IntoU8(a)) == Ok(a)
  {
  }

  /** The other round trip for 10-bit addresses. */
  lemma TenBitRebuilds(a: I2cAddress10Bit)
    requires Valid10Bit(a)
    ensures TryFrom10Bit(IntoU16(a)) == Ok(a)
  {
  }

  /** The edges of the two ranges: 127 and 1023 are the largest addresses
      accepted, 128 and 1024 the smallest rejected, and a rejection is the
      range error itself. */
  lemma AddressBoundaries()
    ensures TryFrom7Bit(127) == Ok(I2cAddress7Bit(127))
    ensures TryFrom7Bit(128) == Err(AddressRangeError)
    ensures TryFrom10Bit(1023) == Ok(I2cAddress10Bit(1023))
    ensures TryFrom10Bit(1024) == Err(AddressRangeError)
  {
  }
}
