/** Value types shared by the CDC-ACM driver model and the host-session model. */
module UsbTypes {

  /** An unsigned 8-bit quantity (uint8_t). */
  newtype byte = x: int | 0 <= x < 0x100

  /** An unsigned 16-bit quantity (uint16_t), as in the wValue/wIndex/wLength setup fields. */
  newtype u16 = x: int | 0 <= x < 0x1_0000

  /** An unsigned 32-bit quantity (uint32_t), as in dwDTERate. */
  newtype u32 = x: int | 0 <= x < 0x1_0000_0000

  /** Some/None in place of a nullable pointer or handle. */
  datatype Option<+T> = None | Some(value: T)

  /** Direction bit of bEndpointAddress (bit 7, section 9.6.6 of USB 2.0): set means IN. */
  predicate IsInAddress(addr: byte)
  {
    (addr as bv8) & 0x80 != 0
  }

  /** The direction bit read arithmetically: an address is IN exactly when it is at least 0x80. */
  lemma IsInAddressIffHigh(addr: byte)
    ensures IsInAddress(addr) <==> addr >= 0x80
  {
    var b := addr as bv8;
    if addr >= 0x80 {
      assert b >= 0x80;
    } else {
      assert b < 0x80;
    }
  }
}
