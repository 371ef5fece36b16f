/** The `Option` wrapper and the fixed-width unsigned integer types of the Arduino
    sources, shared by every module of the controller. */
module Common {

  datatype Option<T> = None | Some(value: T)

  const TWO_POW_32: int := 0x1_0000_0000

  type u8 = x: int | 0 <= x < 0x100
  type u16 = x: int | 0 <= x < 0x1_0000
  type u32 = x: int | 0 <= x < 0x1_0000_0000
}
