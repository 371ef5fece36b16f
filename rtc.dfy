/** What the DS3231 real-time clock driver returns. */
module Rtc {
  import opened Common

  /** The DS3231 `Time` record (date, month, year, hour, minute, second); the
      day-of-week field is not used by the controller. */
  datatype Time = Time(date: u8, mon: u8, year: u16, hour: u8, min: u8, sec: u8)
}
