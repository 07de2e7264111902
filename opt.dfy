/** The optional value used wherever the firmware holds a reference that may be null
    (the PSU, the low-voltage protector) or an I/O result that may be missing. */
module Opt {
  datatype Option<+T> = None | Some(value: T)
}
