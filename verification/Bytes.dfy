/** Octets, as files and archives hold them; letters stand for their codes. */
module Bytes {
  type Byte = c: char | c as int < 256 witness '0'

  type Text = seq<Byte>
}
