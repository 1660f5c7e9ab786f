/** Octets, as the ICMP and chat programs handle them. */
module Bytes {
  type Byte = b: int | 0 <= b < 256
}
