/** Socket addresses (`std::net::SocketAddr`), the keys of every session table. */
module Net {
  import opened Bytes

  datatype SocketAddr =
    | V4(octets: seq<byte>, port: u16)
    | V6(segments: seq<u16>, port: u16)
  {
    predicate IsIpv4() {
      V4?
    }
  }

  /** `0.0.0.0:0`, the address reported with a failed receive. */
  const UNSPECIFIED: SocketAddr := V4([0, 0, 0, 0], 0)
}
