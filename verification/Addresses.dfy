/** IP addresses as byte strings, held in four bytes or in sixteen. */
module Addresses {
  import opened Common
  import opened Bytes

  const MAPPED: seq<byte> := [0, 0, 0, 0, 0, 0, 0, 0, 0, 0, 255, 255]

  /** The four bytes of an IPv4 address, whichever way it is held. */
  function To4(ip: seq<byte>): Option<seq<byte>> {
    if |ip| == 4 then Some(ip)
    else if |ip| == 16 && ip[..12] == MAPPED then Some(ip[12..])
    else None
  }

  /** The sixteen bytes of an address; nothing for what is no address. */
  function To16(ip: seq<byte>): seq<byte> {
    if |ip| == 4 then MAPPED + ip else if |ip| == 16 then ip else []
  }

  function From4(ip: seq<byte>): seq<byte> {
    match To4(ip)
    case Some(short) => short
    case None => []
  }
}
