/** Flows: what the flow table keeps and the exporter sends. */
module FlowTypes {
  import opened Bytes

  datatype Family = Inet | Inet6 | OtherFamily

  /** The canonical key of a conversation. Addresses have 16 bytes; IPv4 uses the first four. */
  datatype Key = Key(
    af: Family, proto: byte, src: seq<byte>, dst: seq<byte>, srcPort: nat, dstPort: nat, vlan: nat, tos: byte)

  /** A flow: counters and TCP flags for each direction, and its first and last times in microseconds. */
  datatype Flow = Flow(
    key: Key, packetsFwd: nat, packetsRev: nat, octetsFwd: nat, octetsRev: nat, flagsFwd: byte, flagsRev: byte,
    start: nat, last: nat, flowLabel: nat)

  function Packets(f: Flow): (n: nat) {
    f.packetsFwd + f.packetsRev
  }

  function Octets(f: Flow): (n: nat) {
    f.octetsFwd + f.octetsRev
  }

  function Pow2(n: nat): (p: nat) {
    if n == 0 then 1 else 2 * Pow2(n - 1)
  }

  /** Bitwise or of the lowest bits. */
  function OrBits(a: nat, b: nat, width: nat): (r: nat)
    ensures r < Pow2(width)
  {
    if width == 0 then 0
    else 2 * OrBits(a / 2, b / 2, width - 1) + if a % 2 == 1 || b % 2 == 1 then 1 else 0
  }

  function Or(a: byte, b: byte): (r: byte) {
    assert Pow2(8) == 256;
    OrBits(a, b, 8)
  }
}
