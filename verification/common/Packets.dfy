/** The unit that travels between components (internal/dataflow/packet). A packet's own
    fields never influence queues, links or ports, so it is any value of type T. */
module Packets {

  datatype PacketWithCycle<T> = PacketWithCycle(cycle: int, packet: T)

  function Min(a: int, b: int): int {
    if a < b then a else b
  }
}
