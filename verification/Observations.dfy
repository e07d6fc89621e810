/** The source-agnostic observations that the producers push and the
    observation model consumes. */
module Observations {
  import opened Common

  const AF_INET: int := 2
  const AF_INET6: int := 10

  datatype Event = Present | Removed

  datatype LinkObservation = LinkObservation(
    ifindex: int, ifname: string, mac: string, adminUp: bool, running: bool,
    operstate: string, masterIfname: Option<string>, event: Event)

  datatype AddressObservation = AddressObservation(
    ifname: string, event: Event, family: int, cidr: string)

  datatype NeighborObservation = NeighborObservation(
    ifname: string, event: Event, family: int, mac: string, ip: string, observedAt: Time)

  datatype FdbEntryKind = FdbUnknown | FdbDynamic | FdbStatic | FdbLocal | FdbControlPlane

  datatype FdbObservation = FdbObservation(
    portIfname: string, event: Event, mac: string, entryKind: FdbEntryKind, observedAt: Time)

  datatype LldpObservation = LldpObservation(
    localIfname: string, event: Event,
    chassisId: Option<string>, portId: Option<string>, systemName: Option<string>,
    keepalive: bool, observedAt: Time)
}
