/**
 * A received AIS packet as the tracker sees it: the decoding of the wire
 * format happens elsewhere, so a report is the set of already decoded fields
 * the tracker consults, together with the packet's raw bytes.
 */
module AisReports {
  import opened Wrappers
  import opened JavaTypes

  /** The serialized packet (`AisPacket.toByteArray()`), opaque to the tracker. */
  type Bytes = seq<bv8>

  /** The kind of station (`AisTargetType`): class A and B vessels, search and
      rescue transmitters, base stations and aids to navigation. */
  datatype TargetType = A | B | SART | BS | ATON

  /** A geographic coordinate; only copied by the tracker. */
  datatype Position = Position(latitude: Float64, longitude: Float64)

  /** The channel a packet arrived on (`AisPacketSource`); only its equality
      matters, as the key of the buffer of message 24 part A reports. */
  datatype PacketSource = PacketSource(key: string)

  /** What a vessel position message (`IVesselPositionMessage`) provides.
      `navStatus` is present exactly for `AisPositionMessage` (messages 1-3),
      and holds the decoded navigational status before its cast to a byte. */
  datatype VesselPosition = VesselPosition(cog: Float32, sog: Float32, navStatus: Option<Int32>)

  /** What a static message (`AisStaticCommon`) provides.  `msg24Part` is the
      part number of a message 24 and absent for every other static message. */
  datatype StaticReport = StaticReport(shipType: Int32, msg24Part: Option<Int32>)

  /**
   * One received packet.  A report may carry kinematic data, static data,
   * both or neither.  `position` is `getValidPosition()`, absent when the
   * message holds no valid coordinate.
   */
  datatype Report = Report(
    mmsi: Int32,
    packet: Bytes,
    position: Option<Position>,
    vesselPosition: Option<VesselPosition>,
    staticReport: Option<StaticReport>)
}
