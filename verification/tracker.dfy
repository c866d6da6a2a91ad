/**
 * The immutable per-MMSI snapshot of an AIS target (`TargetInfo`) and the
 * pure transitions that build the next snapshot from a received report or
 * reconcile two snapshots.
 *
 * A snapshot has two facets, each with its own timestamp: the position facet
 * (from position reports) and the static facet (from static reports, where a
 * message 24 arrives in two parts).  A facet that was never received holds
 * the Java code's sentinel values, collected here in `NoPosition` and
 * `NoStatic`.
 */
module Tracker {
  import opened Wrappers
  import opened JavaTypes
  import opened AisReports

  /** The position facet: when, where, course, speed, heading, navigational
      status and the raw packet it was built from. */
  datatype PositionFacet = PositionFacet(
    timestamp: Int64,
    position: Option<Position>,
    heading: Int32,
    cog: Float32,
    sog: Float32,
    navStatus: Int8,
    packet: Option<Bytes>)

  /** The static facet: when, the ship type, and one or two raw static packets
      (two for a reassembled message 24). */
  datatype StaticFacet = StaticFacet(
    timestamp: Int64,
    data1: Option<Bytes>,
    data2: Option<Bytes>,
    shipType: Int32)

  datatype TargetInfo = TargetInfo(
    mmsi: Int32,
    targetType: TargetType,
    pos: PositionFacet,
    stat: StaticFacet)

  /** The position facet of a target no position report has been kept for. */
  const NoPosition: PositionFacet := PositionFacet(-1, None, -1, MinusOneFloat, MinusOneFloat, -1, None)

  /** The static facet of a target no static report has been kept for. */
  const NoStatic: StaticFacet := StaticFacet(-1, None, None, -1)

  /** The heading stored by a vessel position update. */
  const PositionHeading: Int32 := 0

  /** The outcome of one update: the next snapshot, absent when there is none,
      and the caller's buffer of message 24 part A packets, keyed by source. */
  datatype Update = Update(target: Option<TargetInfo>, part0: map<PacketSource, Bytes>)

  /** A facet is either entirely absent (all sentinels) or holds its packet. */
  predicate Valid(t: TargetInfo)
  {
    && (t.pos.packet.Some? || t.pos == NoPosition)
    && (t.stat.data1.Some? || t.stat == NoStatic)
  }

  predicate ValidOption(t: Option<TargetInfo>)
  {
    t.Some? ==> Valid(t.value)
  }

  // ---------------------------------------------------------------- accessors

  /** `hasPositionInfo`: a position packet has been kept, that is, on a valid
      snapshot, the position facet is present. */
  predicate HasPositionInfo(t: TargetInfo)
    ensures Valid(t) ==> (HasPositionInfo(t) <==> t.pos != NoPosition)
  {
    t.pos.packet.Some?
  }

  /** `hasStaticInfo`: a (first) static packet has been kept, that is, on a
      valid snapshot, the static facet is present. */
  predicate HasStaticInfo(t: TargetInfo)
    ensures Valid(t) ==> (HasStaticInfo(t) <==> t.stat != NoStatic)
  {
    t.stat.data1.Some?
  }

  /** `getStaticCount`: how many static packets the target holds. */
  function StaticCount(t: TargetInfo): (n: nat)
    ensures n <= 2
    ensures n > 0 <==> HasStaticInfo(t)
  {
    if t.stat.data1.None? then 0 else if t.stat.data2.None? then 1 else 2
  }

  /** `getStaticPackets`, before decoding: the kept static packets in order. */
  function StaticPackets(t: TargetInfo): (r: seq<Bytes>)
    ensures |r| == StaticCount(t)
    ensures |r| >= 1 ==> Some(r[0]) == t.stat.data1
    ensures |r| == 2 ==> Some(r[1]) == t.stat.data2
  {
    match (t.stat.data1, t.stat.data2)
    case (None, _) => []
    case (Some(d1), None) => [d1]
    case (Some(d1), Some(d2)) => [d1, d2]
  }

  // -------------------------------------------------------------------- merge

  /** `mergeWithStaticFrom`: this target with `other`'s static facet. */
  function MergeWithStaticFrom(t: TargetInfo, other: TargetInfo): (r: TargetInfo)
    ensures r.mmsi == t.mmsi && r.targetType == t.targetType && r.pos == t.pos
    ensures r.stat == other.stat
  {
    t.(stat := other.stat)
  }

  function Max(x: int, y: int): int
  {
    if x >= y then x else y
  }

  /**
   * `merge`: reconciles two snapshots.  A snapshot at least as new in both
   * facets wins whole (the receiver `a` first); otherwise the snapshot with
   * the newer position keeps its identity and position and takes the other's
   * static facet.
   */
  function Merge(a: TargetInfo, b: TargetInfo): (r: TargetInfo)
    ensures r.pos.timestamp == Max(a.pos.timestamp, b.pos.timestamp)
    ensures r.stat.timestamp == Max(a.stat.timestamp, b.stat.timestamp)
    ensures (r.mmsi, r.targetType, r.pos) in {(a.mmsi, a.targetType, a.pos), (b.mmsi, b.targetType, b.pos)}
    ensures r.stat in {a.stat, b.stat}
  {
    if a.pos.timestamp >= b.pos.timestamp && a.stat.timestamp >= b.stat.timestamp then
      a
    else if b.pos.timestamp >= a.pos.timestamp && b.stat.timestamp >= a.stat.timestamp then
      b
    else if a.pos.timestamp >= b.pos.timestamp then
      MergeWithStaticFrom(a, b)
    else
      MergeWithStaticFrom(b, a)
  }

  // ------------------------------------------------------------------- update

  /** ATON and BS targets carry nothing but a position. */
  predicate IsPositionOnlyKind(targetType: TargetType)
  {
    targetType == ATON || targetType == BS
  }

  /** The kind-change guard: a snapshot of another target type is discarded. */
  function DropOnKindChange(existing: Option<TargetInfo>, targetType: TargetType): (kept: Option<TargetInfo>)
    ensures kept.Some? <==> existing.Some? && existing.value.targetType == targetType
    ensures kept.Some? ==> kept == existing
  {
    if existing.Some? && existing.value.targetType != targetType then None else existing
  }

  /** The navigational status stored for a vessel position report: the
      status of a message 1-3 cast to a byte, else -1. */
  function NavStatusOf(v: VesselPosition): (s: Int8)
    ensures v.navStatus.None? ==> s == -1
    ensures v.navStatus.Some? ==> (v.navStatus.value - s) % 256 == 0
    ensures v.navStatus.Some? && -0x80 <= v.navStatus.value < 0x80 ==> s == v.navStatus.value
  {
    match v.navStatus
    case Some(n) => ToByte(n)
    case None => -1
  }

  /** `updateTargetWithPosition`. */
  function UpdateTargetWithPosition(existing: Option<TargetInfo>, report: Report, targetType: TargetType,
                                    timestamp: Int64): (r: Option<TargetInfo>)
    ensures report.vesselPosition.None? ==> r == existing
    ensures existing.Some? && timestamp < existing.value.pos.timestamp ==> r == existing
    ensures r.Some? && r != existing ==> r.value.pos.timestamp == timestamp && r.value.targetType == targetType
  {
    match report.vesselPosition
    case None => existing
    case Some(v) =>
      if existing.None? || timestamp >= existing.value.pos.timestamp then
        var facet := PositionFacet(timestamp, report.position, PositionHeading, v.cog, v.sog,
                                   NavStatusOf(v), Some(report.packet));
        match DropOnKindChange(existing, targetType)
        case None => Some(TargetInfo(report.mmsi, targetType, facet, NoStatic))
        case Some(e) => Some(TargetInfo(report.mmsi, targetType, facet, e.stat))
      else
        existing
  }

  /** `updateTargetWithStatic`, with the caller's message 24 part A buffer
      `part0` passed in and its next state returned. */
  function UpdateTargetWithStatic(report: Report, targetType: TargetType, timestamp: Int64, source: PacketSource,
                                  existing: Option<TargetInfo>, part0: map<PacketSource, Bytes>): (u: Update)
    ensures report.staticReport.None? ==> u == Update(existing, part0)
    ensures existing.Some? && timestamp < existing.value.stat.timestamp ==> u == Update(existing, part0)
    ensures u.target.Some? && u.target != existing ==>
              u.target.value.stat.timestamp == timestamp && u.target.value.targetType == targetType
  {
    match report.staticReport
    case None => Update(existing, part0)
    case Some(s) =>
      if existing.None? || timestamp >= existing.value.stat.timestamp then
        var kept := DropOnKindChange(existing, targetType);
        match s.msg24Part
        case Some(part) =>
          if part == 0 then
            // part A is held until part B arrives; the snapshot waits too
            Update(kept, part0[source := report.packet])
          else if source !in part0 then
            // part B without its part A is dropped
            Update(kept, part0)
          else
            Update(Some(WithStatic(kept, report.mmsi, targetType, timestamp, part0[source],
                                   Some(report.packet), s.shipType)),
                   part0 - {source})
        case None =>
          Update(Some(WithStatic(kept, report.mmsi, targetType, timestamp, report.packet, None, s.shipType)), part0)
      else
        Update(existing, part0)
  }

  /** The snapshot holding a newly accepted static facet, keeping the position
      facet of `kept` when there is one. */
  function WithStatic(kept: Option<TargetInfo>, mmsi: Int32, targetType: TargetType, timestamp: Int64,
                      data1: Bytes, data2: Option<Bytes>, shipType: Int32): (t: TargetInfo)
    requires kept.Some? ==> kept.value.targetType == targetType
    ensures t.stat == StaticFacet(timestamp, Some(data1), data2, shipType)
    ensures t.mmsi == mmsi && t.targetType == targetType
    ensures t.pos == (if kept.Some? then kept.value.pos else NoPosition)
  {
    match kept
    case None => TargetInfo(mmsi, targetType, NoPosition, StaticFacet(timestamp, Some(data1), data2, shipType))
    case Some(e) => TargetInfo(mmsi, e.targetType, e.pos, StaticFacet(timestamp, Some(data1), data2, shipType))
  }

  /**
   * `updateTarget`: the next snapshot for a target after `report` was received
   * at `timestamp` from `source`.  ATON and BS targets keep only the newest
   * position; other targets pass through the position update and then the
   * static update.
   */
  function UpdateTarget(existing: Option<TargetInfo>, report: Report, targetType: TargetType, timestamp: Int64,
                        source: PacketSource, part0: map<PacketSource, Bytes>): (u: Update)
    ensures IsPositionOnlyKind(targetType) ==> u.part0 == part0
    ensures u.part0.Keys <= part0.Keys + {source}
    ensures forall s :: s in part0 && s != source ==> s in u.part0 && u.part0[s] == part0[s]
  {
    if IsPositionOnlyKind(targetType) then
      if existing.Some? && timestamp <= existing.value.pos.timestamp then
        Update(existing, part0)
      else
        var facet := PositionFacet(timestamp, report.position, -1, MinusOneFloat, MinusOneFloat, -1,
                                   Some(report.packet));
        Update(Some(TargetInfo(report.mmsi, targetType, facet, NoStatic)), part0)
    else
      var afterPosition := UpdateTargetWithPosition(existing, report, targetType, timestamp);
      UpdateTargetWithStatic(report, targetType, timestamp, source, afterPosition, part0)
  }
}
