/**
 * Properties of the target snapshot and its transitions: the facet
 * invariant, the acceptance rules of each facet, message 24 pairing,
 * monotonicity for an unchanged target type, and the laws of `Merge`.
 */
module TrackerProperties {
  import opened Wrappers
  import opened JavaTypes
  import opened AisReports
  import opened Tracker

  // ------------------------------------------------------ accessors, invariant

  /** The accessors agree with one another, and on a valid snapshot the count
      tells exactly which static packets are held. */
  lemma StaticCountAgrees(t: TargetInfo)
    requires Valid(t)
    ensures |StaticPackets(t)| == StaticCount(t)
    ensures StaticCount(t) == 0 <==> t.stat == NoStatic
    ensures StaticCount(t) == 2 <==> t.stat.data2.Some?
    ensures t.stat.data2.Some? ==> t.stat.data1.Some?
    ensures !HasPositionInfo(t) <==> t.pos == NoPosition
  {
  }

  /** Every snapshot `UpdateTarget` produces from a valid one is valid. */
  lemma UpdatePreservesValid(existing: Option<TargetInfo>, report: Report, targetType: TargetType,
                             timestamp: Int64, source: PacketSource, part0: map<PacketSource, Bytes>)
    requires ValidOption(existing)
    ensures ValidOption(UpdateTarget(existing, report, targetType, timestamp, source, part0).target)
  {
  }

  /** `Merge` of valid snapshots is valid. */
  lemma MergePreservesValid(a: TargetInfo, b: TargetInfo)
    requires Valid(a) && Valid(b)
    ensures Valid(Merge(a, b))
  {
  }

  // -------------------------------------------------------- ATON and BS

  /** An ATON or BS report older than or as old as the kept position is
      dropped; otherwise the result is a fresh position-only snapshot. */
  lemma PositionOnlyKindUpdate(existing: Option<TargetInfo>, report: Report, targetType: TargetType,
                               timestamp: Int64, source: PacketSource, part0: map<PacketSource, Bytes>)
    requires IsPositionOnlyKind(targetType)
    ensures var u := UpdateTarget(existing, report, targetType, timestamp, source, part0);
            && u.part0 == part0
            && (existing.Some? && timestamp <= existing.value.pos.timestamp ==> u.target == existing)
            && (existing.None? || timestamp > existing.value.pos.timestamp ==>
                  && u.target.Some?
                  && u.target.value.mmsi == report.mmsi
                  && u.target.value.targetType == targetType
                  && u.target.value.pos.timestamp == timestamp
                  && u.target.value.pos.position == report.position
                  && u.target.value.pos.packet == Some(report.packet)
                  && u.target.value.pos.heading == -1
                  && u.target.value.pos.cog == MinusOneFloat
                  && u.target.value.pos.sog == MinusOneFloat
                  && u.target.value.pos.navStatus == -1
                  && u.target.value.stat == NoStatic
                  && StaticCount(u.target.value) == 0)
  {
  }

  // ------------------------------------------------------------ position

  /** A vessel position older than the kept one changes nothing, even when the
      target type differs: the kind guard only runs after the timestamp test. */
  lemma StalePositionIgnored(existing: Option<TargetInfo>, report: Report, targetType: TargetType,
                             timestamp: Int64)
    requires existing.Some? && timestamp < existing.value.pos.timestamp
    ensures UpdateTargetWithPosition(existing, report, targetType, timestamp) == existing
  {
  }

  /** An accepted vessel position replaces the whole position facet; the static
      facet is carried over for the same target type and dropped otherwise. */
  lemma AcceptedPosition(existing: Option<TargetInfo>, report: Report, targetType: TargetType, timestamp: Int64)
    requires report.vesselPosition.Some?
    requires existing.None? || timestamp >= existing.value.pos.timestamp
    ensures var r := UpdateTargetWithPosition(existing, report, targetType, timestamp);
            && r.Some?
            && r.value.mmsi == report.mmsi
            && r.value.targetType == targetType
            && r.value.pos.timestamp == timestamp
            && r.value.pos.position == report.position
            && r.value.pos.heading == 0
            && r.value.pos.cog == report.vesselPosition.value.cog
            && r.value.pos.sog == report.vesselPosition.value.sog
            && r.value.pos.packet == Some(report.packet)
            && (report.vesselPosition.value.navStatus.None? ==> r.value.pos.navStatus == -1)
            && (report.vesselPosition.value.navStatus.Some? ==>
                  r.value.pos.navStatus == ToByte(report.vesselPosition.value.navStatus.value))
            && (existing.Some? && existing.value.targetType == targetType ==> r.value.stat == existing.value.stat)
            && (existing.None? || existing.value.targetType != targetType ==> r.value.stat == NoStatic)
  {
  }

  // -------------------------------------------------------------- static

  /** A static report older than the kept static facet leaves both the
      snapshot and the part A buffer as they were. */
  lemma StaleStaticIgnored(report: Report, targetType: TargetType, timestamp: Int64, source: PacketSource,
                           existing: Option<TargetInfo>, part0: map<PacketSource, Bytes>)
    requires existing.Some? && timestamp < existing.value.stat.timestamp
    ensures UpdateTargetWithStatic(report, targetType, timestamp, source, existing, part0) == Update(existing, part0)
  {
  }

  /** An accepted single-part static report becomes the whole static facet; the
      position facet is kept for the same target type and absent otherwise. */
  lemma AcceptedSingleStatic(report: Report, targetType: TargetType, timestamp: Int64, source: PacketSource,
                             existing: Option<TargetInfo>, part0: map<PacketSource, Bytes>)
    requires report.staticReport.Some? && report.staticReport.value.msg24Part.None?
    requires existing.None? || timestamp >= existing.value.stat.timestamp
    ensures var u := UpdateTargetWithStatic(report, targetType, timestamp, source, existing, part0);
            && u.part0 == part0
            && u.target.Some?
            && u.target.value.mmsi == report.mmsi
            && u.target.value.targetType == targetType
            && u.target.value.stat.timestamp == timestamp
            && u.target.value.stat.data1 == Some(report.packet)
            && u.target.value.stat.data2 == None
            && u.target.value.stat.shipType == report.staticReport.value.shipType
            && StaticCount(u.target.value) == 1
            && (existing.Some? && existing.value.targetType == targetType ==> u.target.value.pos == existing.value.pos)
            && (existing.None? || existing.value.targetType != targetType ==> u.target.value.pos == NoPosition)
  {
  }

  /** An accepted message 24 part A is buffered under its source, replacing any
      earlier one, and the snapshot (after the kind guard) is returned as is. */
  lemma Msg24PartABuffered(report: Report, targetType: TargetType, timestamp: Int64, source: PacketSource,
                           existing: Option<TargetInfo>, part0: map<PacketSource, Bytes>)
    requires report.staticReport.Some? && report.staticReport.value.msg24Part == Some(0)
    requires existing.None? || timestamp >= existing.value.stat.timestamp
    ensures var u := UpdateTargetWithStatic(report, targetType, timestamp, source, existing, part0);
            && u.part0 == part0[source := report.packet]
            && u.target == DropOnKindChange(existing, targetType)
  {
  }

  /** On a target type change, an accepted part A leaves no snapshot at all. */
  lemma Msg24PartAOnKindChangeDropsTarget(report: Report, targetType: TargetType, timestamp: Int64,
                                          source: PacketSource, existing: Option<TargetInfo>,
                                          part0: map<PacketSource, Bytes>)
    requires report.staticReport.Some? && report.staticReport.value.msg24Part == Some(0)
    requires existing.Some? && existing.value.targetType != targetType
    requires timestamp >= existing.value.stat.timestamp
    ensures UpdateTargetWithStatic(report, targetType, timestamp, source, existing, part0).target == None
  {
  }

  /** An accepted part B with no part A buffered for its source is discarded. */
  lemma Msg24OrphanPartBDropped(report: Report, targetType: TargetType, timestamp: Int64, source: PacketSource,
                                existing: Option<TargetInfo>, part0: map<PacketSource, Bytes>)
    requires report.staticReport.Some? && report.staticReport.value.msg24Part.Some?
    requires report.staticReport.value.msg24Part != Some(0)
    requires source !in part0
    requires existing.None? || timestamp >= existing.value.stat.timestamp
    ensures UpdateTargetWithStatic(report, targetType, timestamp, source, existing, part0)
            == Update(DropOnKindChange(existing, targetType), part0)
  {
  }

  /** An accepted part B with a part A buffered for its source consumes that
      part A and yields a static facet holding both packets in order. */
  lemma Msg24PartBPaired(report: Report, targetType: TargetType, timestamp: Int64, source: PacketSource,
                         existing: Option<TargetInfo>, part0: map<PacketSource, Bytes>)
    requires report.staticReport.Some? && report.staticReport.value.msg24Part.Some?
    requires report.staticReport.value.msg24Part != Some(0)
    requires source in part0
    requires existing.None? || timestamp >= existing.value.stat.timestamp
    ensures var u := UpdateTargetWithStatic(report, targetType, timestamp, source, existing, part0);
            && u.part0 == part0 - {source}
            && u.target.Some?
            && u.target.value.stat.timestamp == timestamp
            && StaticPackets(u.target.value) == [part0[source], report.packet]
            && u.target.value.stat.shipType == report.staticReport.value.shipType
            && u.target.value.mmsi == report.mmsi
            && u.target.value.targetType == targetType
            && u.target.value.pos == (if existing.Some? && existing.value.targetType == targetType
                                      then existing.value.pos else NoPosition)
  {
  }

  // ------------------------------------------------------------ updateTarget

  /** For a vessel whose target type is unchanged, an update always yields a
      snapshot of that type, and neither facet's timestamp goes back. */
  lemma SameKindMonotone(existing: Option<TargetInfo>, report: Report, targetType: TargetType,
                         timestamp: Int64, source: PacketSource, part0: map<PacketSource, Bytes>)
    requires !IsPositionOnlyKind(targetType)
    requires existing.Some? && existing.value.targetType == targetType
    ensures var u := UpdateTarget(existing, report, targetType, timestamp, source, part0);
            && u.target.Some?
            && u.target.value.targetType == targetType
            && u.target.value.pos.timestamp >= existing.value.pos.timestamp
            && u.target.value.stat.timestamp >= existing.value.stat.timestamp
  {
  }

  /** A vessel report with neither position nor static data changes nothing. */
  lemma EmptyReportIgnored(existing: Option<TargetInfo>, report: Report, targetType: TargetType,
                           timestamp: Int64, source: PacketSource, part0: map<PacketSource, Bytes>)
    requires !IsPositionOnlyKind(targetType)
    requires report.vesselPosition.None? && report.staticReport.None?
    ensures UpdateTarget(existing, report, targetType, timestamp, source, part0) == Update(existing, part0)
  {
  }

  /** A report without static data never touches the static facet or the part
      A buffer while the target type is unchanged. */
  lemma PositionReportKeepsStaticFacet(existing: Option<TargetInfo>, report: Report, targetType: TargetType,
                                       timestamp: Int64, source: PacketSource, part0: map<PacketSource, Bytes>)
    requires !IsPositionOnlyKind(targetType)
    requires report.staticReport.None?
    requires existing.Some? && existing.value.targetType == targetType
    ensures var u := UpdateTarget(existing, report, targetType, timestamp, source, part0);
            && u.part0 == part0
            && u.target.Some?
            && u.target.value.stat == existing.value.stat
  {
  }

  /** A report without position data never touches the position facet while
      the target type is unchanged. */
  lemma StaticReportKeepsPositionFacet(existing: Option<TargetInfo>, report: Report, targetType: TargetType,
                                       timestamp: Int64, source: PacketSource, part0: map<PacketSource, Bytes>)
    requires !IsPositionOnlyKind(targetType)
    requires report.vesselPosition.None?
    requires existing.Some? && existing.value.targetType == targetType
    ensures var u := UpdateTarget(existing, report, targetType, timestamp, source, part0);
            && u.target.Some?
            && u.target.value.pos == existing.value.pos
  {
  }

  /** An accepted position report of a new target type drops the old static
      facet. */
  lemma KindChangeDropsStaticFacet(existing: Option<TargetInfo>, report: Report, targetType: TargetType,
                                   timestamp: Int64, source: PacketSource, part0: map<PacketSource, Bytes>)
    requires !IsPositionOnlyKind(targetType)
    requires report.vesselPosition.Some? && report.staticReport.None?
    requires existing.Some? && existing.value.targetType != targetType
    requires timestamp >= existing.value.pos.timestamp
    ensures var u := UpdateTarget(existing, report, targetType, timestamp, source, part0);
            && u.target.Some?
            && u.target.value.targetType == targetType
            && u.target.value.pos.timestamp == timestamp
            && u.target.value.stat == NoStatic
  {
  }

  /** An accepted single-part static report of a new target type drops the old
      position facet. */
  lemma KindChangeDropsPositionFacet(existing: Option<TargetInfo>, report: Report, targetType: TargetType,
                                     timestamp: Int64, source: PacketSource, part0: map<PacketSource, Bytes>)
    requires !IsPositionOnlyKind(targetType)
    requires report.vesselPosition.None?
    requires report.staticReport.Some? && report.staticReport.value.msg24Part.None?
    requires existing.Some? && existing.value.targetType != targetType
    requires timestamp >= existing.value.stat.timestamp
    ensures var u := UpdateTarget(existing, report, targetType, timestamp, source, part0);
            && u.target.Some?
            && u.target.value.targetType == targetType
            && u.target.value.stat.timestamp == timestamp
            && u.target.value.pos == NoPosition
  {
  }

  /** Part A and then part B of a message 24 from the same source, both
      accepted, leave the position facet alone and yield a static facet of two
      packets, with the source's buffer entry consumed. */
  lemma Msg24Reassembly(existing: Option<TargetInfo>, reportA: Report, reportB: Report, targetType: TargetType,
                        timeA: Int64, timeB: Int64, source: PacketSource, part0: map<PacketSource, Bytes>)
    requires !IsPositionOnlyKind(targetType)
    requires existing.None? || existing.value.targetType == targetType
    requires reportA.vesselPosition.None? && reportB.vesselPosition.None?
    requires reportA.staticReport.Some? && reportA.staticReport.value.msg24Part == Some(0)
    requires reportB.staticReport.Some? && reportB.staticReport.value.msg24Part.Some?
    requires reportB.staticReport.value.msg24Part != Some(0)
    requires existing.None? || (timeA >= existing.value.stat.timestamp && timeB >= existing.value.stat.timestamp)
    ensures var afterA := UpdateTarget(existing, reportA, targetType, timeA, source, part0);
            var afterB := UpdateTarget(afterA.target, reportB, targetType, timeB, source, afterA.part0);
            && afterA.target == existing
            && source in afterA.part0
            && afterB.part0 == part0 - {source}
            && afterB.target.Some?
            && StaticCount(afterB.target.value) == 2
            && StaticPackets(afterB.target.value) == [reportA.packet, reportB.packet]
            && afterB.target.value.stat.timestamp == timeB
            && afterB.target.value.pos == (if existing.Some? then existing.value.pos else NoPosition)
  {
  }

  // ------------------------------------------------------------------- merge

  /** The receiver wins whole when it is at least as new in both facets; the
      argument wins whole when it is at least as new in both and the receiver
      is not. */
  lemma MergeDominance(a: TargetInfo, b: TargetInfo)
    ensures a.pos.timestamp >= b.pos.timestamp && a.stat.timestamp >= b.stat.timestamp ==> Merge(a, b) == a
    ensures (&& !(a.pos.timestamp >= b.pos.timestamp && a.stat.timestamp >= b.stat.timestamp)
             && b.pos.timestamp >= a.pos.timestamp && b.stat.timestamp >= a.stat.timestamp)
            ==> Merge(a, b) == b
  {
  }

  /** When each snapshot is newer in one facet, the result is built on the one
      with the newer position and takes the other's static facet. */
  lemma MergeMixed(a: TargetInfo, b: TargetInfo)
    requires a.pos.timestamp > b.pos.timestamp && a.stat.timestamp < b.stat.timestamp
    ensures Merge(a, b) == a.(stat := b.stat)
    ensures Merge(b, a) == a.(stat := b.stat)
  {
  }

  lemma MergeIdempotent(a: TargetInfo)
    ensures Merge(a, a) == a
  {
  }

  /** `Merge` is commutative except when both timestamp pairs tie exactly, in
      which case the receiver is returned. */
  lemma MergeCommutative(a: TargetInfo, b: TargetInfo)
    ensures a.pos.timestamp != b.pos.timestamp || a.stat.timestamp != b.stat.timestamp ==> Merge(a, b) == Merge(b, a)
    ensures a.pos.timestamp == b.pos.timestamp && a.stat.timestamp == b.stat.timestamp ==> Merge(a, b) == a
  {
  }

  // -------------------------------------------------------- report streams

  /** One received packet with the context `updateTarget` is called with. */
  datatype Received = Received(report: Report, targetType: TargetType, timestamp: Int64, source: PacketSource)

  /** The snapshot and part A buffer after feeding `rs` to `UpdateTarget` in
      order, as the tracker does for the packets of one MMSI. */
  function ApplyAll(existing: Option<TargetInfo>, rs: seq<Received>, part0: map<PacketSource, Bytes>): (u: Update)
    ensures |rs| == 0 ==> u == Update(existing, part0)
    decreases |rs|
  {
    if |rs| == 0 then Update(existing, part0)
    else
      var first := UpdateTarget(existing, rs[0].report, rs[0].targetType, rs[0].timestamp, rs[0].source, part0);
      ApplyAll(first.target, rs[1..], first.part0)
  }

  /** Every snapshot reachable from a valid one (or from none) is valid. */
  lemma {:induction false} ApplyAllPreservesValid(existing: Option<TargetInfo>, rs: seq<Received>,
                                                  part0: map<PacketSource, Bytes>)
    requires ValidOption(existing)
    ensures ValidOption(ApplyAll(existing, rs, part0).target)
    decreases |rs|
  {
    if |rs| > 0 {
      var first := UpdateTarget(existing, rs[0].report, rs[0].targetType, rs[0].timestamp, rs[0].source, part0);
      UpdatePreservesValid(existing, rs[0].report, rs[0].targetType, rs[0].timestamp, rs[0].source, part0);
      ApplyAllPreservesValid(first.target, rs[1..], first.part0);
    }
  }

  /** While every packet names the same vessel target type as the snapshot,
      the snapshot survives and neither facet timestamp ever goes back. */
  lemma {:induction false} ApplyAllSameKindMonotone(existing: Option<TargetInfo>, rs: seq<Received>,
                                                    part0: map<PacketSource, Bytes>)
    requires existing.Some? && !IsPositionOnlyKind(existing.value.targetType)
    requires forall i :: 0 <= i < |rs| ==> rs[i].targetType == existing.value.targetType
    ensures var u := ApplyAll(existing, rs, part0);
            && u.target.Some?
            && u.target.value.targetType == existing.value.targetType
            && u.target.value.pos.timestamp >= existing.value.pos.timestamp
            && u.target.value.stat.timestamp >= existing.value.stat.timestamp
    decreases |rs|
  {
    if |rs| > 0 {
      var first := UpdateTarget(existing, rs[0].report, rs[0].targetType, rs[0].timestamp, rs[0].source, part0);
      SameKindMonotone(existing, rs[0].report, rs[0].targetType, rs[0].timestamp, rs[0].source, part0);
      ApplyAllSameKindMonotone(first.target, rs[1..], first.part0);
    }
  }

  // --------------------------------------------------------------- scenario

  /** A class A vessel: a position at t=100, message 24 part A at t=150 and
      part B at t=151 on the same channel, then a late position at t=50. */
  lemma VesselScenario(packetP: Bytes, packetA: Bytes, packetB: Bytes, packetLate: Bytes,
                       at: Option<Position>, kinematics: VesselPosition)
    ensures var chan := PacketSource("chanA");
            var pos := Report(123456789, packetP, at, Some(kinematics), None);
            var partA := Report(123456789, packetA, None, None, Some(StaticReport(70, Some(0))));
            var partB := Report(123456789, packetB, None, None, Some(StaticReport(70, Some(1))));
            var late := Report(123456789, packetLate, at, Some(kinematics), None);
            var u1 := UpdateTarget(None, pos, A, 100, chan, map[]);
            var u2 := UpdateTarget(u1.target, partA, A, 150, chan, u1.part0);
            var u3 := UpdateTarget(u2.target, partB, A, 151, chan, u2.part0);
            var u4 := UpdateTarget(u3.target, late, A, 50, chan, u3.part0);
            && u1.target.Some? && HasPositionInfo(u1.target.value) && StaticCount(u1.target.value) == 0
            && u2.target == u1.target && u2.part0 == map[chan := packetA]
            && u3.target.Some? && StaticCount(u3.target.value) == 2 && chan !in u3.part0
            && u3.target.value.pos == u1.target.value.pos
            && u4.target == u3.target
  {
  }
}
