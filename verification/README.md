# AIS target snapshot (`TargetInfo`) in Dafny

This project models the target snapshot of the AisLib tracker. The snapshot is `TargetInfo`, an immutable record of everything known about one AIS station, keyed by its MMSI. It holds two facets, and each facet has its own timestamp:

- the **position facet**: timestamp, position, heading, course and speed over ground, navigational status, and the raw position packet;
- the **static facet**: timestamp, ship type, and one or two raw static packets. There are two packets when the static report was a two-part message 24 (ITU-R M.1371, parts A and B).

Three kinds of operation are modelled:

- **updateTarget** builds the next snapshot from the current one (or none) and one received packet. ATON and BS targets keep only the newest position. Every other target goes through the position update and then the static update. Each update:
  - has its own staleness test;
  - discards the snapshot when the target type changed, but only after that test passes;
  - pairs message 24 parts through a caller-owned buffer of part A packets, keyed by packet source.
- **merge** reconciles two snapshots by comparing the timestamps of their facets.
- **Accessors** report the number of static packets, the packets themselves and whether each facet is present.

Files:

- `wrappers.dfy`: `Option`, which stands for Java's `null`.
- `java_types.dfy`: Java's `byte`, `int` and `long` ranges. `float` and `double` are kept as bit patterns, and the `(byte)` cast is written out.
- `ais_reports.dfy`: a received packet as the fields the tracker reads, already decoded, plus the raw bytes. It also holds the target types and packet sources.
- `tracker.dfy`: the snapshot, its accessors, `Merge` and the update functions. The updates return an `Update`: the next snapshot (`None` where the Java code returns `null`) and the next state of the part A buffer.
- `tracker_properties.dfy`: the properties proved about the model. They cover:
  - the facet invariant;
  - the acceptance rules;
  - message 24 pairing;
  - monotonicity while the target type stays the same;
  - the laws of merge;
  - streams of packets;
  - a worked scenario.

Behaviours of the Java code worth knowing:

- A vessel position update stores heading `0`. It does not store an "unknown" sentinel.
- A message 24 part A, and a part B with no part A waiting, return the snapshot left after the kind guard. On a target type change that is no snapshot at all (`None`), not the previous snapshot.
- The code does not require timestamps to be non-negative. Nothing in the model requires it either.
- Any message 24 part number other than 0 takes the part B branch, as the code's `== 0` test does.

## Model

| member | source | states |
|---|---|---|
| JavaTypes.ToByte | ais-lib-communication/src/main/java/dk/dma/ais/tracker/TargetInfo.java:221-222 | the `(byte)` cast yields the byte congruent to its argument modulo 256, and is the identity on values that already fit |
| Tracker.HasPositionInfo | ais-lib-communication/src/main/java/dk/dma/ais/tracker/TargetInfo.java:135-137 | position information is reported exactly when a position packet is held, which on a valid snapshot means exactly when the position facet is present |
| Tracker.HasStaticInfo | ais-lib-communication/src/main/java/dk/dma/ais/tracker/TargetInfo.java:144-146 | static information is reported exactly when a first static packet is held, which on a valid snapshot means exactly when the static facet is present |
| Tracker.StaticCount | ais-lib-communication/src/main/java/dk/dma/ais/tracker/TargetInfo.java:113-115 | the static packet count is at most 2, and positive exactly when static information is present |
| Tracker.StaticPackets | ais-lib-communication/src/main/java/dk/dma/ais/tracker/TargetInfo.java:120-128 | the static packets number exactly the static count: first the first stored packet, then the second |
| TrackerProperties.StaticCountAgrees | ais-lib-communication/src/main/java/dk/dma/ais/tracker/TargetInfo.java:113-146 | on a valid snapshot, a count of 0 means the static facet is absent and a count of 2 means a second packet is held; a second packet never exists without a first; no position packet means the position facet is absent |
| Tracker.MergeWithStaticFrom | ais-lib-communication/src/main/java/dk/dma/ais/tracker/TargetInfo.java:165-168 | the result keeps this target's identity, type and position facet, and takes the other target's whole static facet |
| Tracker.Merge | ais-lib-communication/src/main/java/dk/dma/ais/tracker/TargetInfo.java:148-156 | each facet timestamp of the result is the maximum of the two inputs; identity, type and position facet come together from one input, and the static facet comes from one input |
| TrackerProperties.MergeDominance | ais-lib-communication/src/main/java/dk/dma/ais/tracker/TargetInfo.java:149-153 | a receiver at least as new in both facets is returned whole; otherwise an argument at least as new in both facets is returned whole |
| TrackerProperties.MergeMixed | ais-lib-communication/src/main/java/dk/dma/ais/tracker/TargetInfo.java:154-155 | when each snapshot is newer in one facet, the result (in either argument order) is the newer-position snapshot carrying the other's static facet |
| TrackerProperties.MergeIdempotent | ais-lib-communication/src/main/java/dk/dma/ais/tracker/TargetInfo.java:148-156 | merging a snapshot with itself returns it |
| TrackerProperties.MergeCommutative | ais-lib-communication/src/main/java/dk/dma/ais/tracker/TargetInfo.java:148-156 | argument order does not matter unless both timestamp pairs tie exactly, and then the receiver is returned |
| TrackerProperties.MergePreservesValid | ais-lib-communication/src/main/java/dk/dma/ais/tracker/TargetInfo.java:148-168 | merging valid snapshots yields a valid snapshot: each facet is wholly absent or holds its packet |
| Tracker.DropOnKindChange | ais-lib-communication/src/main/java/dk/dma/ais/tracker/TargetInfo.java:211-215 | the snapshot survives the guard exactly when it exists and has the report's target type, and then unchanged |
| Tracker.NavStatusOf | ais-lib-communication/src/main/java/dk/dma/ais/tracker/TargetInfo.java:221-222 | the navigational status is -1 unless the message is a position message (types 1-3); otherwise it is the byte congruent to the decoded status modulo 256, so a status that fits in a byte is stored as is |
| Tracker.UpdateTargetWithPosition | ais-lib-communication/src/main/java/dk/dma/ais/tracker/TargetInfo.java:206-235 | a report without vessel position data, or older than the kept position, returns the existing snapshot; any new snapshot has the report's timestamp and target type |
| Tracker.WithStatic | ais-lib-communication/src/main/java/dk/dma/ais/tracker/TargetInfo.java:270-276 | the new static facet holds the given timestamp, packets and ship type; the position facet is the kept snapshot's, or absent if there is none |
| Tracker.UpdateTargetWithStatic | ais-lib-communication/src/main/java/dk/dma/ais/tracker/TargetInfo.java:237-281 | a report without static data, or older than the kept static facet, leaves snapshot and buffer unchanged; any new snapshot has the report's timestamp as static timestamp and the report's target type |
| Tracker.UpdateTarget | ais-lib-communication/src/main/java/dk/dma/ais/tracker/TargetInfo.java:187-204 | ATON and BS updates never touch the part A buffer; no update adds a key other than the packet's source or changes another source's entry |
| TrackerProperties.UpdatePreservesValid | ais-lib-communication/src/main/java/dk/dma/ais/tracker/TargetInfo.java:187-281 | every snapshot built from a valid snapshot (or from none) is valid, so a second static packet never exists without a first |
| TrackerProperties.PositionOnlyKindUpdate | ais-lib-communication/src/main/java/dk/dma/ais/tracker/TargetInfo.java:192-200 | for ATON and BS, a report no newer than the kept position returns the snapshot unchanged; otherwise the result has the report's timestamp and packet, heading, course, speed and status -1, and no static facet |
| TrackerProperties.StalePositionIgnored | ais-lib-communication/src/main/java/dk/dma/ais/tracker/TargetInfo.java:208-215 | a position older than the kept one returns the existing snapshot, even for another target type, because the kind guard runs after the timestamp test |
| TrackerProperties.AcceptedPosition | ais-lib-communication/src/main/java/dk/dma/ais/tracker/TargetInfo.java:210-231 | an accepted position sets timestamp, position, course, speed and packet from the report, heading 0, and the byte cast of the status for a position message or -1 otherwise; it keeps the static facet for the same type and drops it on a type change |
| TrackerProperties.StaleStaticIgnored | ais-lib-communication/src/main/java/dk/dma/ais/tracker/TargetInfo.java:239-241 | a static report older than the kept static facet leaves snapshot and buffer unchanged |
| TrackerProperties.AcceptedSingleStatic | ais-lib-communication/src/main/java/dk/dma/ais/tracker/TargetInfo.java:241-276 | an accepted single-part static report stores its packet alone, its timestamp and its ship type; it keeps the position facet for the same type and drops it on a type change |
| TrackerProperties.Msg24PartABuffered | ais-lib-communication/src/main/java/dk/dma/ais/tracker/TargetInfo.java:251-258 | an accepted part A is stored under its source, replacing any earlier one, and the snapshot after the kind guard is returned unchanged |
| TrackerProperties.Msg24PartAOnKindChangeDropsTarget | ais-lib-communication/src/main/java/dk/dma/ais/tracker/TargetInfo.java:244-258 | an accepted part A for a target whose type changed returns no snapshot |
| TrackerProperties.Msg24OrphanPartBDropped | ais-lib-communication/src/main/java/dk/dma/ais/tracker/TargetInfo.java:259-263 | a part B with no part A waiting for its source is discarded; the buffer is unchanged and the snapshot after the kind guard is returned |
| TrackerProperties.Msg24PartBPaired | ais-lib-communication/src/main/java/dk/dma/ais/tracker/TargetInfo.java:259-276 | a part B with a part A waiting removes that entry and yields the static packets [part A, part B], with its timestamp and ship type, the report's MMSI and target type, and the kept position facet for the same type or no position facet after a type change |
| TrackerProperties.SameKindMonotone | ais-lib-communication/src/main/java/dk/dma/ais/tracker/TargetInfo.java:202-203 | for a vessel whose type is unchanged, the result exists, keeps the type, and neither facet timestamp decreases |
| TrackerProperties.EmptyReportIgnored | ais-lib-communication/src/main/java/dk/dma/ais/tracker/TargetInfo.java:202-203 | a vessel report with neither position nor static data leaves snapshot and buffer unchanged |
| TrackerProperties.PositionReportKeepsStaticFacet | ais-lib-communication/src/main/java/dk/dma/ais/tracker/TargetInfo.java:206-235 | for a vessel type (not ATON or BS), a report with no static data leaves the static facet and the buffer unchanged while the type is unchanged |
| TrackerProperties.StaticReportKeepsPositionFacet | ais-lib-communication/src/main/java/dk/dma/ais/tracker/TargetInfo.java:237-281 | for a vessel type (not ATON or BS), a report with no position data leaves the position facet unchanged while the type is unchanged |
| TrackerProperties.KindChangeDropsStaticFacet | ais-lib-communication/src/main/java/dk/dma/ais/tracker/TargetInfo.java:210-226 | for a vessel type, an accepted position in a report with no static data, of a new target type, yields a snapshot of that type with no static facet |
| TrackerProperties.KindChangeDropsPositionFacet | ais-lib-communication/src/main/java/dk/dma/ais/tracker/TargetInfo.java:241-272 | for a vessel type, an accepted single-part static report with no position data, of a new target type, yields a snapshot of that type with no position facet |
| TrackerProperties.Msg24Reassembly | ais-lib-communication/src/main/java/dk/dma/ais/tracker/TargetInfo.java:251-276 | part A then part B from one source, both accepted, yield the static packets [A, B] and the part B timestamp; the position facet is untouched and the source's entry is consumed |
| TrackerProperties.ApplyAllPreservesValid | ais-lib-communication/src/main/java/dk/dma/ais/tracker/TargetInfo.java:33-36 | every snapshot reached by any sequence of updates from a valid snapshot (or none) is valid |
| TrackerProperties.ApplyAllSameKindMonotone | ais-lib-communication/src/main/java/dk/dma/ais/tracker/TargetInfo.java:33-36 | over a sequence of packets that keep a vessel's target type, the snapshot survives and neither facet timestamp decreases |
| TrackerProperties.VesselScenario | ais-lib-communication/src/main/java/dk/dma/ais/tracker/TargetInfo.java:187-281 | a position at t=100, part A at t=150 and part B at t=151 give two static packets and consume the buffer entry; a later-arriving position stamped t=50 is ignored |

## Left out

- `getCountry` (country lookup from the MMSI): it is a lookup in a foreign country table.
- `getPositionPacket`, and the decoding of the packets that `getStaticPackets` returns: decoding is the packet codec's job. The model keeps the raw bytes, their presence and their count.
- Message decoding (`tryGetAisMessage`, `getValidPosition`, `getCog`, `getSog`, `getNavStatus`, `getShipType`, `getPartNumber`, `toByteArray`): a `Report` arrives with these values already decoded.
- `float` and `double` arithmetic: course, speed and coordinates are only copied, so they are kept as bit patterns.
- Java serialization of the snapshot.
- Thread safety of the shared part A buffer and of the store that installs each result: these are concurrency concerns of the caller. `ApplyAll` stands for one sequential caller.
- `DuplicateFilterConfiguration` (a 10000 ms window and a factory for the duplicate filter) and `TransformerConfiguration` (a factory base class): they are configuration holders with no algorithm of their own.
