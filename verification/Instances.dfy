/**
  The values the histograms aggregate: counters that wrap at 64 bits, and flow records.
  Both obey the laws that all results about totals rely on.
 */
module Instances {
  import opened Blocks

  type U32 = x: int | 0 <= x < 0x1_0000_0000
  type U64 = x: int | 0 <= x < 0x1_0000_0000_0000_0000

  function WrappingAdd32(a: U32, b: U32): U32 {
    if a + b < 0x1_0000_0000 then a + b else a + b - 0x1_0000_0000
  }

  function WrappingAdd64(a: U64, b: U64): U64 {
    if a + b < 0x1_0000_0000_0000_0000 then a + b else a + b - 0x1_0000_0000_0000_0000
  }

  const COUNTERS: Values<U64> := Values(0, WrappingAdd64)

  /** A flow record; the padding, which is always zero, is left out. */
  datatype FlowRecord =
    FlowRecord(packetCount: U64, byteSum: U64, firstSeen: U32, lastSeen: U32, recordCount: U32, tcpFlags: bv16)

  function Min32(a: U32, b: U32): U32 { if b < a then b else a }

  function Max32(a: U32, b: U32): U32 { if a < b then b else a }

  function JoinFlags(a: bv16, b: bv16): bv16 { a | b }

  function AddFlows(a: FlowRecord, b: FlowRecord): FlowRecord {
    FlowRecord(WrappingAdd64(a.packetCount, b.packetCount), WrappingAdd64(a.byteSum, b.byteSum),
               Min32(a.firstSeen, b.firstSeen), Max32(a.lastSeen, b.lastSeen),
               WrappingAdd32(a.recordCount, b.recordCount), JoinFlags(a.tcpFlags, b.tcpFlags))
  }

  const NO_FLOW: FlowRecord := FlowRecord(0, 0, 0xFFFF_FFFF, 0, 0, 0)

  const FLOWS: Values<FlowRecord> := Values(NO_FLOW, AddFlows)

  lemma CountersLawful()
    ensures Lawful(COUNTERS)
  {
    forall a, b, c ensures Law(COUNTERS, a, b, c) {}
  }

  lemma AddLaws(a: U64, b: U64, c: U64, x: U32, y: U32, z: U32)
    ensures WrappingAdd64(0, a) == a && WrappingAdd64(a, b) == WrappingAdd64(b, a)
    ensures WrappingAdd64(WrappingAdd64(a, b), c) == WrappingAdd64(a, WrappingAdd64(b, c))
    ensures WrappingAdd32(0, x) == x && WrappingAdd32(x, y) == WrappingAdd32(y, x)
    ensures WrappingAdd32(WrappingAdd32(x, y), z) == WrappingAdd32(x, WrappingAdd32(y, z))
  {
  }

  lemma ExtremeLaws(a: U32, b: U32, c: U32)
    ensures Min32(0xFFFF_FFFF, a) == a && Min32(a, b) == Min32(b, a) && Min32(Min32(a, b), c) == Min32(a, Min32(b, c))
    ensures Max32(0, a) == a && Max32(a, b) == Max32(b, a) && Max32(Max32(a, b), c) == Max32(a, Max32(b, c))
  {
  }

  lemma FlagsLaws(a: bv16, b: bv16, c: bv16)
    ensures JoinFlags(0, a) == a && JoinFlags(a, b) == JoinFlags(b, a)
    ensures JoinFlags(JoinFlags(a, b), c) == JoinFlags(a, JoinFlags(b, c))
  {
  }

  lemma FlowLaw(a: FlowRecord, b: FlowRecord, c: FlowRecord)
    ensures AddFlows(NO_FLOW, a) == a && AddFlows(a, b) == AddFlows(b, a)
    ensures AddFlows(AddFlows(a, b), c) == AddFlows(a, AddFlows(b, c))
  {
    hide WrappingAdd64, WrappingAdd32, Min32, Max32, JoinFlags;
    AddLaws(a.packetCount, b.packetCount, c.packetCount, a.recordCount, b.recordCount, c.recordCount);
    AddLaws(a.byteSum, b.byteSum, c.byteSum, 0, 0, 0);
    ExtremeLaws(a.firstSeen, b.firstSeen, c.firstSeen);
    ExtremeLaws(a.lastSeen, b.lastSeen, c.lastSeen);
    FlagsLaws(a.tcpFlags, b.tcpFlags, c.tcpFlags);
  }

  /** Counters add up, times take the earliest and the latest, flags are joined. */
  lemma FlowsLawful()
    ensures Lawful(FLOWS)
  {
    hide AddFlows;
    forall a, b, c ensures Law(FLOWS, a, b, c) { FlowLaw(a, b, c); }
  }
}
