/** The per-flow record stream: what an entry accumulates, when it exports, and what the
    consumer of the ring can rely on. */
module FlowTelemetry {
  import opened Wrappers

  // ---------------------------------------------------------------- decisions

  /** The decision a packet was handled with. */
  datatype Decision =
    Decision(ctState: bv8, ctDir: bv8, verdict: bv8, reason: bv8, ifaceKindBit: bv8, ruleId: Option<bv32>)

  function RuleValue(d: Decision): bv32 { if d.ruleId.Some? then d.ruleId.value else 0 }

  function Pack(ctState: bv8, ctDir: bv8, verdict: bv8, reason: bv8, iface: bv8, rid: bv32): bv64 {
    (ctState as bv64) | ((ctDir as bv64) << 8) | ((verdict as bv64) << 16) | ((reason as bv64) << 24)
    | ((iface as bv64) << 32) | (((rid & 0xFF_FFFF) as bv64) << 40)
  }

  /** The packed key keeps five fields and 24 bits of the rule id. */
  function PackDecision(d: Decision): bv64 {
    Pack(d.ctState, d.ctDir, d.verdict, d.reason, d.ifaceKindBit, RuleValue(d))
  }

  /** Key, full rule id and known flag: what the tracker compares instead of decisions. */
  datatype Digest = Digest(key: bv64, ruleId: bv32, ruleIdKnown: bool)

  function DigestOf(d: Decision): Digest { Digest(PackDecision(d), RuleValue(d), d.ruleId.Some?) }

  lemma PackKeepsBytes(a: bv8, b: bv8, c: bv8, d: bv8, e: bv8, rid: bv32)
    ensures var k := Pack(a, b, c, d, e, rid);
            && k & 0xFF == a as bv64 && (k >> 8) & 0xFF == b as bv64 && (k >> 16) & 0xFF == c as bv64
            && (k >> 24) & 0xFF == d as bv64 && (k >> 32) & 0xFF == e as bv64
  {
  }

  /** Comparing digests is comparing decisions in all six fields, although the packed key alone
      truncates the rule id. */
  lemma DigestIsExact(x: Decision, y: Decision)
    ensures DigestOf(x) == DigestOf(y) <==> x == y
  {
    PackKeepsBytes(x.ctState, x.ctDir, x.verdict, x.reason, x.ifaceKindBit, RuleValue(x));
    PackKeepsBytes(y.ctState, y.ctDir, y.verdict, y.reason, y.ifaceKindBit, RuleValue(y));
  }

  function Low24(rid: bv32): bv32 { rid & 0xFF_FFFF }

  lemma PackKeepsLowBits(k: bv64, a: bv8, b: bv8, c: bv8, d: bv8, e: bv8, rid: bv32)
    requires k == Pack(a, b, c, d, e, rid)
    ensures ((k >> 40) & 0xFF_FFFF) as bv32 == Low24(rid)
  {
  }

  lemma PackSeesLowBits(a: bv8, b: bv8, c: bv8, d: bv8, e: bv8, x: bv32, y: bv32)
    requires Low24(x) == Low24(y)
    ensures Pack(a, b, c, d, e, x) == Pack(a, b, c, d, e, y)
  {
  }

  predicate SameButRule(x: Decision, y: Decision) {
    && x.ctState == y.ctState && x.ctDir == y.ctDir && x.verdict == y.verdict && x.reason == y.reason
    && x.ifaceKindBit == y.ifaceKindBit
  }

  lemma PackedKeyKeepsFields(x: Decision, y: Decision)
    requires PackDecision(x) == PackDecision(y)
    ensures SameButRule(x, y)
  {
    PackKeepsBytes(x.ctState, x.ctDir, x.verdict, x.reason, x.ifaceKindBit, RuleValue(x));
    PackKeepsBytes(y.ctState, y.ctDir, y.verdict, y.reason, y.ifaceKindBit, RuleValue(y));
  }

  lemma PackedKeyKeepsLowBits(x: Decision, y: Decision)
    requires PackDecision(x) == PackDecision(y)
    ensures Low24(RuleValue(x)) == Low24(RuleValue(y))
  {
    var k := PackDecision(x);
    PackKeepsLowBits(k, x.ctState, x.ctDir, x.verdict, x.reason, x.ifaceKindBit, RuleValue(x));
    PackKeepsLowBits(k, y.ctState, y.ctDir, y.verdict, y.reason, y.ifaceKindBit, RuleValue(y));
  }

  /** The packed key alone tells decisions apart exactly up to the low 24 bits of the rule value. */
  lemma PackedKeyIsExactUpTo24Bits(x: Decision, y: Decision)
    ensures PackDecision(x) == PackDecision(y)
      <==> SameButRule(x, y) && Low24(RuleValue(x)) == Low24(RuleValue(y))
  {
    if PackDecision(x) == PackDecision(y) {
      PackedKeyKeepsFields(x, y);
      PackedKeyKeepsLowBits(x, y);
    }
    if SameButRule(x, y) && Low24(RuleValue(x)) == Low24(RuleValue(y)) {
      PackSeesLowBits(x.ctState, x.ctDir, x.verdict, x.reason, x.ifaceKindBit, RuleValue(x), RuleValue(y));
    }
  }

  lemma PackedKeyAloneIsNot(d: Decision)
    requires d.ruleId == Some(0)
    ensures PackDecision(d) == PackDecision(d.(ruleId := Some(0x100_0000)))
    ensures PackDecision(d) == PackDecision(d.(ruleId := None))
  {
    assert (0x100_0000 as bv32) & 0xFF_FFFF == 0;
  }

  // ---------------------------------------------------------------- one entry

  datatype Direction = Unknown | In | Out

  datatype Counters =
    Counters(totalPackets: nat, totalBytes: nat, inPackets: nat, inBytes: nat, outPackets: nat, outBytes: nat)

  const NoCounters := Counters(0, 0, 0, 0, 0, 0)
  const NoDecision := Decision(0, 0, 0, 0, 0, None)
  const NoDigest := Digest(0, 0, false)

  /** The telemetry part of a tracker entry. `last` holds the last* fields; the rule id of a record
      comes from `decision`. */
  datatype Tele = Tele(
    flowId: nat, sessionId: nat, recordSeq: nat, counters: Counters, lastDir: Direction,
    firstSeenNs: nat, lastSeenNs: nat, last: Decision, decision: Digest,
    lastExportPackets: nat, lastExportBytes: nat, lastExportTsNs: nat, lastExport: Digest)

  datatype Config = Config(packetsThreshold: nat, bytesThreshold: nat, maxExportIntervalMs: nat)

  datatype Facts = Facts(tsNs: nat, bytes: nat, dir: Direction, decision: Decision)

  datatype Kind = Begin | Update | End

  datatype Record = Record(kind: Kind, flowId: nat, seqNo: nat, tsNs: nat, counters: Counters, decision: Decision)

  const NsPerMs: nat := 1_000_000

  function FreshTele(flowId: nat, sessionId: nat, ts: nat): Tele {
    Tele(flowId, sessionId, 0, NoCounters, Unknown, ts, ts, NoDecision, NoDigest, 0, 0, 0, NoDigest)
  }

  /** The reset for another session: a new id, everything zero but the first-seen time, which a
      never-observed entry keeps. */
  function ResetFor(t: Tele, flowId: nat, session: nat, ts: nat): Tele {
    FreshTele(flowId, session, if t.sessionId == 0 && t.firstSeenNs != 0 then t.firstSeenNs else ts)
  }

  /** Count one packet and remember its decision. */
  function Count(t: Tele, p: Facts): Tele {
    var c := t.counters.(totalPackets := t.counters.totalPackets + 1, totalBytes := t.counters.totalBytes + p.bytes);
    t.(counters := match p.dir
       case In => c.(inPackets := c.inPackets + 1, inBytes := c.inBytes + p.bytes)
       case Out => c.(outPackets := c.outPackets + 1, outBytes := c.outBytes + p.bytes)
       case Unknown => c,
       firstSeenNs := if t.firstSeenNs == 0 then p.tsNs else t.firstSeenNs,
       lastSeenNs := if t.lastSeenNs < p.tsNs then p.tsNs else t.lastSeenNs,
       lastDir := p.dir, last := p.decision, decision := DigestOf(p.decision))
  }

  function LoadCounters(t: Tele, derive: bool): Counters {
    if derive then t.counters.(totalPackets := t.counters.inPackets + t.counters.outPackets,
                               totalBytes := t.counters.inBytes + t.counters.outBytes)
    else t.counters
  }

  predicate DeltaAtLeast(current: nat, last: nat, threshold: nat) {
    threshold != 0 && current >= last && current - last >= threshold
  }

  /** The export test, made once before and once inside the export guard. */
  predicate Due(t: Tele, c: Counters, ts: nat, cfg: Config) {
    || (t.decision != t.lastExport && t.lastExportTsNs != 0)
    || DeltaAtLeast(c.totalPackets, t.lastExportPackets, cfg.packetsThreshold)
    || DeltaAtLeast(c.totalBytes, t.lastExportBytes, cfg.bytesThreshold)
    || t.lastExportTsNs == 0
    || (cfg.maxExportIntervalMs != 0 && ts > t.lastExportTsNs
        && ts - t.lastExportTsNs >= cfg.maxExportIntervalMs * NsPerMs)
  }

  function ExportTs(t: Tele, p: Facts): nat { if t.lastSeenNs != 0 then t.lastSeenNs else p.tsNs }

  /** Both tests, on an entry that has just counted `p`. */
  predicate Exports(t: Tele, p: Facts, cfg: Config) {
    && Due(t, t.counters, p.tsNs, cfg)
    && Due(t, LoadCounters(t, true), ExportTs(t, p), cfg)
  }

  function RuleIdOf(d: Digest): Option<bv32> { if d.ruleIdKnown then Some(d.ruleId) else None }

  function ObservedRecord(t: Tele, p: Facts): Record {
    Record(if t.lastExportTsNs == 0 then Begin else Update, t.flowId, t.recordSeq + 1, ExportTs(t, p),
           LoadCounters(t, true), p.decision.(ruleId := RuleIdOf(t.decision)))
  }

  function EndRecord(t: Tele, now: nat): Record {
    Record(End, t.flowId, t.recordSeq + 1, now, LoadCounters(t, t.lastDir != Unknown),
           t.last.(ruleId := RuleIdOf(t.decision)))
  }

  /** What an entry remembers of a record that reached the ring. */
  function Exported(t: Tele, r: Record): Tele {
    t.(recordSeq := r.seqNo, lastExportPackets := r.counters.totalPackets, lastExportBytes := r.counters.totalBytes,
       lastExportTsNs := r.tsNs, lastExport := t.decision)
  }

  /** An End is written only for an entry of the running session that has a Begin. */
  predicate Endable(t: Tele, session: nat) {
    session != 0 && t.sessionId == session && t.flowId != 0 && t.lastExportTsNs != 0
  }

  // ---------------------------------------------------------------- streams

  predicate Sums(c: Counters) {
    c.totalPackets == c.inPackets + c.outPackets && c.totalBytes == c.inBytes + c.outBytes
  }

  predicate AtMost(a: Counters, b: Counters) {
    && a.totalPackets <= b.totalPackets && a.totalBytes <= b.totalBytes && a.inPackets <= b.inPackets
    && a.inBytes <= b.inBytes && a.outPackets <= b.outPackets && a.outBytes <= b.outBytes
  }

  /** What the consumer may rely on for one flow id: numbered 1..n, Begin first and only first, End
      only last, counters that add up and never go back. */
  ghost predicate StreamOk(rs: seq<Record>) {
    && (forall i | 0 <= i < |rs| :: rs[i].seqNo == i + 1 && (rs[i].kind == Begin <==> i == 0) && Sums(rs[i].counters))
    && (forall i | 0 <= i < |rs| - 1 :: rs[i].kind != End)
    && (forall i, j | 0 <= i < j < |rs| :: AtMost(rs[i].counters, rs[j].counters))
  }

  ghost function RecordsOf(ring: seq<Record>, f: nat): (rs: seq<Record>)
    ensures forall i | 0 <= i < |rs| :: rs[i].flowId == f
  {
    if ring == [] then [] else
    var rest := RecordsOf(ring[..|ring| - 1], f);
    if ring[|ring| - 1].flowId == f then rest + [ring[|ring| - 1]] else rest
  }

  lemma RecordsOfSnoc(ring: seq<Record>, r: Record, f: nat)
    ensures RecordsOf(ring + [r], f) == if r.flowId == f then RecordsOf(ring, f) + [r] else RecordsOf(ring, f)
  {
    assert (ring + [r])[..|ring|] == ring;
  }

  lemma {:induction false} RecordsOfGrows(ring: seq<Record>, more: seq<Record>, f: nat)
    ensures RecordsOf(ring, f) <= RecordsOf(ring + more, f)
  {
    if more == [] {
      assert ring + more == ring;
    } else {
      var n := |more| - 1;
      RecordsOfGrows(ring, more[..n], f);
      assert ring + more == ring + more[..n] + [more[n]];
      RecordsOfSnoc(ring + more[..n], more[n], f);
    }
  }

  /** Once a flow id has its End, whatever is written later says nothing more about that id. */
  lemma EndIsFinal(before: seq<Record>, after: seq<Record>, f: nat, i: nat)
    requires before <= after && StreamOk(RecordsOf(after, f))
    requires i < |RecordsOf(before, f)| && RecordsOf(before, f)[i].kind == End
    ensures RecordsOf(after, f) == RecordsOf(before, f)
  {
    RecordsOfGrows(before, after[|before|..], f);
    assert after == before + after[|before|..];
    assert RecordsOf(before, f)[i] == RecordsOf(after, f)[i];
  }

  lemma StreamSnoc(rs: seq<Record>, r: Record)
    requires StreamOk(rs)
    requires r.seqNo == |rs| + 1 && (r.kind == Begin <==> rs == []) && Sums(r.counters)
    requires rs != [] ==> rs[|rs| - 1].kind != End && AtMost(rs[|rs| - 1].counters, r.counters)
    ensures StreamOk(rs + [r])
  {
    forall i, j | 0 <= i < j < |rs + [r]| ensures AtMost((rs + [r])[i].counters, (rs + [r])[j].counters) {
      if j == |rs| && i < |rs| - 1 {
        assert AtMost(rs[i].counters, rs[|rs| - 1].counters);
      }
    }
  }

  // ---------------------------------------------------------------- an entry and its stream

  /** What ties an entry to the records written under its id. */
  ghost predicate Tied(t: Tele, rs: seq<Record>) {
    && t.recordSeq == |rs|
    && (t.lastExportTsNs == 0 <==> rs == [])
    && Sums(t.counters)
    && (rs == [] ==> t.lastExportPackets == 0 && t.lastExportBytes == 0)
    && (rs != [] ==>
      var r := rs[|rs| - 1];
      && AtMost(r.counters, t.counters) && t.decision == DigestOf(t.last)
      && t.lastExportPackets == r.counters.totalPackets && t.lastExportBytes == r.counters.totalBytes
      && t.lastExportTsNs == r.tsNs
      && t.lastExport == DigestOf(r.decision))
  }

  /** No End yet. */
  ghost predicate Open(rs: seq<Record>) { rs != [] ==> rs[|rs| - 1].kind != End }

  predicate Unwritten(t: Tele) {
    t.recordSeq == t.lastExportTsNs == t.lastExportPackets == t.lastExportBytes == 0 && Sums(t.counters)
  }

  lemma CountKeepsTied(t: Tele, rs: seq<Record>, p: Facts)
    requires Tied(t, rs) && p.dir != Unknown
    ensures Tied(Count(t, p), rs) && LoadCounters(Count(t, p), true) == Count(t, p).counters
  {
  }

  /** In a run without concurrency the test inside the guard never overrules the one before it. */
  lemma FirstTestDecides(t: Tele, p: Facts, cfg: Config)
    requires Sums(t.counters) && p.tsNs <= t.lastSeenNs
    ensures Exports(t, p, cfg) <==> Due(t, t.counters, p.tsNs, cfg)
  {
    assert LoadCounters(t, true) == t.counters;
  }

  lemma RuleIdOfDigest(d: Decision)
    ensures d.(ruleId := RuleIdOf(DigestOf(d))) == d
  {
  }

  /** A Begin or Update continues its stream. The entry stays tied to it exactly if it was ever seen at a
      time above zero, since a zero export time means "never exported". */
  lemma ObservedIsTied(t: Tele, rs: seq<Record>, p: Facts)
    requires Tied(t, rs) && StreamOk(rs) && Open(rs) && t.last == p.decision && t.decision == DigestOf(p.decision)
    requires p.tsNs <= t.lastSeenNs
    ensures var r := ObservedRecord(t, p); StreamOk(rs + [r]) && Open(rs + [r]) && r.decision == p.decision
    ensures var r := ObservedRecord(t, p); Tied(Exported(t, r), rs + [r]) <==> t.lastSeenNs > 0
  {
    RuleIdOfDigest(p.decision);
    StreamSnoc(rs, ObservedRecord(t, p));
  }

  /** What follows a record at time zero: a second Begin. */
  lemma ZeroTimeBeginsAgain(t: Tele, p: Facts, q: Facts, cfg: Config)
    requires t.lastExportTsNs == 0 && t.lastSeenNs == 0 && p.tsNs == 0 && q.dir != Unknown
    ensures var after := Count(Exported(Count(t, p), ObservedRecord(Count(t, p), p)), q);
      && ObservedRecord(Count(t, p), p).kind == Begin
      && Exports(after, q, cfg) && ObservedRecord(after, q).kind == Begin
  {
  }

  /** An End continues its stream. */
  lemma EndContinues(t: Tele, rs: seq<Record>, now: nat)
    requires Tied(t, rs) && StreamOk(rs) && Open(rs) && rs != []
    ensures var r := EndRecord(t, now); StreamOk(rs + [r]) && r.decision == t.last
  {
    RuleIdOfDigest(t.last);
    StreamSnoc(rs, EndRecord(t, now));
  }

  /** Why the session has to close after the disabled ends: in a session left open the next decision
      change writes an Update behind the End. */
  lemma OpenSessionOutlivesItsEnds(t: Tele, now: nat, p: Facts, cfg: Config)
    requires Sums(t.counters) && t.decision == DigestOf(t.last) && now > 0 && p.dir != Unknown && p.tsNs > 0
    requires p.decision != t.last
    ensures var ended := Exported(t, EndRecord(t, now)); var counted := Count(ended, p);
            && Exports(counted, p, cfg)
            && ObservedRecord(counted, p).kind == Update
            && ObservedRecord(counted, p).seqNo == EndRecord(t, now).seqNo + 1
  {
    DigestIsExact(p.decision, t.last);
    FirstTestDecides(Count(Exported(t, EndRecord(t, now)), p), p, cfg);
  }

  // ---------------------------------------------------------------- the whole plane

  /** What one entry owes the ring: an entry of the running session is tied to its stream, which is open.
      `ended` holds the entries that are exempt, such as those given an End by a disable in progress. */
  ghost predicate EntryOk(h: nat, t: Tele, nextFlowId: nat, session: nat, lastSession: nat, ring: seq<Record>,
                          ended: set<nat>) {
    && 0 < t.flowId < nextFlowId && t.sessionId <= lastSession
    && (h !in ended && session != 0 && t.sessionId == session ==>
      Tied(t, RecordsOf(ring, t.flowId)) && Open(RecordsOf(ring, t.flowId)))
  }

  /** Two entries never share a flow id. */
  ghost predicate Apart(entries: map<nat, Tele>, h: nat, k: nat) {
    h in entries && k in entries && h != k ==> entries[h].flowId != entries[k].flowId
  }

  ghost predicate EntriesOk(entries: map<nat, Tele>, nextFlowId: nat, session: nat, lastSession: nat, ring: seq<Record>,
                            ended: set<nat>) {
    && (forall h {:trigger EntryOk(h, entries[h], nextFlowId, session, lastSession, ring, ended)} | h in entries ::
      EntryOk(h, entries[h], nextFlowId, session, lastSession, ring, ended))
    && (forall h, k {:trigger Apart(entries, h, k)} :: Apart(entries, h, k))
  }

  ghost predicate FlowOk(ring: seq<Record>, nextFlowId: nat, f: nat) {
    StreamOk(RecordsOf(ring, f)) && (nextFlowId <= f ==> RecordsOf(ring, f) == [])
  }

  ghost predicate StreamsOk(ring: seq<Record>, nextFlowId: nat) {
    forall f: nat {:trigger FlowOk(ring, nextFlowId, f)} :: FlowOk(ring, nextFlowId, f)
  }

  lemma WriteKeepsStreams(ring: seq<Record>, nextFlowId: nat, r: Record)
    requires StreamsOk(ring, nextFlowId) && r.flowId < nextFlowId && StreamOk(RecordsOf(ring, r.flowId) + [r])
    ensures StreamsOk(ring + [r], nextFlowId)
  {
    forall f: nat ensures FlowOk(ring + [r], nextFlowId, f) {
      RecordsOfSnoc(ring, r, f);
      assert FlowOk(ring, nextFlowId, f);
    }
  }

  /** An entry changes and its record is written: the other entries keep their streams. */
  lemma WriteKeepsEntries(entries: map<nat, Tele>, nextFlowId: nat, session: nat, lastSession: nat, ring: seq<Record>,
                          ended: set<nat>, h: nat, t: Tele, r: Record, ended': set<nat>)
    requires EntriesOk(entries, nextFlowId, session, lastSession, ring, ended) && h in entries
    requires t.flowId == entries[h].flowId == r.flowId && t.sessionId == entries[h].sessionId
    requires ended <= ended'
    requires h in ended' || (Tied(t, RecordsOf(ring, r.flowId) + [r]) && Open(RecordsOf(ring, r.flowId) + [r]))
    ensures EntriesOk(entries[h := t], nextFlowId, session, lastSession, ring + [r], ended')
  {
    RecordsOfSnoc(ring, r, r.flowId);
    forall k | k in entries && k != h
      ensures EntryOk(k, entries[k], nextFlowId, session, lastSession, ring + [r], ended')
    {
      RecordsOfSnoc(ring, r, entries[k].flowId);
      assert EntryOk(k, entries[k], nextFlowId, session, lastSession, ring, ended) && Apart(entries, h, k);
    }
    assert EntryOk(h, entries[h], nextFlowId, session, lastSession, ring, ended);
    var entries' := entries[h := t];
    forall i, k ensures Apart(entries', i, k) {
      assert Apart(entries, i, k);
    }
  }

  /** An entry changes, or appears, without a record. */
  lemma PutKeepsEntries(entries: map<nat, Tele>, nextFlowId: nat, session: nat, lastSession: nat, ring: seq<Record>,
                        h: nat, t: Tele, nextFlowId': nat)
    requires EntriesOk(entries, nextFlowId, session, lastSession, ring, {})
    requires EntryOk(h, t, nextFlowId', session, lastSession, ring, {}) && nextFlowId <= nextFlowId'
    requires nextFlowId <= t.flowId || (h in entries && t.flowId == entries[h].flowId)
    ensures EntriesOk(entries[h := t], nextFlowId', session, lastSession, ring, {})
  {
    forall k | k in entries && k != h
      ensures EntryOk(k, entries[k], nextFlowId', session, lastSession, ring, {}) && entries[k].flowId != t.flowId
    {
      assert EntryOk(k, entries[k], nextFlowId, session, lastSession, ring, {}) && Apart(entries, h, k);
    }
    var entries' := entries[h := t];
    forall i, k ensures Apart(entries', i, k) {
      assert Apart(entries, i, k);
    }
  }

  /** A new id: nothing has been written under it. */
  lemma NewIdIsClean(ring: seq<Record>, nextFlowId: nat, nextFlowId': nat)
    requires StreamsOk(ring, nextFlowId) && nextFlowId <= nextFlowId'
    ensures RecordsOf(ring, nextFlowId) == [] && StreamsOk(ring, nextFlowId')
  {
    assert FlowOk(ring, nextFlowId, nextFlowId);
    forall f: nat ensures FlowOk(ring, nextFlowId', f) {
      assert FlowOk(ring, nextFlowId, f);
    }
  }

  lemma NewIdKeepsEntries(entries: map<nat, Tele>, nextFlowId: nat, nextFlowId': nat, session: nat, lastSession: nat,
                          ring: seq<Record>, h: nat, t: Tele)
    requires EntriesOk(entries, nextFlowId, session, lastSession, ring, {})
    requires 0 < nextFlowId == t.flowId < nextFlowId' && t.sessionId <= lastSession
    requires Unwritten(t) && RecordsOf(ring, t.flowId) == []
    ensures EntriesOk(entries[h := t], nextFlowId', session, lastSession, ring, {})
  {
    PutKeepsEntries(entries, nextFlowId, session, lastSession, ring, h, t, nextFlowId');
  }

  lemma EntriesWithout(entries: map<nat, Tele>, nextFlowId: nat, session: nat, lastSession: nat, ring: seq<Record>,
                       h: nat)
    requires EntriesOk(entries, nextFlowId, session, lastSession, ring, {h})
    ensures EntriesOk(entries - {h}, nextFlowId, session, lastSession, ring, {})
  {
    var rest := entries - {h};
    forall k | k in rest ensures EntryOk(k, rest[k], nextFlowId, session, lastSession, ring, {}) {
      assert EntryOk(k, entries[k], nextFlowId, session, lastSession, ring, {h});
    }
    forall i, k ensures Apart(rest, i, k) {
      assert Apart(entries, i, k);
    }
  }

  /** Outside the old session nothing is owed to it. */
  lemma SessionChanges(entries: map<nat, Tele>, nextFlowId: nat, session: nat, lastSession: nat, ring: seq<Record>,
                       ended: set<nat>,
                       session': nat, lastSession': nat)
    requires EntriesOk(entries, nextFlowId, session, lastSession, ring, ended)
    requires lastSession <= lastSession' && (session' == 0 || lastSession < session')
    ensures EntriesOk(entries, nextFlowId, session', lastSession', ring, {})
    ensures forall h | h in entries :: entries[h].sessionId <= lastSession
  {
    forall h | h in entries
      ensures EntryOk(h, entries[h], nextFlowId, session', lastSession', ring, {})
      ensures entries[h].sessionId <= lastSession
    {
      assert EntryOk(h, entries[h], nextFlowId, session, lastSession, ring, ended);
    }
  }

  lemma UntiedIsNotOk(entries: map<nat, Tele>, nextFlowId: nat, session: nat, lastSession: nat, ring: seq<Record>,
                      h: nat)
    requires session != 0 && InSession(entries, session, h) && !Tied(entries[h], RecordsOf(ring, entries[h].flowId))
    ensures !EntriesOk(entries, nextFlowId, session, lastSession, ring, {})
  {
    assert !EntryOk(h, entries[h], nextFlowId, session, lastSession, ring, {});
  }

  predicate InSession(entries: map<nat, Tele>, session: nat, h: nat) { h in entries && entries[h].sessionId == session }

  /** The telemetry of the entry a packet at `ts` is counted on. */
  function Attached(entries: map<nat, Tele>, nextFlowId: nat, session: nat, h: nat, ts: nat): Tele {
    if InSession(entries, session, h) then entries[h]
    else if h in entries then ResetFor(entries[h], nextFlowId, session, ts)
    else FreshTele(nextFlowId, session, ts)
  }

  /** Counting `p` on `t` calls for a record that would carry time zero. */
  predicate WritesAtZero(t: Tele, p: Facts, cfg: Config) { Count(t, p).lastSeenNs == 0 && Exports(Count(t, p), p, cfg) }

  /** One packet more in the totals and in its own direction, nothing in the other. */
  predicate Adds(before: Counters, after: Counters, p: Facts) {
    && after.totalPackets == before.totalPackets + 1 && after.totalBytes == before.totalBytes + p.bytes
    && (p.dir == In ==>
      && after.inPackets == before.inPackets + 1 && after.inBytes == before.inBytes + p.bytes
      && after.outPackets == before.outPackets && after.outBytes == before.outBytes)
    && (p.dir == Out ==>
      && after.outPackets == before.outPackets + 1 && after.outBytes == before.outBytes + p.bytes
      && after.inPackets == before.inPackets && after.inBytes == before.inBytes)
  }

  /** `u` is `t` with the packet counted. */
  predicate Observed(t: Tele, u: Tele, p: Facts) {
    && u.flowId == t.flowId && u.sessionId == t.sessionId && Adds(t.counters, u.counters, p) && u.last == p.decision
    && u.lastSeenNs >= t.lastSeenNs && u.lastSeenNs >= p.tsNs
    && (u.lastSeenNs == t.lastSeenNs || u.lastSeenNs == p.tsNs)
    && (t.firstSeenNs != 0 ==> u.firstSeenNs == t.firstSeenNs)
  }

  /** An entry that is moved to a session starts from nothing under a new id. One that was only committed
      keeps the time it was first seen; one observed in an older session does not. */
  lemma AttachedAnew(entries: map<nat, Tele>, nextFlowId: nat, session: nat, h: nat, ts: nat)
    requires !InSession(entries, session, h)
    ensures var t := Attached(entries, nextFlowId, session, h, ts);
      && t.flowId == nextFlowId && t.sessionId == session && t.counters == Totals([]) && t.recordSeq == 0
      && t.lastExportTsNs == 0 && t.lastSeenNs == t.firstSeenNs
      && (h in entries && entries[h].sessionId == 0 && entries[h].firstSeenNs > 0 ==>
        t.firstSeenNs == entries[h].firstSeenNs)
      && (h !in entries || entries[h].sessionId != 0 ==> t.firstSeenNs == ts)
  {
  }

  /** After a packet that repeats the decision of the last record there is still less to report than each
      threshold that is set, and the interval since that record has not passed. */
  predicate Quiet(t: Tele, r: Record, p: Facts, cfg: Config) {
    && r.decision == p.decision
    && (cfg.packetsThreshold == 0 || t.counters.totalPackets + 1 - r.counters.totalPackets < cfg.packetsThreshold)
    && (cfg.bytesThreshold == 0 || t.counters.totalBytes + p.bytes - r.counters.totalBytes < cfg.bytesThreshold)
    && (cfg.maxExportIntervalMs == 0 || p.tsNs - r.tsNs < cfg.maxExportIntervalMs * 1_000_000)
  }

  /** A record is called for by the first packet of a stream and by every packet that is not quiet, and by
      no other. */
  lemma RecordIffNotQuiet(t: Tele, rs: seq<Record>, p: Facts, cfg: Config)
    requires Tied(t, rs) && p.dir != Unknown
    ensures Exports(Count(t, p), p, cfg) <==> rs == [] || !Quiet(t, rs[|rs| - 1], p, cfg)
  {
    CountKeepsTied(t, rs, p);
    FirstTestDecides(Count(t, p), p, cfg);
    if rs != [] {
      DigestIsExact(p.decision, rs[|rs| - 1].decision);
    }
  }

  // ---------------------------------------------------------------- what the counters count

  ghost function Packets(fs: seq<Facts>, d: Direction): nat {
    if fs == [] then 0 else Packets(fs[..|fs| - 1], d) + if fs[|fs| - 1].dir == d then 1 else 0
  }

  ghost function Bytes(fs: seq<Facts>, d: Direction): nat {
    if fs == [] then 0 else Bytes(fs[..|fs| - 1], d) + if fs[|fs| - 1].dir == d then fs[|fs| - 1].bytes else 0
  }

  /** The sums over packets, direction by direction. */
  ghost function Totals(fs: seq<Facts>): Counters {
    Counters(Packets(fs, In) + Packets(fs, Out), Bytes(fs, In) + Bytes(fs, Out),
             Packets(fs, In), Bytes(fs, In), Packets(fs, Out), Bytes(fs, Out))
  }

  lemma TotalsSnoc(fs: seq<Facts>, p: Facts, c: Counters)
    requires p.dir != Unknown && Adds(Totals(fs), c, p)
    ensures c == Totals(fs + [p])
  {
    assert (fs + [p])[..|fs|] == fs;
  }

  /** The packets observed under a flow id, oldest first. */
  ghost function Under(seen: map<nat, seq<Facts>>, f: nat): seq<Facts> { if f in seen then seen[f] else [] }

  ghost predicate EntryTallies(t: Tele, seen: map<nat, seq<Facts>>) { t.counters == Totals(Under(seen, t.flowId)) }

  /** A record sums up the packets observed under its id when it was written. */
  ghost predicate RecordTallies(r: Record, seen: map<nat, seq<Facts>>) {
    exists n {:trigger Under(seen, r.flowId)[..n]} | 0 <= n <= |Under(seen, r.flowId)| ::
      r.counters == Totals(Under(seen, r.flowId)[..n])
  }

  ghost predicate Tallied(entries: map<nat, Tele>, nextFlowId: nat, ring: seq<Record>, seen: map<nat, seq<Facts>>) {
    && (forall f | f in seen :: f < nextFlowId)
    && (forall h {:trigger EntryTallies(entries[h], seen)} | h in entries :: EntryTallies(entries[h], seen))
    && (forall i {:trigger RecordTallies(ring[i], seen)} | 0 <= i < |ring| :: RecordTallies(ring[i], seen))
  }

  lemma TallyFresh(entries: map<nat, Tele>, nextFlowId: nat, ring: seq<Record>, seen: map<nat, seq<Facts>>, h: nat,
                   session: nat, ts: nat)
    ensures Tallied(entries, nextFlowId, ring, seen) ==>
      Tallied(entries[h := FreshTele(nextFlowId, session, ts)], nextFlowId + 1, ring, seen)
  {
    if Tallied(entries, nextFlowId, ring, seen) {
      var entries' := entries[h := FreshTele(nextFlowId, session, ts)];
      forall k | k in entries' ensures EntryTallies(entries'[k], seen) {
        assert k != h ==> EntryTallies(entries[k], seen);
      }
    }
  }

  lemma RecordStaysTallied(r: Record, seen: map<nat, seq<Facts>>, f: nat, p: Facts)
    requires RecordTallies(r, seen)
    ensures RecordTallies(r, seen[f := Under(seen, f) + [p]])
  {
    var fs, seen' := Under(seen, r.flowId), seen[f := Under(seen, f) + [p]];
    var n :| 0 <= n <= |fs| && r.counters == Totals(fs[..n]);
    assert Under(seen', r.flowId)[..n] == fs[..n];
  }

  lemma OtherStaysTallied(t: Tele, seen: map<nat, seq<Facts>>, f: nat, fs: seq<Facts>)
    requires EntryTallies(t, seen) && t.flowId != f
    ensures EntryTallies(t, seen[f := fs])
  {
  }

  lemma OneMoreTallied(t: Tele, u: Tele, seen: map<nat, seq<Facts>>, p: Facts)
    requires EntryTallies(t, seen) && p.dir != Unknown && u.flowId == t.flowId && Adds(t.counters, u.counters, p)
    ensures EntryTallies(u, seen[t.flowId := Under(seen, t.flowId) + [p]])
  {
    TotalsSnoc(Under(seen, t.flowId), p, u.counters);
  }

  lemma TallyPacket(entries: map<nat, Tele>, nextFlowId: nat, ring: seq<Record>, seen: map<nat, seq<Facts>>, h: nat,
                    t: Tele, p: Facts)
    requires Tallied(entries, nextFlowId, ring, seen) && h in entries && p.dir != Unknown
    requires t.flowId == entries[h].flowId < nextFlowId && Adds(entries[h].counters, t.counters, p)
    requires forall k {:trigger Apart(entries, h, k)} :: Apart(entries, h, k)
    ensures Tallied(entries[h := t], nextFlowId, ring, seen[t.flowId := Under(seen, t.flowId) + [p]])
  {
    var fs := Under(seen, t.flowId) + [p];
    var entries', seen' := entries[h := t], seen[t.flowId := fs];
    forall k | k in entries' ensures EntryTallies(entries'[k], seen') {
      assert EntryTallies(entries[k], seen);
      if k == h {
        OneMoreTallied(entries[h], t, seen, p);
      } else {
        assert Apart(entries, h, k);
        OtherStaysTallied(entries[k], seen, t.flowId, fs);
      }
    }
    forall i | 0 <= i < |ring| ensures RecordTallies(ring[i], seen') {
      RecordStaysTallied(ring[i], seen, t.flowId, p);
    }
  }

  /** Writing a record that carries the counters of its entry. */
  lemma TallyRecord(entries: map<nat, Tele>, nextFlowId: nat, ring: seq<Record>, seen: map<nat, seq<Facts>>, h: nat,
                    t: Tele, r: Record)
    requires Tallied(entries, nextFlowId, ring, seen) && h in entries
    requires t.flowId == entries[h].flowId == r.flowId && t.counters == entries[h].counters == r.counters
    ensures Tallied(entries[h := t], nextFlowId, ring + [r], seen)
  {
    var fs := Under(seen, r.flowId);
    assert EntryTallies(entries[h], seen) && fs[..|fs|] == fs;
    var entries' := entries[h := t];
    forall k | k in entries' ensures EntryTallies(entries'[k], seen) {
      assert k != h ==> EntryTallies(entries[k], seen);
    }
    forall i | 0 <= i < |ring + [r]| ensures RecordTallies((ring + [r])[i], seen) {
      assert i < |ring| ==> RecordTallies(ring[i], seen);
    }
  }

  lemma CountRecord(entries: map<nat, Tele>, nextFlowId: nat, ring: seq<Record>, seen: map<nat, seq<Facts>>, h: nat,
                    derive: bool, t: Tele, r: Record)
    requires Tallied(entries, nextFlowId, ring, seen) && h in entries
    requires t.flowId == entries[h].flowId == r.flowId && t.counters == entries[h].counters
    requires r.counters == LoadCounters(entries[h], derive)
    ensures Tallied(entries[h := t], nextFlowId, ring + [r], seen)
  {
    assert EntryTallies(entries[h], seen);
    TotalsSum(entries[h], seen);
    LoadsTheSame(entries[h], derive);
    TallyRecord(entries, nextFlowId, ring, seen, h, t, r);
  }

  lemma TallyWithout(entries: map<nat, Tele>, nextFlowId: nat, ring: seq<Record>, seen: map<nat, seq<Facts>>, h: nat)
    requires Tallied(entries, nextFlowId, ring, seen)
    ensures Tallied(entries - {h}, nextFlowId, ring, seen)
  {
    forall k | k in entries - {h} ensures EntryTallies((entries - {h})[k], seen) {
      assert EntryTallies(entries[k], seen);
    }
  }

  /** The counters of a record add up whichever way they are loaded. */
  lemma LoadsTheSame(t: Tele, derive: bool)
    requires Sums(t.counters)
    ensures LoadCounters(t, derive) == t.counters
  {
  }

  lemma TotalsSum(t: Tele, seen: map<nat, seq<Facts>>)
    requires EntryTallies(t, seen)
    ensures Sums(t.counters)
  {
  }

  /** The entries of both families, the shared id counter and what has reached the ring. */
  class TelemetryPlane {
    var entries: map<nat, Tele>
    var nextFlowId: nat
    var session: nat
    var lastSession: nat
    var ring: seq<Record>

    // History: the packets observed under each flow id.
    ghost var seen: map<nat, seq<Facts>>

    /** The counters of every entry are the sums over the packets observed under its id, and those of every
        record the sums when it was written. */
    ghost predicate Counted()
      reads this`entries, this`nextFlowId, this`ring, this`seen
    {
      Tallied(entries, nextFlowId, ring, seen)
    }

    ghost predicate ValidBut(ended: set<nat>)
      reads this
    {
      && 0 < nextFlowId && session <= lastSession
      && StreamsOk(ring, nextFlowId)
      && EntriesOk(entries, nextFlowId, session, lastSession, ring, ended)
    }

    ghost predicate Valid()
      reads this
    {
      ValidBut({})
    }

    constructor ()
      ensures Valid() && Counted() && entries == map[] && ring == [] && session == 0
    {
      entries, nextFlowId, session, lastSession, ring := map[], 1, 0, 0, [];
      seen := map[];
    }

    /** Start an entry, new or reset, under the next id: nothing has been written under it. */
    method Install(h: nat, t: Tele)
      requires t.flowId == nextFlowId && Unwritten(t)
      modifies this`entries, this`nextFlowId
      ensures entries == old(entries)[h := t] && nextFlowId == old(nextFlowId) + 1
      ensures old(Valid()) && t.sessionId <= lastSession ==> Valid() && RecordsOf(ring, t.flowId) == []
    {
      var next := nextFlowId + 1;
      if Valid() && t.sessionId <= lastSession {
        NewIdIsClean(ring, nextFlowId, next);
        NewIdKeepsEntries(entries, nextFlowId, next, session, lastSession, ring, h, t);
      }
      entries := entries[h := t];
      nextFlowId := next;
    }

    /** A commit makes an entry that belongs to no session. */
    method Commit(h: nat, ts: nat)
      requires h !in entries
      modifies this`entries, this`nextFlowId
      ensures (old(Valid()) ==> Valid()) && (old(Counted()) ==> Counted())
      ensures entries == old(entries)[h := FreshTele(old(nextFlowId), 0, ts)] && nextFlowId == old(nextFlowId) + 1
    {
      TallyFresh(entries, nextFlowId, ring, seen, h, 0, ts);
      Install(h, FreshTele(nextFlowId, 0, ts));
    }

    /** Session ids are never used again, so no entry belongs to a new session. A session that is still
        open is preempted: its streams end where they stand, and nothing is owed to them any more. */
    method OpenSession()
      modifies this`session, this`lastSession
      ensures session == lastSession == old(lastSession) + 1
      ensures old(ValidBut(entries.Keys)) ==> Valid() && forall h | h in entries :: entries[h].sessionId < session
    {
      if ValidBut(entries.Keys) {
        SessionChanges(entries, nextFlowId, session, lastSession, ring, entries.Keys, lastSession + 1, lastSession + 1);
      }
      lastSession := lastSession + 1;
      session := lastSession;
    }

    /** The entry a packet is counted on: found or inserted, and moved to the running session. */
    method Attach(h: nat, ts: nat)
      requires session != 0
      modifies this`entries, this`nextFlowId
      ensures entries == old(entries)[h := Attached(old(entries), old(nextFlowId), session, h, ts)]
      ensures (old(Valid()) ==> Valid()) && (old(Counted()) ==> Counted())
      ensures old(Valid()) && !InSession(old(entries), session, h) ==> RecordsOf(ring, entries[h].flowId) == []
    {
      if !InSession(entries, session, h) {
        var t := Attached(entries, nextFlowId, session, h, ts);
        TallyFresh(entries, nextFlowId, ring, seen, h, session, t.firstSeenNs);
        Install(h, t);
      }
    }

    /** Observe one packet; `ok` says whether a ring write would succeed. A successful observation
        leaves less unexported than any nonzero threshold and the current decision exported. Nothing
        goes wrong unless a record is written at time zero, and then with that entry alone. */
    method Observe(h: nat, p: Facts, cfg: Config, ok: bool)
      modifies this`entries, this`nextFlowId, this`ring, this`seen
      ensures session == 0 || p.dir == Unknown ==>
        entries == old(entries) && ring == old(ring) && nextFlowId == old(nextFlowId) && seen == old(seen)
      ensures old(Valid() && Counted()) ==> Counted()
      ensures old(ring) <= ring && |ring| <= |old(ring)| + 1 && (!ok ==> ring == old(ring))
      ensures session != 0 && p.dir != Unknown ==>
        var t := Attached(old(entries), old(nextFlowId), session, h, p.tsNs);
        && entries.Keys == old(entries.Keys) + {h}
        && (forall k | k in entries && k != h :: entries[k] == old(entries[k]))
        && Observed(t, entries[h], p) && seen == old(seen)[t.flowId := Under(old(seen), t.flowId) + [p]]
        && (old(Valid()) ==> ValidBut({h}) && (Valid() <==> !(ok && WritesAtZero(t, p, cfg))))
        && (old(Valid()) && p.tsNs > 0 ==> Valid())
        && var rs := RecordsOf(old(ring), t.flowId);
        && (old(Valid()) && ok ==> (ring != old(ring) <==> rs == [] || !Quiet(t, rs[|rs| - 1], p, cfg)))
        && (old(Valid()) && ok ==>
          RecordsOf(ring, t.flowId) != [] && Settled(entries[h], RecordsOf(ring, t.flowId), p, cfg))
    {
      if session != 0 && p.dir != Unknown {
        Attach(h, p.tsNs);
        CountAndExport(h, p, cfg, ok);
      }
    }

    method CountAndExport(h: nat, p: Facts, cfg: Config, ok: bool)
      requires session != 0 && p.dir != Unknown && InSession(entries, session, h)
      modifies this`entries, this`ring, this`seen
      ensures old(Valid() && Counted()) ==> Counted()
      ensures seen == old(seen)[old(entries[h].flowId) := Under(old(seen), old(entries[h].flowId)) + [p]]
      ensures entries.Keys == old(entries.Keys) && old(ring) <= ring && |ring| <= |old(ring)| + 1
      ensures !ok ==> ring == old(ring)
      ensures forall k | k in entries && k != h :: entries[k] == old(entries[k])
      ensures Observed(old(entries[h]), entries[h], p)
      ensures old(Valid()) ==> ValidBut({h}) && (Valid() <==> !(ok && WritesAtZero(old(entries[h]), p, cfg)))
      ensures var rs := old(RecordsOf(ring, entries[h].flowId));
        old(Valid()) && ok ==> (ring != old(ring) <==> rs == [] || !Quiet(old(entries[h]), rs[|rs| - 1], p, cfg))
      ensures old(Valid()) && ok ==> RecordsOf(ring, entries[h].flowId) != []
                                     && Settled(entries[h], RecordsOf(ring, entries[h].flowId), p, cfg)
    {
      if Valid() {
        assert EntryOk(h, entries[h], nextFlowId, session, lastSession, ring, {});
        RecordIffNotQuiet(entries[h], RecordsOf(ring, entries[h].flowId), p, cfg);
      }
      Tally(h, p);
      Export(h, p, cfg, ok);
    }

    /** Write a record of an entry that has just counted `p`, if one is called for. */
    method Export(h: nat, p: Facts, cfg: Config, ok: bool)
      requires session != 0 && InSession(entries, session, h) && p.tsNs <= entries[h].lastSeenNs
      requires entries[h].last == p.decision && entries[h].decision == DigestOf(p.decision)
      modifies this`entries, this`ring
      ensures entries.Keys == old(entries.Keys) && forall k | k in entries && k != h :: entries[k] == old(entries[k])
      ensures entries[h].flowId == old(entries[h].flowId) && entries[h].sessionId == old(entries[h].sessionId)
      ensures entries[h].counters == old(entries[h].counters) && entries[h].last == old(entries[h].last)
      ensures entries[h].lastSeenNs == old(entries[h].lastSeenNs)
      ensures entries[h].firstSeenNs == old(entries[h].firstSeenNs)
      ensures old(ring) <= ring && |ring| == |old(ring)| + if ok && Exports(old(entries[h]), p, cfg) then 1 else 0
      ensures old(Counted()) ==> Counted()
      ensures old(Valid()) ==> ValidBut({h})
      ensures old(Valid()) ==>
        (Valid() <==> !(ok && Exports(old(entries[h]), p, cfg) && old(entries[h].lastSeenNs) == 0))
      ensures old(Valid()) && ok ==> RecordsOf(ring, entries[h].flowId) != []
                                     && Settled(entries[h], RecordsOf(ring, entries[h].flowId), p, cfg)
    {
      ghost var sound := Valid();
      if sound {
        assert EntryOk(h, entries[h], nextFlowId, session, lastSession, ring, {});
      }
      var t := entries[h];
      if Exports(t, p, cfg) && ok {
        Emit(h, p);
        if sound {
          SettledByExport(t, RecordsOf(ring, t.flowId), p, cfg);
        }
      } else if sound {
        WidenEnded(entries, nextFlowId, session, lastSession, ring, {}, {h});
        if ok {
          SettledAlready(t, RecordsOf(ring, t.flowId), p, cfg);
        }
      }
    }

    method Tally(h: nat, p: Facts)
      requires session != 0 && InSession(entries, session, h) && p.dir != Unknown
      modifies this`entries, this`seen
      ensures entries == old(entries)[h := Count(old(entries[h]), p)]
      ensures seen == old(seen)[old(entries[h].flowId) := Under(old(seen), old(entries[h].flowId)) + [p]]
      ensures old(Valid() && Counted()) ==> Counted()
      ensures old(Valid()) ==> Valid() && Tied(entries[h], RecordsOf(ring, entries[h].flowId))
    {
      var t := entries[h];
      if Valid() {
        assert EntryOk(h, t, nextFlowId, session, lastSession, ring, {});
        CountKeepsTied(t, RecordsOf(ring, t.flowId), p);
        PutKeepsEntries(entries, nextFlowId, session, lastSession, ring, h, Count(t, p), nextFlowId);
        if Counted() {
          TallyPacket(entries, nextFlowId, ring, seen, h, Count(t, p), p);
        }
      }
      entries := entries[h := Count(t, p)];
      seen := seen[t.flowId := Under(seen, t.flowId) + [p]];
    }

    /** A Begin or Update that reaches the ring. */
    method Emit(h: nat, p: Facts)
      requires session != 0 && InSession(entries, session, h) && p.tsNs <= entries[h].lastSeenNs
      requires entries[h].last == p.decision && entries[h].decision == DigestOf(p.decision)
      modifies this`entries, this`ring
      ensures ring == old(ring) + [ObservedRecord(old(entries[h]), p)]
      ensures entries == old(entries)[h := Exported(old(entries[h]), ObservedRecord(old(entries[h]), p))]
      ensures RecordsOf(ring, entries[h].flowId) ==
        old(RecordsOf(ring, entries[h].flowId)) + [ObservedRecord(old(entries[h]), p)]
      ensures old(Valid()) ==> ValidBut({h}) && (Valid() <==> old(entries[h].lastSeenNs) > 0)
      ensures old(Counted()) ==> Counted()
    {
      var t := entries[h];
      var r := ObservedRecord(t, p);
      if Counted() {
        CountRecord(entries, nextFlowId, ring, seen, h, true, Exported(t, r), r);
      }
      RecordsOfSnoc(ring, r, r.flowId);
      ghost var sound := Valid();
      if sound {
        assert EntryOk(h, t, nextFlowId, session, lastSession, ring, {}) && FlowOk(ring, nextFlowId, t.flowId);
        ObservedIsTied(t, RecordsOf(ring, t.flowId), p);
        WriteKeepsStreams(ring, nextFlowId, r);
        WriteKeepsEntries(entries, nextFlowId, session, lastSession, ring, {}, h, Exported(t, r), r, {h});
        if t.lastSeenNs > 0 {
          WriteKeepsEntries(entries, nextFlowId, session, lastSession, ring, {}, h, Exported(t, r), r, {});
        }
      }
      entries := entries[h := Exported(t, r)];
      ring := ring + [r];
      if sound && t.lastSeenNs == 0 {
        UntiedIsNotOk(entries, nextFlowId, session, lastSession, ring, h);
      }
    }

    /** The End of one entry, if it is due one. */
    method ExportEnd(h: nat, now: nat, ok: bool, ghost ended: set<nat>) returns (exported: bool)
      requires h in entries
      modifies this`entries, this`ring
      ensures entries.Keys == old(entries.Keys) && old(ring) <= ring
      ensures exported <==> ok && Endable(old(entries[h]), session)
      ensures ring == old(ring) + if exported then [EndRecord(old(entries[h]), now)] else []
      ensures forall k | k in entries && k != h :: entries[k] == old(entries[k])
      ensures old(ValidBut(ended)) && h !in ended ==> ValidBut({h} + ended)
      ensures old(ValidBut(ended)) && h !in ended ==>
        (exported <==> ok && session != 0 && InSession(old(entries), session, h)
                       && RecordsOf(old(ring), old(entries[h].flowId)) != [])
      ensures old(Counted()) ==> Counted()
    {
      var t := entries[h];
      ghost var sound := ValidBut(ended) && h !in ended;
      if sound {
        assert EntryOk(h, t, nextFlowId, session, lastSession, ring, ended);
      }
      exported := false;
      if Endable(t, session) && ok {
        var r := EndRecord(t, now);
        if Counted() {
          CountRecord(entries, nextFlowId, ring, seen, h, t.lastDir != Unknown, Exported(t, r), r);
        }
        if sound {
          assert EntryOk(h, t, nextFlowId, session, lastSession, ring, ended) && FlowOk(ring, nextFlowId, t.flowId);
          EndContinues(t, RecordsOf(ring, t.flowId), now);
          WriteKeepsStreams(ring, nextFlowId, r);
          WriteKeepsEntries(entries, nextFlowId, session, lastSession, ring, ended, h, Exported(t, r), r, {h} + ended);
        }
        entries := entries[h := Exported(t, r)];
        ring := ring + [r];
        exported := true;
      } else if sound {
        WidenEnded(entries, nextFlowId, session, lastSession, ring, ended, {h} + ended);
      }
    }

    /** Sweep or eviction of one entry: its End, if any, is the last thing said about its id. */
    method Retire(h: nat, now: nat, ok: bool)
      requires h in entries
      modifies this`entries, this`ring
      ensures entries == old(entries) - {h} && (old(Valid()) ==> Valid()) && (old(Counted()) ==> Counted())
      ensures ring == old(ring) +
        if ok && Endable(old(entries[h]), session) then [EndRecord(old(entries[h]), now)] else []
    {
      ghost var sound := Valid();
      var exported := ExportEnd(h, now, ok, {});
      if sound {
        assert {h} + {} == {h};
        EntriesWithout(entries, nextFlowId, session, lastSession, ring, h);
      }
      if Counted() {
        TallyWithout(entries, nextFlowId, ring, seen, h);
      }
      entries := entries - {h};
      assert entries == old(entries) - {h};
    }

    /** Disabling: without a session nothing happens; otherwise Ends for the entries the budgeted walk
        visits, and the session is closed. */
    method Disable(visited: seq<nat>, now: nat, ok: seq<bool>) returns (emitted: nat)
      requires |ok| == |visited|
      requires forall i | 0 <= i < |visited| :: visited[i] in entries
      requires forall i, j | 0 <= i < j < |visited| :: visited[i] != visited[j]
      modifies this`entries, this`ring, this`session
      ensures session == 0 && entries.Keys == old(entries.Keys) && old(ring) <= ring
      ensures (old(Valid()) ==> Valid()) && (old(Counted()) ==> Counted())
      ensures |ring| == |old(ring)| + emitted && forall i | |old(ring)| <= i < |ring| :: ring[i].kind == End
      ensures old(session) == 0 ==> emitted == 0 && entries == old(entries)
    {
      emitted := 0;
      if session == 0 {
        return;
      }
      ghost var sound, ended: set<nat> := Valid(), {};
      for i := 0 to |visited|
        invariant session == old(session) && entries.Keys == old(entries.Keys) && (sound ==> ValidBut(ended))
        invariant old(Counted()) ==> Counted()
        invariant forall k | i <= k < |visited| :: visited[k] !in ended
        invariant old(ring) <= ring && |ring| == |old(ring)| + emitted
        invariant forall k | |old(ring)| <= k < |ring| :: ring[k].kind == End
      {
        var exported := ExportEnd(visited[i], now, ok[i], ended);
        ended := {visited[i]} + ended;
        if exported { emitted := emitted + 1; }
      }
      if sound {
        SessionChanges(entries, nextFlowId, session, lastSession, ring, ended, 0, lastSession);
      }
      session := 0;
    }
  }

  lemma WidenEnded(entries: map<nat, Tele>, nextFlowId: nat, session: nat, lastSession: nat, ring: seq<Record>,
                   ended: set<nat>, ended': set<nat>)
    requires EntriesOk(entries, nextFlowId, session, lastSession, ring, ended) && ended <= ended'
    ensures EntriesOk(entries, nextFlowId, session, lastSession, ring, ended')
  {
    forall k | k in entries ensures EntryOk(k, entries[k], nextFlowId, session, lastSession, ring, ended') {
      assert EntryOk(k, entries[k], nextFlowId, session, lastSession, ring, ended);
    }
  }

  /** Nothing of a flow is left waiting: less than each nonzero threshold since the last record,
      which carries the current decision in all six fields. */
  ghost predicate Settled(t: Tele, rs: seq<Record>, p: Facts, cfg: Config)
    requires rs != []
  {
    var r := rs[|rs| - 1];
    && r.decision == p.decision
    && (cfg.packetsThreshold != 0 ==> t.counters.totalPackets - r.counters.totalPackets < cfg.packetsThreshold)
    && (cfg.bytesThreshold != 0 ==> t.counters.totalBytes - r.counters.totalBytes < cfg.bytesThreshold)
    && (cfg.maxExportIntervalMs != 0 ==> p.tsNs - t.lastExportTsNs < cfg.maxExportIntervalMs * NsPerMs)
  }

  lemma SettledAlready(t: Tele, rs: seq<Record>, p: Facts, cfg: Config)
    requires Tied(t, rs) && t.last == p.decision && p.tsNs <= t.lastSeenNs && !Exports(t, p, cfg)
    ensures rs != [] && Settled(t, rs, p, cfg)
  {
    FirstTestDecides(t, p, cfg);
    DigestIsExact(rs[|rs| - 1].decision, p.decision);
  }

  lemma SettledByExport(t: Tele, rs: seq<Record>, p: Facts, cfg: Config)
    requires Sums(t.counters) && t.decision == DigestOf(p.decision) && p.tsNs <= t.lastSeenNs
    requires rs != [] && rs[|rs| - 1] == ObservedRecord(t, p)
    ensures Settled(Exported(t, ObservedRecord(t, p)), rs, p, cfg)
  {
    RuleIdOfDigest(p.decision);
  }
}
