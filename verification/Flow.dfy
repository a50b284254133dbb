/** What the connection tracker is for: packets, flow keys, and the tracker as a plain map from
    unordered address pairs to entries.  The hashed table is held against this map. */
module Flow {
  import opened Wrappers
  import T = TcpPeers

  /** Addresses are numbers, 32 or 128 bits wide; the algorithm is the same for both. */
  datatype Endpoint = Endpoint(ip: nat, port: nat, icmpType: nat, icmpCode: nat, icmpId: nat)

  datatype Key = Key(uid: nat, proto: nat, src: Endpoint, dst: Endpoint)

  datatype Packet = Packet(tsNs: nat, uid: nat, srcIp: nat, dstIp: nat, proto: nat, isFragment: bool,
                           ipPayloadLen: nat, srcPort: nat, dstPort: nat,
                           hasTcp: bool, tcpFlags: bv8, dataOffsetWords: nat,
                           hasIcmp: bool, icmpType: nat, icmpCode: nat, icmpId: nat)

  datatype CtState = ANY | NEW | ESTABLISHED | INVALID
  datatype CtDirection = ANY_DIRECTION | ORIG | REPLY
  datatype View = View(state: CtState, direction: CtDirection, createOnAccept: bool)

  datatype Family = V4 | V6

  const TCP := 6
  const UDP := 17

  function IcmpProto(f: Family): nat { if f.V4? then 1 else 58 }

  // ---------------------------------------------------------------- keys

  function Reverse(k: Key): Key { k.(src := k.dst, dst := k.src) }

  /** The identity of a flow: both directions, in no order. */
  function Pair(k: Key): set<Key> { {k, Reverse(k)} }

  predicate Matches(e: Entry, k: Key) { e.key == k || Reverse(e.key) == k }

  lemma MatchIsPair(e: Entry, k: Key)
    ensures Matches(e, k) <==> Pair(e.key) == Pair(k)
  {
    if Pair(e.key) == Pair(k) {
      assert k in Pair(e.key);
    }
    if Reverse(e.key) == k {
      assert Reverse(k) == e.key;
    }
  }

  /** Reply type of a request-like ICMP type and back; None where the tracker has no pairing. */
  function ReverseIcmpType(f: Family, t: nat): Option<nat> {
    if f.V4? then
      if t == 8 then Some(0) else if t == 0 then Some(8)
      else if t == 13 then Some(14) else if t == 14 then Some(13)
      else if t == 15 then Some(16) else if t == 16 then Some(15) else None
    else
      if t == 128 then Some(129) else if t == 129 then Some(128) else None
  }

  function MakeKey(f: Family, p: Packet): Option<Key> {
    var src, dst := Endpoint(p.srcIp, 0, 0, 0, 0), Endpoint(p.dstIp, 0, 0, 0, 0);
    if p.proto == TCP || p.proto == UDP then
      if (p.proto == TCP && !p.hasTcp) || p.srcPort == 0 || p.dstPort == 0 then None
      else Some(Key(p.uid, p.proto, src.(port := p.srcPort), dst.(port := p.dstPort)))
    else if p.proto == IcmpProto(f) then
      if !p.hasIcmp || ReverseIcmpType(f, p.icmpType).None? || p.icmpCode != 0 then None
      else Some(Key(p.uid, p.proto, src.(icmpType := p.icmpType, icmpId := p.icmpId),
                    dst.(icmpType := ReverseIcmpType(f, p.icmpType).value, icmpId := p.icmpId)))
    else Some(Key(p.uid, p.proto, src, dst))
  }

  /** The key of a packet observed for telemetry although it has no flow key. */
  function MakeObservationKey(p: Packet): Key {
    var t, i := if p.hasIcmp then p.icmpType else 0, if p.hasIcmp then p.icmpId else 0;
    Key(p.uid, p.proto, Endpoint(p.srcIp, 0, t, 0xFE, i), Endpoint(p.dstIp, 0, t, 0xFE, i))
  }

  /** Such keys never meet a flow key, in either direction, although both live in one table. */
  lemma ObservationsAreApart(f: Family, p: Packet, q: Packet)
    requires MakeKey(f, q).Some?
    ensures Pair(MakeObservationKey(p)) !! Pair(MakeKey(f, q).value)
  {
    forall k | k in Pair(MakeKey(f, q).value) ensures k.src.icmpCode == 0 {
    }
    forall k | k in Pair(MakeObservationKey(p)) ensures k.src.icmpCode == 0xFE {
    }
  }

  /** The answer to a packet: addresses, ports and message type turned round. */
  function Answer(f: Family, p: Packet): Packet {
    p.(srcIp := p.dstIp, dstIp := p.srcIp, srcPort := p.dstPort, dstPort := p.srcPort,
       icmpType := if ReverseIcmpType(f, p.icmpType).Some? then ReverseIcmpType(f, p.icmpType).value else p.icmpType)
  }

  /** A packet has a key exactly when its answer has, and they are each other's reverse. */
  lemma AnswerHasReverseKey(f: Family, p: Packet)
    ensures MakeKey(f, Answer(f, p)).Some? <==> MakeKey(f, p).Some?
    ensures MakeKey(f, p).Some? ==> MakeKey(f, Answer(f, p)) == Some(Reverse(MakeKey(f, p).value))
  {
  }

  /** Two packets travel the same way in the same conversation. */
  predicate SameDirection(f: Family, p: Packet, q: Packet) {
    && p.uid == q.uid && p.proto == q.proto && p.srcIp == q.srcIp && p.dstIp == q.dstIp
    && (p.proto == 6 || p.proto == 17 ==> p.srcPort == q.srcPort && p.dstPort == q.dstPort)
    && (p.proto == (if f.V4? then 1 else 58) ==> p.icmpType == q.icmpType && p.icmpId == q.icmpId)
  }

  /** The key is the identity of the conversation: two packets share a flow exactly when they travel the
      same way, or one travels the way of the other's answer. */
  lemma KeyIsFlowIdentity(f: Family, p: Packet, q: Packet)
    requires MakeKey(f, p).Some? && MakeKey(f, q).Some?
    ensures Pair(MakeKey(f, p).value) == Pair(MakeKey(f, q).value)
      <==> SameDirection(f, p, q) || SameDirection(f, Answer(f, p), q)
    ensures MakeKey(f, p).value == MakeKey(f, q).value <==> SameDirection(f, p, q)
  {
    var k, l := MakeKey(f, p).value, MakeKey(f, q).value;
    AnswerHasReverseKey(f, p);
    SameKey(f, p, q);
    SameKey(f, Answer(f, p), q);
    if Pair(k) == Pair(l) {
      assert l in Pair(k);
    }
    if Reverse(k) == l {
      assert Reverse(l) == k;
    }
  }

  lemma SameKey(f: Family, p: Packet, q: Packet)
    requires MakeKey(f, p).Some? && MakeKey(f, q).Some?
    ensures MakeKey(f, p).value == MakeKey(f, q).value <==> SameDirection(f, p, q)
  {
  }

  /** A packet has no key when its ports or its message are missing, or the message has no counterpart. */
  lemma KeylessPackets(f: Family, p: Packet)
    ensures MakeKey(f, p).None? <==>
      || (p.proto == 6 && !p.hasTcp)
      || ((p.proto == 6 || p.proto == 17) && (p.srcPort == 0 || p.dstPort == 0))
      || (p.proto == 1 && f.V4? && (!p.hasIcmp || p.icmpCode != 0 || p.icmpType !in {0, 8, 13, 14, 15, 16}))
      || (p.proto == 58 && f.V6? && (!p.hasIcmp || p.icmpCode != 0 || p.icmpType !in {128, 129}))
  {
  }

  /** Both directions hash alike: the hash combines the two endpoints with exclusive or. */
  function HashKey(k: Key, endpoint: Endpoint -> bv64, mix: nat -> bv64): bv64 {
    endpoint(k.src) ^ endpoint(k.dst) ^ mix(k.uid) ^ mix(k.proto)
  }

  lemma XorCommutes(a: bv64, b: bv64)
    ensures a ^ b == b ^ a
  {
  }

  lemma HashIsSymmetric(k: Key, endpoint: Endpoint -> bv64, mix: nat -> bv64)
    ensures HashKey(Reverse(k), endpoint, mix) == HashKey(k, endpoint, mix)
  {
    XorCommutes(endpoint(k.src), endpoint(k.dst));
  }

  // ---------------------------------------------------------------- entries

  /** State is two peer states for TCP, and one small state otherwise. */
  datatype Entry = Entry(key: Key, expirationNs: nat, state: T.Peers)

  predicate Expired(e: Entry, now: nat) { e.expirationNs != 0 && now >= e.expirationNs }

  const OTHER_FIRST := 0
  const OTHER_MULTIPLE := 1
  const OTHER_BIDIR := 2
  const ICMP_FIRST := 0
  const ICMP_REPLY := 1

  function OtherTimeout(s: nat): nat { if s == OTHER_MULTIPLE then 30 else 60 }

  function IcmpTimeout(s: nat): nat { if s == ICMP_REPLY then 30 else 60 }

  predicate TcpLengthOk(p: Packet) {
    p.hasTcp && p.dataOffsetWords >= 5 && p.dataOffsetWords * 4 <= p.ipPayloadLen
  }

  predicate TcpValidUpdate(p: Packet) { TcpLengthOk(p) && !T.InvalidFlags(p.tcpFlags) }

  predicate IsRequest(f: Family, t: nat) {
    if f.V4? then t == 8 || t == 13 || t == 15 else t == 128
  }

  /** Whether a packet may open a flow: no stray or half-open TCP, ICMP requests only. */
  predicate ValidNew(f: Family, p: Packet) {
    && (p.proto == TCP ==> TcpValidUpdate(p) && !(T.Has(p.tcpFlags, T.SYN) && T.Has(p.tcpFlags, T.ACK)))
    && (p.proto == IcmpProto(f) ==> p.hasIcmp && p.icmpCode == 0 && IsRequest(f, p.icmpType))
  }

  ghost predicate Timely(p: Packet) { p.tsNs <= T.MAX_U64 }

  /** The effect of a packet on the entry it belongs to, and the state it is reported with. */
  function Touch(f: Family, e: Entry, p: Packet, isReply: bool): (r: (Entry, CtState))
    requires Timely(p)
    ensures r.0.key == e.key && (r.1.INVALID? ==> r.0 == e)
    ensures !r.1.INVALID? ==> r.0.expirationNs > p.tsNs || p.tsNs == T.MAX_U64
  {
    if p.proto == TCP then
      if !TcpValidUpdate(p) then (e, INVALID)
      else
        var s := T.Advance(e.state, isReply, p.tcpFlags);
        (e.(state := s, expirationNs := T.AddTimeout(p.tsNs, T.TimeoutFor(s))), ESTABLISHED)
    else if p.proto == IcmpProto(f) then
      var s := if isReply && e.state.orig == ICMP_FIRST then ICMP_REPLY else e.state.orig;
      (e.(state := e.state.(orig := s), expirationNs := T.AddTimeout(p.tsNs, IcmpTimeout(s))),
       if s == ICMP_REPLY then ESTABLISHED else NEW)
    else
      var s := if isReply then OTHER_BIDIR else if e.state.orig == OTHER_FIRST then OTHER_MULTIPLE else e.state.orig;
      (e.(state := e.state.(orig := s), expirationNs := T.AddTimeout(p.tsNs, OtherTimeout(s))),
       if s == OTHER_BIDIR then ESTABLISHED else NEW)
  }

  function FreshEntry(f: Family, k: Key, p: Packet): (e: Entry)
    requires Timely(p)
    ensures e.key == k
  {
    if p.proto == TCP then Entry(k, T.AddTimeout(p.tsNs, T.TCP_SYN_SENT), T.Peers(T.SYN_SENT, T.CLOSED))
    else Entry(k, T.AddTimeout(p.tsNs, 60), T.Peers(0, 0))
  }

  // ---------------------------------------------------------------- the tracker as a map

  type Flows = map<set<Key>, Entry>

  function Find(m: Flows, k: Key, now: nat): Option<Entry> {
    if Pair(k) in m && !Expired(m[Pair(k)], now) then Some(m[Pair(k)]) else None
  }

  const InvalidView := View(INVALID, ANY_DIRECTION, false)

  function ReportedView(st: CtState, isReply: bool): View {
    if st.INVALID? then InvalidView else View(st, if isReply then REPLY else ORIG, false)
  }

  function MissView(f: Family, p: Packet, full: bool): View {
    if full || !ValidNew(f, p) then InvalidView else View(NEW, ORIG, true)
  }

  /** Before the verdict: a known flow advances, an unknown one is only previewed.  `full` says
      whether the table was found at its cap. */
  function Inspect(f: Family, m: Flows, p: Packet, full: bool): (r: (Flows, View))
    requires Timely(p)
  {
    if p.isFragment || MakeKey(f, p).None? then (m, InvalidView)
    else
      var k := MakeKey(f, p).value;
      match Find(m, k, p.tsNs)
      case None => (m, MissView(f, p, full))
      case Some(e) =>
        var isReply := Reverse(e.key) == k;
        var t := Touch(f, e, p, isReply);
        (m[Pair(k) := t.0], ReportedView(t.1, isReply))
  }

  predicate Creates(v: View) { v.createOnAccept && v.state.NEW? && v.direction.ORIG? }

  /** After acceptance: a previewed flow gets its entry unless it has one by now. */
  function Commit(f: Family, m: Flows, p: Packet, v: View, full: bool): Flows
    requires Timely(p)
  {
    if !Creates(v) || MakeKey(f, p).None? then m
    else
      var k := MakeKey(f, p).value;
      if Find(m, k, p.tsNs).Some? || !ValidNew(f, p) || full then m
      else m[Pair(k) := FreshEntry(f, k, p)]
  }

  // ---------------------------------------------------------------- whole runs

  datatype Op = DoInspect(p: Packet, full: bool) | DoCommit(p: Packet, v: View, full: bool)

  function Next(f: Family, m: Flows, op: Op): Flows
    requires Timely(op.p)
  {
    match op
    case DoInspect(p, full) => Inspect(f, m, p, full).0
    case DoCommit(p, v, full) => Commit(f, m, p, v, full)
  }

  /** Operations one at a time, from an empty tracker, with timestamps that never go back. */
  ghost predicate IsRun(f: Family, ms: seq<Flows>, ops: seq<Op>) {
    && |ms| == |ops| + 1 && ms[0] == map[]
    && (forall i :: 0 <= i < |ops| ==> Timely(ops[i].p))
    && (forall i, j :: 0 <= i < j < |ops| ==> ops[i].p.tsNs <= ops[j].p.tsNs)
    && forall i :: 0 <= i < |ops| ==> ms[i + 1] == Next(f, ms[i], ops[i])
  }

  /** Operation `j` is a commit that creates the entry of flow `k`. */
  ghost predicate Opens(f: Family, m: Flows, op: Op, k: Key) {
    && op.DoCommit? && Creates(op.v) && MakeKey(f, op.p).Some? && Pair(MakeKey(f, op.p).value) == Pair(k)
    && Timely(op.p) && Find(m, MakeKey(f, op.p).value, op.p.tsNs).None?
    && Commit(f, m, op.p, op.v, op.full) == m[Pair(k) := FreshEntry(f, MakeKey(f, op.p).value, op.p)]
  }

  /** A flow that is live at some operation was opened by an earlier commit and has been live,
      at the time of every operation, ever since: no gap reached its expiry. */
  lemma {:induction false} LiveSinceCommit(f: Family, ms: seq<Flows>, ops: seq<Op>, i: nat, k: Key, now: nat)
    returns (j: nat)
    requires IsRun(f, ms, ops) && i < |ms| && Find(ms[i], k, now).Some?
    requires forall n :: 0 <= n < i ==> ops[n].p.tsNs <= now
    ensures j < i && Opens(f, ms[j], ops[j], k)
    ensures forall n :: j < n < i ==> Find(ms[n], k, ops[n].p.tsNs).Some?
  {
    if Opens(f, ms[i - 1], ops[i - 1], k) {
      j := i - 1;
    } else {
      StillLive(f, ms[i - 1], ops[i - 1], k, now);
      j := LiveSinceCommit(f, ms, ops, i - 1, k, ops[i - 1].p.tsNs);
    }
  }

  lemma StillLive(f: Family, m: Flows, op: Op, k: Key, now: nat)
    requires Timely(op.p) && op.p.tsNs <= now && Find(Next(f, m, op), k, now).Some? && !Opens(f, m, op, k)
    ensures Find(m, k, op.p.tsNs).Some?
  {
  }

  /** A packet is reported as established, or as a reply, only on the strength of an earlier
      accepted packet of the same flow whose entry has not run out since. */
  lemma EstablishedNeedsCommit(f: Family, ms: seq<Flows>, ops: seq<Op>, i: nat) returns (j: nat)
    requires IsRun(f, ms, ops) && i < |ops| && ops[i].DoInspect?
    requires var v := Inspect(f, ms[i], ops[i].p, ops[i].full).1; v.state.ESTABLISHED? || v.direction.REPLY?
    ensures MakeKey(f, ops[i].p).Some?
    ensures j < i && Opens(f, ms[j], ops[j], MakeKey(f, ops[i].p).value)
    ensures forall n :: j < n <= i ==> Find(ms[n], MakeKey(f, ops[i].p).value, ops[n].p.tsNs).Some?
  {
    var k := MakeKey(f, ops[i].p).value;
    j := LiveSinceCommit(f, ms, ops, i, k, ops[i].p.tsNs);
  }

  /** Inspection adds no flow and leaves every other flow as it is. */
  lemma InspectionIsLocal(f: Family, m: Flows, p: Packet, full: bool)
    requires Timely(p)
    ensures var m' := Inspect(f, m, p, full).0;
            m'.Keys == m.Keys &&
            forall q | q in m && (MakeKey(f, p).None? || q != Pair(MakeKey(f, p).value) || Expired(m[q], p.tsNs)) ::
              m'[q] == m[q]
  {
  }

  // ---------------------------------------------------------------- the history of a TCP flow

  /** The operation updates the live entry with key `key`. */
  predicate IsUpdate(f: Family, op: Op, key: Key) {
    && op.DoInspect? && !op.p.isFragment && MakeKey(f, op.p).Some? && Pair(MakeKey(f, op.p).value) == Pair(key)
    && TcpValidUpdate(op.p)
  }

  function UpdateOf(f: Family, op: Op, key: Key): T.Packet
    requires IsUpdate(f, op, key)
  {
    T.Packet(MakeKey(f, op.p).value == Reverse(key), op.p.tcpFlags)
  }

  /** The packets among operations j up to i that update the entry with key `key`. */
  function Updates(f: Family, ops: seq<Op>, j: nat, i: nat, key: Key): seq<T.Packet>
    requires j <= i <= |ops|
  {
    if i == j then [] else
    Updates(f, ops, j, i - 1, key) + if IsUpdate(f, ops[i - 1], key) then [UpdateOf(f, ops[i - 1], key)] else []
  }

  /** What one operation does to a live TCP entry. */
  lemma StateStep(f: Family, m: Flows, op: Op, k: Key)
    requires Timely(op.p) && k.proto == TCP && Find(m, k, op.p.tsNs).Some? && Pair(m[Pair(k)].key) == Pair(k)
    ensures var e, n := m[Pair(k)], Next(f, m, op);
            && Pair(k) in n && n[Pair(k)].key == e.key
            && (if IsUpdate(f, op, e.key)
                then var u := UpdateOf(f, op, e.key); var s := T.Advance(e.state, u.isReply, u.flags);
                     n[Pair(k)].state == s && n[Pair(k)].expirationNs == T.AddTimeout(op.p.tsNs, T.TimeoutFor(s))
                else n[Pair(k)] == e)
  {
    if MakeKey(f, op.p).Some? && Pair(MakeKey(f, op.p).value) == Pair(k) {
      assert MakeKey(f, op.p).value in Pair(k);
      assert op.p.proto == TCP;
    }
  }

  lemma FreshState(f: Family, ms: seq<Flows>, ops: seq<Op>, j: nat, k: Key)
    requires IsRun(f, ms, ops) && j < |ops| && Opens(f, ms[j], ops[j], k) && k.proto == TCP
    ensures Pair(k) in ms[j + 1] && ms[j + 1][Pair(k)].key == MakeKey(f, ops[j].p).value
    ensures ms[j + 1][Pair(k)].state == T.After([])
  {
    assert MakeKey(f, ops[j].p).value in Pair(k);
  }

  lemma HistoryStep(f: Family, m: Flows, ops: seq<Op>, j: nat, i: nat, k: Key)
    requires j < i <= |ops| && Timely(ops[i - 1].p) && k.proto == TCP && Find(m, k, ops[i - 1].p.tsNs).Some?
    requires Pair(m[Pair(k)].key) == Pair(k) && m[Pair(k)].state == T.After(Updates(f, ops, j, i - 1, m[Pair(k)].key))
    ensures var n := Next(f, m, ops[i - 1]);
            && Pair(k) in n && n[Pair(k)].key == m[Pair(k)].key
            && n[Pair(k)].state == T.After(Updates(f, ops, j, i, m[Pair(k)].key))
  {
    StateStep(f, m, ops[i - 1], k);
    AfterSnoc(f, ops, j, i, m[Pair(k)].key);
  }

  lemma {:induction false} StateSince(f: Family, ms: seq<Flows>, ops: seq<Op>, j: nat, i: nat, k: Key, key: Key)
    requires |ms| == |ops| + 1 && j <= i < |ms| && k.proto == TCP && Pair(key) == Pair(k)
    requires forall n :: j <= n < i ==> Timely(ops[n].p) && ms[n + 1] == Next(f, ms[n], ops[n])
    requires Pair(k) in ms[j] && ms[j][Pair(k)].key == key && ms[j][Pair(k)].state == T.After([])
    requires forall n :: j <= n < i ==> Find(ms[n], k, ops[n].p.tsNs).Some?
    ensures Pair(k) in ms[i] && ms[i][Pair(k)].key == key
    ensures ms[i][Pair(k)].state == T.After(Updates(f, ops, j, i, key))
  {
    if i > j {
      StateSince(f, ms, ops, j, i - 1, k, key);
      HistoryStep(f, ms[i - 1], ops, j, i, k);
      assert ms[(i - 1) + 1] == Next(f, ms[i - 1], ops[i - 1]);
    }
  }

  /** In every run a live TCP entry is the one its opening commit made, moved on by exactly the packets
      of its flow inspected since. */
  lemma TcpStateIsHistory(f: Family, ms: seq<Flows>, ops: seq<Op>, i: nat, k: Key, now: nat) returns (j: nat)
    requires IsRun(f, ms, ops) && i < |ms| && Find(ms[i], k, now).Some? && k.proto == TCP
    requires forall n :: 0 <= n < i ==> ops[n].p.tsNs <= now
    ensures j < i && Opens(f, ms[j], ops[j], k)
    ensures ms[i][Pair(k)].key == MakeKey(f, ops[j].p).value
    ensures ms[i][Pair(k)].state == T.After(Updates(f, ops, j + 1, i, ms[i][Pair(k)].key))
  {
    j := LiveSinceCommit(f, ms, ops, i, k, now);
    FreshState(f, ms, ops, j, k);
    StateSince(f, ms, ops, j + 1, i, k, MakeKey(f, ops[j].p).value);
  }

  lemma AfterSnoc(f: Family, ops: seq<Op>, j: nat, i: nat, key: Key)
    requires j < i <= |ops|
    ensures T.After(Updates(f, ops, j, i, key)) ==
      (var before := T.After(Updates(f, ops, j, i - 1, key));
       if IsUpdate(f, ops[i - 1], key)
       then var u := UpdateOf(f, ops[i - 1], key); T.Advance(before, u.isReply, u.flags) else before)
  {
    var h, g := Updates(f, ops, j, i, key), Updates(f, ops, j, i - 1, key);
    if IsUpdate(f, ops[i - 1], key) {
      assert h[..|h| - 1] == g;
    } else {
      assert h == g;
    }
  }

  /** The timeouts of the peer states are timeouts of the tracker: an update gives its entry the
      one-day deadline exactly when the packets of the flow since its opening have neither FIN nor
      RST, an ACK of the responder, and an ACK of the opener after a SYN of the responder. */
  lemma UpdateDeadline(f: Family, ms: seq<Flows>, ops: seq<Op>, i: nat, k: Key) returns (j: nat)
    requires IsRun(f, ms, ops) && i < |ops| && k.proto == TCP && Find(ms[i], k, ops[i].p.tsNs).Some?
    requires IsUpdate(f, ops[i], k)
    ensures j < i && Opens(f, ms[j], ops[j], k) && Pair(k) in ms[i + 1]
    ensures var e := ms[i + 1][Pair(k)]; var h := Updates(f, ops, j + 1, i + 1, e.key);
      && e.expirationNs == T.AddTimeout(ops[i].p.tsNs, T.TimeoutFor(T.After(h)))
      && (T.TimeoutFor(T.After(h)) == T.TCP_ESTABLISHED <==>
          && !T.AnyRst(h) && !T.Sent(h, false, T.FIN) && !T.Sent(h, true, T.FIN)
          && T.Sent(h, true, T.ACK) && T.SentThenAcked(h, true, T.SYN))
  {
    j := TcpStateIsHistory(f, ms, ops, i, k, ops[i].p.tsNs);
    StateStep(f, ms[i], ops[i], k);
    var key := ms[i][Pair(k)].key;
    AfterSnoc(f, ops, j + 1, i + 1, key);
    T.EstablishedTimeoutIff(Updates(f, ops, j + 1, i + 1, key));
  }

  // ---------------------------------------------------------------- direction and state of a view

  /** A live entry keeps the key it was opened with. */
  lemma KeyStep(f: Family, m: Flows, op: Op, k: Key)
    requires Timely(op.p) && Find(m, k, op.p.tsNs).Some?
    ensures Pair(k) in Next(f, m, op) && Next(f, m, op)[Pair(k)].key == m[Pair(k)].key
  {
  }

  lemma {:induction false} KeySince(f: Family, ms: seq<Flows>, ops: seq<Op>, j: nat, i: nat, k: Key)
    requires |ms| == |ops| + 1 && j <= i < |ms| && Pair(k) in ms[j]
    requires forall n :: j <= n < i ==> Timely(ops[n].p) && ms[n + 1] == Next(f, ms[n], ops[n])
    requires forall n :: j <= n < i ==> Find(ms[n], k, ops[n].p.tsNs).Some?
    ensures Pair(k) in ms[i] && ms[i][Pair(k)].key == ms[j][Pair(k)].key
  {
    if i > j {
      KeySince(f, ms, ops, j, i - 1, k);
      KeyStep(f, ms[i - 1], ops[i - 1], k);
      assert ms[(i - 1) + 1] == Next(f, ms[i - 1], ops[i - 1]);
    }
  }

  /** A view of a known flow. */
  predicate OfKnownFlow(v: View) { !v.state.INVALID? && !v.createOnAccept }

  lemma KnownFlowIsLive(f: Family, m: Flows, p: Packet, full: bool)
    requires Timely(p) && OfKnownFlow(Inspect(f, m, p, full).1)
    ensures !p.isFragment && MakeKey(f, p).Some? && Find(m, MakeKey(f, p).value, p.tsNs).Some?
    ensures var e := m[Pair(MakeKey(f, p).value)];
      Inspect(f, m, p, full).1.direction == if MakeKey(f, p).value == Reverse(e.key) then REPLY else ORIG
  {
  }

  lemma OpenedKey(f: Family, ms: seq<Flows>, ops: seq<Op>, j: nat, k: Key)
    requires IsRun(f, ms, ops) && j < |ops| && Opens(f, ms[j], ops[j], k)
    ensures Pair(k) in ms[j + 1] && ms[j + 1][Pair(k)].key == MakeKey(f, ops[j].p).value
  {
  }

  /** In every run a packet of a known flow is reported as a reply exactly when it travels against the
      packet whose commit opened the flow. */
  lemma ViewDirection(f: Family, ms: seq<Flows>, ops: seq<Op>, i: nat) returns (j: nat)
    requires IsRun(f, ms, ops) && i < |ops| && ops[i].DoInspect?
    requires OfKnownFlow(Inspect(f, ms[i], ops[i].p, ops[i].full).1)
    ensures MakeKey(f, ops[i].p).Some? && j < i && Opens(f, ms[j], ops[j], MakeKey(f, ops[i].p).value)
    ensures Inspect(f, ms[i], ops[i].p, ops[i].full).1.direction ==
      if MakeKey(f, ops[i].p).value == Reverse(MakeKey(f, ops[j].p).value) then REPLY else ORIG
    ensures forall n :: j < n <= i ==> Find(ms[n], MakeKey(f, ops[i].p).value, ops[n].p.tsNs).Some?
    ensures ms[i][Pair(MakeKey(f, ops[i].p).value)].key == MakeKey(f, ops[j].p).value
  {
    KnownFlowIsLive(f, ms[i], ops[i].p, ops[i].full);
    var k := MakeKey(f, ops[i].p).value;
    j := LiveSinceCommit(f, ms, ops, i, k, ops[i].p.tsNs);
    OpenedKey(f, ms, ops, j, k);
    KeySince(f, ms, ops, j + 1, i, k);
  }

  /** A TCP packet of a known flow is ESTABLISHED when it is whole and its flags make sense, and otherwise
      INVALID without any effect. */
  lemma TcpState(f: Family, m: Flows, p: Packet, full: bool)
    requires Timely(p) && p.proto == 6 && !p.isFragment
    requires MakeKey(f, p).Some? && Find(m, MakeKey(f, p).value, p.tsNs).Some?
    ensures var r := Inspect(f, m, p, full);
      if WholeTcp(p) && !T.InvalidFlags(p.tcpFlags) then r.1.state == ESTABLISHED
      else r == (m, View(INVALID, ANY_DIRECTION, false))
  {
    var k := MakeKey(f, p).value;
    assert m[Pair(k) := m[Pair(k)]] == m;
  }

  /** A packet of the flow with key `key`, which updates its live entry. */
  predicate IsOf(f: Family, op: Op, key: Key) {
    op.DoInspect? && !op.p.isFragment && MakeKey(f, op.p).Some? && Pair(MakeKey(f, op.p).value) == Pair(key)
  }

  predicate Answers(f: Family, op: Op, key: Key) { IsOf(f, op, key) && MakeKey(f, op.p).value == Reverse(key) }

  ghost predicate Used(f: Family, ops: seq<Op>, j: nat, i: nat, key: Key)
    requires i <= |ops|
  {
    exists n :: j <= n < i && IsOf(f, ops[n], key)
  }

  ghost predicate Answered(f: Family, ops: seq<Op>, j: nat, i: nat, key: Key)
    requires i <= |ops|
  {
    exists n :: j <= n < i && Answers(f, ops[n], key)
  }

  /** The small state of an entry that is not TCP. */
  function SmallState(f: Family, proto: nat, used: bool, answered: bool): nat {
    if proto == IcmpProto(f) then (if answered then ICMP_REPLY else ICMP_FIRST)
    else if answered then OTHER_BIDIR else if used then OTHER_MULTIPLE else OTHER_FIRST
  }

  /** Seconds until such an entry runs out after a packet: the answered UDP flow gets a minute and the
      unanswered one half, for ICMP it is the other way round. */
  function SmallTimeout(f: Family, proto: nat, answered: bool): nat {
    if (proto == (if f.V4? then 1 else 58)) == answered then 30 else 60
  }

  lemma SmallStep(f: Family, m: Flows, op: Op, k: Key, used: bool, answered: bool)
    requires Timely(op.p) && k.proto != TCP && Find(m, k, op.p.tsNs).Some? && Pair(m[Pair(k)].key) == Pair(k)
    requires m[Pair(k)].state.orig == SmallState(f, k.proto, used, answered)
    ensures var e, n := m[Pair(k)], Next(f, m, op);
      var answers := answered || Answers(f, op, e.key);
      && Pair(k) in n && n[Pair(k)].key == e.key
      && n[Pair(k)].state.orig == SmallState(f, k.proto, used || IsOf(f, op, e.key), answers)
      && (IsOf(f, op, e.key) ==>
        && n[Pair(k)].expirationNs == T.AddTimeout(op.p.tsNs, SmallTimeout(f, k.proto, answers))
        && Inspect(f, m, op.p, op.full).1.state == if answers then ESTABLISHED else NEW)
  {
    if MakeKey(f, op.p).Some? && Pair(MakeKey(f, op.p).value) == Pair(k) {
      assert MakeKey(f, op.p).value in Pair(k) && MakeKey(f, op.p).value in Pair(m[Pair(k)].key);
      assert op.p.proto == k.proto;
    }
  }

  lemma SeenSnoc(f: Family, ops: seq<Op>, j: nat, i: nat, key: Key)
    requires j < i <= |ops|
    ensures Used(f, ops, j, i, key) <==> Used(f, ops, j, i - 1, key) || IsOf(f, ops[i - 1], key)
    ensures Answered(f, ops, j, i, key) <==> Answered(f, ops, j, i - 1, key) || Answers(f, ops[i - 1], key)
  {
  }

  lemma {:induction false} SmallSince(f: Family, ms: seq<Flows>, ops: seq<Op>, j: nat, i: nat, k: Key, key: Key)
    requires |ms| == |ops| + 1 && j <= i < |ms| && k.proto != TCP && Pair(key) == Pair(k)
    requires forall n :: j <= n < i ==> Timely(ops[n].p) && ms[n + 1] == Next(f, ms[n], ops[n])
    requires Pair(k) in ms[j] && ms[j][Pair(k)].key == key && ms[j][Pair(k)].state.orig == 0
    requires forall n :: j <= n < i ==> Find(ms[n], k, ops[n].p.tsNs).Some?
    ensures Pair(k) in ms[i] && ms[i][Pair(k)].key == key
    ensures ms[i][Pair(k)].state.orig ==
      SmallState(f, k.proto, Used(f, ops, j, i, key), Answered(f, ops, j, i, key))
  {
    if i > j {
      SmallSince(f, ms, ops, j, i - 1, k, key);
      SmallStep(f, ms[i - 1], ops[i - 1], k, Used(f, ops, j, i - 1, key), Answered(f, ops, j, i - 1, key));
      SeenSnoc(f, ops, j, i, key);
      assert ms[(i - 1) + 1] == Next(f, ms[i - 1], ops[i - 1]);
    }
  }

  lemma FreshSmall(f: Family, ms: seq<Flows>, ops: seq<Op>, j: nat, k: Key)
    requires IsRun(f, ms, ops) && j < |ops| && Opens(f, ms[j], ops[j], k) && k.proto != TCP
    ensures Pair(k) in ms[j + 1] && ms[j + 1][Pair(k)].state.orig == 0
  {
    assert MakeKey(f, ops[j].p).value in Pair(k);
  }

  /** In every run a packet of a known flow that is not TCP is ESTABLISHED exactly when an answer of that
      flow has been inspected since it was opened, itself included, and NEW otherwise; and it prolongs the
      entry by the timeout that goes with that. */
  lemma NonTcpState(f: Family, ms: seq<Flows>, ops: seq<Op>, i: nat) returns (j: nat)
    requires IsRun(f, ms, ops) && i < |ops| && ops[i].DoInspect? && ops[i].p.proto != TCP
    requires OfKnownFlow(Inspect(f, ms[i], ops[i].p, ops[i].full).1)
    ensures MakeKey(f, ops[i].p).Some? && j < i && Opens(f, ms[j], ops[j], MakeKey(f, ops[i].p).value)
    ensures var k := MakeKey(f, ops[i].p).value;
      var answered := Answered(f, ops, j + 1, i + 1, MakeKey(f, ops[j].p).value);
      && Inspect(f, ms[i], ops[i].p, ops[i].full).1.state == (if answered then ESTABLISHED else NEW)
      && Pair(k) in ms[i + 1]
      && ms[i + 1][Pair(k)].expirationNs == T.AddTimeout(ops[i].p.tsNs, SmallTimeout(f, k.proto, answered))
  {
    j := ViewDirection(f, ms, ops, i);
    var k, key := MakeKey(f, ops[i].p).value, MakeKey(f, ops[j].p).value;
    KnownFlowIsLive(f, ms[i], ops[i].p, ops[i].full);
    FreshSmall(f, ms, ops, j, k);
    OpenedKey(f, ms, ops, j, k);
    SmallSince(f, ms, ops, j + 1, i, k, key);
    SmallStep(f, ms[i], ops[i], k, Used(f, ops, j + 1, i, key), Answered(f, ops, j + 1, i, key));
    SeenSnoc(f, ops, j + 1, i + 1, key);
  }

  // ---------------------------------------------------------------- which packets open a flow

  ghost predicate Unknown(f: Family, m: Flows, p: Packet) {
    !p.isFragment && MakeKey(f, p).Some? && Find(m, MakeKey(f, p).value, p.tsNs).None?
  }

  ghost predicate WholeTcp(p: Packet) {
    p.proto == 6 && p.hasTcp && p.dataOffsetWords >= 5 && p.dataOffsetWords * 4 <= p.ipPayloadLen
  }

  /** A new flow is previewed, and committing it makes it live. */
  ghost predicate OpensFlow(f: Family, m: Flows, p: Packet)
    requires Timely(p) && MakeKey(f, p).Some?
  {
    && Inspect(f, m, p, false) == (m, View(NEW, ORIG, true))
    && (p.tsNs < T.MAX_U64 ==>
      Find(Commit(f, m, p, View(NEW, ORIG, true), false), MakeKey(f, p).value, p.tsNs).Some?)
  }

  /** Nothing a caller says makes a flow of this packet. */
  ghost predicate NeverOpens(f: Family, m: Flows, p: Packet)
    requires Timely(p)
  {
    && (forall v, full {:trigger Commit(f, m, p, v, full)} :: Commit(f, m, p, v, full) == m)
    && (forall full {:trigger Inspect(f, m, p, full)} ::
      !Inspect(f, m, p, full).1.createOnAccept && Inspect(f, m, p, full).0.Keys == m.Keys)
  }

  lemma SynIsSensible()
    ensures !T.InvalidFlags(0x02) && !T.Has(0x02, T.ACK)
  {
    assert (0x02 as bv8) & 0x10 == 0;
    T.ValidFlagsMeaning(0x02);
  }

  /** A SYN opens a flow. */
  lemma SynOpens(f: Family, m: Flows, p: Packet)
    requires Timely(p) && Unknown(f, m, p) && WholeTcp(p) && p.tcpFlags == 0x02
    ensures OpensFlow(f, m, p)
  {
    SynIsSensible();
  }

  /** A packet with SYN and ACK never does, nor does one whose header is missing, short or cut off. */
  lemma SynAckNeverOpens(f: Family, m: Flows, p: Packet)
    requires Timely(p) && p.proto == 6 && (!WholeTcp(p) || p.tcpFlags & 0x12 == 0x12)
    ensures NeverOpens(f, m, p)
  {
    if p.tcpFlags & 0x12 == 0x12 {
      BothBits(p.tcpFlags);
    }
  }

  lemma BothBits(flags: bv8)
    requires flags & 0x12 == 0x12
    ensures T.Has(flags, T.SYN) && T.Has(flags, T.ACK)
  {
    assert flags & 0x02 == (flags & 0x12) & 0x02 && flags & 0x10 == (flags & 0x12) & 0x10;
  }

  /** A SYN alone, an ACK without SYN, or a bare RST; ECE and CWR do not matter. */
  predicate OpeningFlags(flags: bv8) {
    if flags & 0x02 != 0 then flags & 0x3D == 0
    else flags & 0x10 != 0 || (flags & 0x04 != 0 && flags & 0x29 == 0)
  }

  lemma OpeningFlagsMeaning(flags: bv8)
    ensures OpeningFlags(flags) <==> !T.InvalidFlags(flags) && !(T.Has(flags, T.SYN) && T.Has(flags, T.ACK))
  {
    T.ValidFlagsMeaning(flags);
    assert flags & 0x3D == 0 <==>
      flags & 0x01 == 0 && flags & 0x04 == 0 && flags & 0x08 == 0 && flags & 0x10 == 0 && flags & 0x20 == 0;
    assert flags & 0x29 == 0 <==> flags & 0x01 == 0 && flags & 0x08 == 0 && flags & 0x20 == 0;
  }

  /** A TCP packet of no known flow opens one exactly when it is whole and carries opening flags. */
  lemma TcpOpensIff(f: Family, m: Flows, p: Packet)
    requires Timely(p) && Unknown(f, m, p) && p.proto == 6
    ensures if WholeTcp(p) && OpeningFlags(p.tcpFlags) then OpensFlow(f, m, p) else NeverOpens(f, m, p)
  {
    OpeningFlagsMeaning(p.tcpFlags);
  }

  /** Of a paired ICMP message and its answer exactly one opens a flow, and for echo it is the request. */
  lemma RequestsOpen(f: Family, m: Flows, p: Packet)
    requires Timely(p) && p.proto == (if f.V4? then 1 else 58) && MakeKey(f, p).Some?
    ensures NeverOpens(f, m, p) || NeverOpens(f, m, Answer(f, p))
    ensures Unknown(f, m, p) && Unknown(f, m, Answer(f, p)) ==> OpensFlow(f, m, p) || OpensFlow(f, m, Answer(f, p))
    ensures Unknown(f, m, p) && p.icmpType in (if f.V4? then {8, 13, 15} else {128}) ==> OpensFlow(f, m, p)
  {
    AnswerHasReverseKey(f, p);
  }

  /** Everything else that has a key opens one. */
  lemma OthersOpen(f: Family, m: Flows, p: Packet)
    requires Timely(p) && Unknown(f, m, p) && p.proto != 6 && p.proto != (if f.V4? then 1 else 58)
    ensures OpensFlow(f, m, p)
  {
  }

  /** No flow is made of a fragment's or keyless packet's inspection, in a full table, or without a
      preview. */
  lemma NothingElseOpens(f: Family, m: Flows, p: Packet, v: View)
    requires Timely(p)
    ensures p.isFragment || MakeKey(f, p).None? ==>
      forall full :: Inspect(f, m, p, full) == (m, View(INVALID, ANY_DIRECTION, false))
    ensures Unknown(f, m, p) ==> Inspect(f, m, p, true) == (m, View(INVALID, ANY_DIRECTION, false))
    ensures MakeKey(f, p).None? ==> forall full :: Commit(f, m, p, v, full) == m
    ensures Commit(f, m, p, v, true) == m
    ensures v != View(NEW, ORIG, true) ==> forall full :: Commit(f, m, p, v, full) == m
  {
  }

  /** An entry without a deadline never runs out, and any other does exactly at its deadline. */
  lemma DeadlineIsExact(e: Entry, now: nat)
    ensures e.expirationNs == 0 ==> !Expired(e, now)
    ensures e.expirationNs > 0 ==> !Expired(e, e.expirationNs - 1) && Expired(e, e.expirationNs)
    ensures e.expirationNs > 0 && now > e.expirationNs ==> Expired(e, now)
  {
  }

  /** A new entry lives half a minute for TCP and a minute otherwise. */
  lemma FreshLifetime(f: Family, k: Key, p: Packet, now: nat)
    requires p.tsNs <= now && p.tsNs + 60_000_000_000 <= T.MAX_U64
    ensures Expired(FreshEntry(f, k, p), now) <==>
      now >= p.tsNs + if p.proto == 6 then 30_000_000_000 else 60_000_000_000
  {
  }
}
