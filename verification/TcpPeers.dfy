/** The TCP part of an entry: two peer states that packets push upwards, and the timeout
    they select.  First the effect of whole updates taken one at a time and what a
    history of updates adds up to; then the same update as interleaved atomic steps. */
module TcpPeers {

  // Control bits, section 3.1 of RFC 9293.
  const FIN: bv8 := 0x01
  const SYN: bv8 := 0x02
  const RST: bv8 := 0x04
  const PSH: bv8 := 0x08
  const ACK: bv8 := 0x10
  const URG: bv8 := 0x20
  const ECE: bv8 := 0x40
  const CWR: bv8 := 0x80

  predicate Has(flags: bv8, bits: bv8) { flags & bits != 0 }

  /** Combinations no packet of a connection may carry; ECE and CWR are ignored. */
  predicate InvalidFlags(raw: bv8) {
    var flags := raw & !ECE & !CWR;
    (Has(flags, SYN) && Has(flags, RST | FIN))
    || (!Has(flags, SYN) && !Has(flags, ACK) && !Has(flags, RST))
    || (!Has(flags, ACK) && Has(flags, FIN | PSH | URG))
  }

  lemma ValidFlagsMeaning(flags: bv8)
    ensures !InvalidFlags(flags) <==>
            && (Has(flags, SYN) ==> !Has(flags, RST) && !Has(flags, FIN))
            && (Has(flags, SYN) || Has(flags, ACK) || Has(flags, RST))
            && (Has(flags, ACK) || (!Has(flags, FIN) && !Has(flags, PSH) && !Has(flags, URG)))
  {
    assert (flags & !ECE & !CWR) & SYN == flags & SYN;
    assert (flags & !ECE & !CWR) & ACK == flags & ACK;
    assert (flags & !ECE & !CWR) & RST == flags & RST;
    assert (flags & !ECE & !CWR) & (RST | FIN) == flags & (RST | FIN);
    assert (flags & !ECE & !CWR) & (FIN | PSH | URG) == flags & (FIN | PSH | URG);
  }

  // Peer states in the order in which they are compared.
  const CLOSED := 0
  const SYN_SENT := 1
  const ESTABLISHED := 2
  const CLOSING := 3
  const FIN_WAIT_2 := 4
  const TIME_WAIT := 5

  // Timeouts in seconds.
  const TCP_SYN_SENT := 30
  const TCP_SYN_RECV := 30
  const TCP_ESTABLISHED := 86400
  const TCP_FIN_WAIT := 900
  const TCP_TIME_WAIT := 45
  const TCP_CLOSE := 30

  const MAX_U64: nat := 0xFFFF_FFFF_FFFF_FFFF
  const NS_PER_SEC: nat := 1_000_000_000

  datatype Peers = Peers(orig: nat, reply: nat)

  /** Deadline `sec` seconds after `now`, saturating at the largest 64-bit value. */
  function AddTimeout(now: nat, sec: nat): (r: nat)
    requires now <= MAX_U64 && sec * NS_PER_SEC <= MAX_U64
    ensures r <= MAX_U64 && r <= now + sec * NS_PER_SEC && (r == MAX_U64 || r == now + sec * NS_PER_SEC)
    ensures now <= r && (r > now <==> (sec > 0 && now < MAX_U64))
  {
    if now > MAX_U64 - sec * NS_PER_SEC then MAX_U64 else now + sec * NS_PER_SEC
  }

  function TimeoutFor(p: Peers): nat {
    if p.orig >= FIN_WAIT_2 && p.reply >= FIN_WAIT_2 then TCP_CLOSE
    else if p.orig >= CLOSING && p.reply >= CLOSING then TCP_FIN_WAIT
    else if p.orig < ESTABLISHED || p.reply < ESTABLISHED then TCP_SYN_RECV
    else if p.orig >= CLOSING || p.reply >= CLOSING then TCP_TIME_WAIT
    else TCP_ESTABLISHED
  }

  // ---------------------------------------------------------------- updates one at a time

  function Bump(cur: nat, want: nat): nat { if cur < want then want else cur }

  function OnSyn(src: nat, flags: bv8): nat { if Has(flags, SYN) then Bump(src, SYN_SENT) else src }

  function OnFin(src: nat, flags: bv8): nat { if Has(flags, FIN) then Bump(src, CLOSING) else src }

  function OnAck(dst: nat, flags: bv8): nat {
    if !Has(flags, ACK) then dst
    else if dst == SYN_SENT then ESTABLISHED
    else if dst == CLOSING then FIN_WAIT_2
    else dst
  }

  /** The effect of one accepted packet, sent by the replying side or not, on both peers. */
  function Advance(p: Peers, isReply: bool, flags: bv8): Peers {
    if Has(flags, RST) then Peers(TIME_WAIT, TIME_WAIT)
    else if isReply then Peers(OnAck(p.orig, flags), OnFin(OnSyn(p.reply, flags), flags))
    else Peers(OnFin(OnSyn(p.orig, flags), flags), OnAck(p.reply, flags))
  }

  datatype Packet = Packet(isReply: bool, flags: bv8)

  /** Peer states of an entry after the packets `h`, in order, have updated it. */
  function After(h: seq<Packet>): Peers {
    if h == [] then Peers(SYN_SENT, CLOSED)
    else Advance(After(h[..|h| - 1]), h[|h| - 1].isReply, h[|h| - 1].flags)
  }

  ghost predicate AnyRst(h: seq<Packet>) {
    exists i :: 0 <= i < |h| && Has(h[i].flags, RST)
  }

  ghost predicate Sent(h: seq<Packet>, isReply: bool, bits: bv8) {
    exists i :: 0 <= i < |h| && h[i].isReply == isReply && Has(h[i].flags, bits)
  }

  /** The side `isReply` sent `bits`, and a later packet of the other side carried an ACK. */
  ghost predicate SentThenAcked(h: seq<Packet>, isReply: bool, bits: bv8) {
    exists i, j :: 0 <= i < j < |h| && h[i].isReply == isReply && Has(h[i].flags, bits)
                   && h[j].isReply != isReply && Has(h[j].flags, ACK)
  }

  lemma Snoc(h: seq<Packet>, u: Packet, r: bool, bits: bv8)
    ensures AnyRst(h + [u]) <==> AnyRst(h) || Has(u.flags, RST)
    ensures Sent(h + [u], r, bits) <==> Sent(h, r, bits) || (u.isReply == r && Has(u.flags, bits))
    ensures SentThenAcked(h + [u], r, bits) <==>
              SentThenAcked(h, r, bits) || (Sent(h, r, bits) && u.isReply != r && Has(u.flags, ACK))
  {
    var g := h + [u];
    assert g[|h|] == u && forall i :: 0 <= i < |h| ==> g[i] == h[i];
    if SentThenAcked(g, r, bits) && !SentThenAcked(h, r, bits) {
      var i, j :| 0 <= i < j < |g| && g[i].isReply == r && Has(g[i].flags, bits)
        && g[j].isReply != r && Has(g[j].flags, ACK);
      assert j == |h|;
    }
    if Sent(h, r, bits) && u.isReply != r && Has(u.flags, ACK) {
      var i :| 0 <= i < |h| && h[i].isReply == r && Has(h[i].flags, bits);
      assert 0 <= i < |h| < |g| && g[i].isReply == r && g[|h|].isReply != r;
    }
  }

  /** What a history adds up to, side by side: a reset puts both peers in TIME_WAIT for good,
      otherwise a peer is as far as its own FIN, or its opening, and the ACKs of the other
      side have taken it.  An entry is created for a packet of the original side, so that
      side counts as having sent its SYN. */
  ghost function OrigState(h: seq<Packet>): nat {
    Origin(AnyRst(h), SentThenAcked(h, false, FIN), Sent(h, false, FIN), Sent(h, true, ACK))
  }

  ghost function ReplyState(h: seq<Packet>): nat {
    Responder(AnyRst(h), SentThenAcked(h, true, FIN), Sent(h, true, FIN), SentThenAcked(h, true, SYN),
              Sent(h, true, SYN))
  }

  function Origin(rst: bool, finAcked: bool, fin: bool, acked: bool): nat {
    if rst then TIME_WAIT
    else if finAcked then FIN_WAIT_2
    else if fin then CLOSING
    else if acked then ESTABLISHED
    else SYN_SENT
  }

  function Responder(rst: bool, finAcked: bool, fin: bool, synAcked: bool, syn: bool): nat {
    if rst then TIME_WAIT
    else if finAcked then FIN_WAIT_2
    else if fin then CLOSING
    else if synAcked then ESTABLISHED
    else if syn then SYN_SENT
    else CLOSED
  }

  lemma OriginStep(rst: bool, finAcked: bool, fin: bool, acked: bool, p: nat, u: Packet)
    requires finAcked ==> fin
    ensures Advance(Peers(Origin(rst, finAcked, fin, acked), p), u.isReply, u.flags).orig ==
            Origin(rst || Has(u.flags, RST),
                   finAcked || (fin && u.isReply && Has(u.flags, ACK)),
                   fin || (!u.isReply && Has(u.flags, FIN)),
                   acked || (u.isReply && Has(u.flags, ACK)))
  {
  }

  lemma ResponderStep(rst: bool, finAcked: bool, fin: bool, synAcked: bool, syn: bool, p: nat, u: Packet)
    requires (finAcked ==> fin) && (synAcked ==> syn)
    ensures Advance(Peers(p, Responder(rst, finAcked, fin, synAcked, syn)), u.isReply, u.flags).reply ==
            Responder(rst || Has(u.flags, RST),
                      finAcked || (fin && !u.isReply && Has(u.flags, ACK)),
                      fin || (u.isReply && Has(u.flags, FIN)),
                      synAcked || (syn && !u.isReply && Has(u.flags, ACK)),
                      syn || (u.isReply && Has(u.flags, SYN)))
  {
  }

  lemma OrigSnoc(g: seq<Packet>, u: Packet)
    ensures Advance(Peers(OrigState(g), ReplyState(g)), u.isReply, u.flags).orig == OrigState(g + [u])
  {
    Snoc(g, u, false, FIN);
    Snoc(g, u, true, ACK);
    OriginStep(AnyRst(g), SentThenAcked(g, false, FIN), Sent(g, false, FIN), Sent(g, true, ACK), ReplyState(g), u);
  }

  lemma ReplySnoc(g: seq<Packet>, u: Packet)
    ensures Advance(Peers(OrigState(g), ReplyState(g)), u.isReply, u.flags).reply == ReplyState(g + [u])
  {
    Snoc(g, u, true, FIN);
    Snoc(g, u, true, SYN);
    ResponderStep(AnyRst(g), SentThenAcked(g, true, FIN), Sent(g, true, FIN), SentThenAcked(g, true, SYN),
                  Sent(g, true, SYN),
                  OrigState(g), u);
  }

  lemma {:induction false} AfterIsHistory(h: seq<Packet>)
    ensures After(h) == Peers(OrigState(h), ReplyState(h))
  {
    if h != [] {
      var g, u := h[..|h| - 1], h[|h| - 1];
      assert h == g + [u];
      AfterIsHistory(g);
      OrigSnoc(g, u);
      ReplySnoc(g, u);
    }
  }

  /** The one-day timeout is assigned exactly to connections that both sides opened and
      neither side has begun to close. */
  lemma EstablishedTimeoutIff(h: seq<Packet>)
    ensures TimeoutFor(After(h)) == TCP_ESTABLISHED <==>
            && !AnyRst(h) && !Sent(h, false, FIN) && !Sent(h, true, FIN)
            && Sent(h, true, ACK) && SentThenAcked(h, true, SYN)
  {
    AfterIsHistory(h);
  }

  /** The fifteen-minute timeout belongs to connections both sides have closed and at
      least one side has not yet confirmed. */
  lemma FinWaitTimeoutIff(h: seq<Packet>)
    ensures TimeoutFor(After(h)) == TCP_FIN_WAIT <==>
            && !AnyRst(h) && Sent(h, false, FIN) && Sent(h, true, FIN)
            && !(SentThenAcked(h, false, FIN) && SentThenAcked(h, true, FIN))
  {
    AfterIsHistory(h);
  }

  /** Every timeout, in seconds, over histories: a day once both sides have opened and neither closes,
      a quarter of an hour while both close, 45 seconds while one of two open sides closes, and half a
      minute before both have opened and after both have closed. */
  lemma TimeoutOfHistory(h: seq<Packet>)
    ensures var fin0, fin1 := Sent(h, false, 0x01), Sent(h, true, 0x01);
      var closed := AnyRst(h) || (SentThenAcked(h, false, 0x01) && SentThenAcked(h, true, 0x01));
      var open0, open1 := fin0 || Sent(h, true, 0x10), fin1 || SentThenAcked(h, true, 0x02);
      TimeoutFor(After(h)) ==
        if closed then 30 else if fin0 && fin1 then 900 else if !open0 || !open1 then 30
        else if fin0 || fin1 then 45 else 86400
  {
    AfterIsHistory(h);
  }

  // ---------------------------------------------------------------- interleaved updates

  /** Program points of one update.  `Load` and `Swap` are the two halves of the loop that
      raises a peer to at least `want`: a load, then compare-and-swap attempts. */
  datatype Pc = Idle
              | AtSyn | AtFin | AtAck | AtReset | AtSecondReset
              | Load(peer: bool, want: nat, ret: Pc) | Swap(peer: bool, want: nat, cur: nat, ret: Pc)
              | ReadOrig | ReadReply(orig: nat) | SetExpiration(p: Peers)

  /** `afterClose` records whether both peers were in TIME_WAIT when the update began. */
  datatype Updater = Updater(pc: Pc, isReply: bool, flags: bv8, now: nat, afterClose: bool)

  datatype Machine = Machine(peers: Peers, expiration: nat, updaters: seq<Updater>)

  /** A packet arrives at an updater, or an updater takes one atomic step; `spurious` lets a
      weak compare-and-swap fail without cause. */
  datatype Event = Arrive(t: nat, isReply: bool, flags: bv8, now: nat) | Step(t: nat, spurious: bool)

  function Peer(p: Peers, reply: bool): nat { if reply then p.reply else p.orig }

  function SetPeer(p: Peers, reply: bool, v: nat): Peers { if reply then p.(reply := v) else p.(orig := v) }

  predicate Enabled(m: Machine, ev: Event) {
    && ev.t < |m.updaters|
    && match ev
       case Arrive(t, _, flags, now) => m.updaters[t].pc.Idle? && !InvalidFlags(flags) && now <= MAX_U64
       case Step(t, _) => !m.updaters[t].pc.Idle? && m.updaters[t].now <= MAX_U64
  }

  function NextPc(p: Peers, u: Updater, spurious: bool): Pc {
    match u.pc
    case Idle => Idle
    case AtSyn => if Has(u.flags, SYN) then Load(u.isReply, SYN_SENT, AtFin) else AtFin
    case AtFin => if Has(u.flags, FIN) then Load(u.isReply, CLOSING, AtAck) else AtAck
    case AtAck =>
      if !Has(u.flags, ACK) then AtReset
      else if Peer(p, !u.isReply) == SYN_SENT then Load(!u.isReply, ESTABLISHED, AtReset)
      else if Peer(p, !u.isReply) == CLOSING then Load(!u.isReply, FIN_WAIT_2, AtReset)
      else AtReset
    case AtReset => if Has(u.flags, RST) then AtSecondReset else ReadOrig
    case AtSecondReset => ReadOrig
    case Load(peer, want, ret) => Swap(peer, want, Peer(p, peer), ret)
    case Swap(peer, want, cur, ret) =>
      if cur >= want || (Peer(p, peer) == cur && !spurious) then ret else Swap(peer, want, Peer(p, peer), ret)
    case ReadOrig => ReadReply(p.orig)
    case ReadReply(orig) => SetExpiration(Peers(orig, p.reply))
    case SetExpiration(_) => Idle
  }

  function NextPeers(p: Peers, u: Updater, spurious: bool): Peers {
    match u.pc
    case AtReset => if Has(u.flags, RST) then p.(orig := TIME_WAIT) else p
    case AtSecondReset => p.(reply := TIME_WAIT)
    case Swap(peer, want, cur, _) =>
      if cur < want && Peer(p, peer) == cur && !spurious then SetPeer(p, peer, want) else p
    case _ => p
  }

  function Next(m: Machine, ev: Event): Machine requires Enabled(m, ev) {
    match ev
    case Arrive(t, isReply, flags, now) =>
      m.(updaters := m.updaters[t := Updater(AtSyn, isReply, flags, now, m.peers == Peers(TIME_WAIT, TIME_WAIT))])
    case Step(t, spurious) =>
      var u := m.updaters[t];
      m.(peers := NextPeers(m.peers, u, spurious),
         expiration := if u.pc.SetExpiration? then AddTimeout(u.now, TimeoutFor(u.pc.p)) else m.expiration,
         updaters := m.updaters[t := u.(pc := NextPc(m.peers, u, spurious))])
  }

  /** A raise never aims above TIME_WAIT, an update past its first reset store has the original
      peer in TIME_WAIT, and an update begun after a close has only read TIME_WAIT. */
  ghost predicate UpdaterInv(p: Peers, u: Updater) {
    && (u.pc.Load? || u.pc.Swap? ==>
      u.pc.want <= TIME_WAIT && (u.pc.ret.AtFin? || u.pc.ret.AtAck? || u.pc.ret.AtReset?))
    && (u.pc.AtSecondReset? ==> p.orig == TIME_WAIT)
    && (u.afterClose ==> p == Peers(TIME_WAIT, TIME_WAIT))
    && (u.afterClose && u.pc.ReadReply? ==> u.pc.orig == TIME_WAIT)
    && (u.afterClose && u.pc.SetExpiration? ==> u.pc.p == Peers(TIME_WAIT, TIME_WAIT))
  }

  ghost predicate Inv(m: Machine) {
    && m.peers.orig <= TIME_WAIT && m.peers.reply <= TIME_WAIT
    && forall t :: 0 <= t < |m.updaters| ==> UpdaterInv(m.peers, m.updaters[t])
  }

  ghost predicate NotBelow(p: Peers, q: Peers) { p.orig <= q.orig && p.reply <= q.reply }

  lemma StepKeepsInv(m: Machine, ev: Event)
    requires Inv(m) && Enabled(m, ev)
    ensures Inv(Next(m, ev)) && NotBelow(m.peers, Next(m, ev).peers)
  {
    assert UpdaterInv(m.peers, m.updaters[ev.t]);
    assert NotBelow(m.peers, Next(m, ev).peers);
    forall t | 0 <= t < |m.updaters| ensures UpdaterInv(Next(m, ev).peers, Next(m, ev).updaters[t]) {
      assert UpdaterInv(m.peers, m.updaters[t]);
    }
  }

  ghost predicate IsRun(run: seq<Machine>, events: seq<Event>) {
    && |run| == |events| + 1
    && run[0].peers == Peers(SYN_SENT, CLOSED)
    && (forall t :: 0 <= t < |run[0].updaters| ==> run[0].updaters[t].pc.Idle? && !run[0].updaters[t].afterClose)
    && forall k :: 0 <= k < |events| ==> Enabled(run[k], events[k]) && run[k + 1] == Next(run[k], events[k])
  }

  lemma {:induction false} RunKeepsInv(run: seq<Machine>, events: seq<Event>, k: nat)
    requires IsRun(run, events) && k < |run|
    ensures Inv(run[k])
  {
    if k > 0 {
      RunKeepsInv(run, events, k - 1);
      StepKeepsInv(run[k - 1], events[k - 1]);
    }
  }

  /** Under every interleaving neither peer state ever goes down. */
  lemma {:induction false} PeersOnlyRise(run: seq<Machine>, events: seq<Event>, i: nat, k: nat)
    requires IsRun(run, events) && i <= k < |run|
    ensures NotBelow(run[i].peers, run[k].peers)
    decreases k - i
  {
    if i < k {
      RunKeepsInv(run, events, i);
      StepKeepsInv(run[i], events[i]);
      PeersOnlyRise(run, events, i + 1, k);
    }
  }

  /** Once the second store of a reset is done both peers are in TIME_WAIT and stay there. */
  lemma ResetIsFinal(run: seq<Machine>, events: seq<Event>, i: nat, k: nat)
    requires IsRun(run, events) && i < |events| && i < k < |run|
    requires events[i].Step? && run[i].updaters[events[i].t].pc.AtSecondReset?
    ensures run[k].peers == Peers(TIME_WAIT, TIME_WAIT)
    ensures k < |events| && events[k].Arrive? ==> run[k + 1].updaters[events[k].t].afterClose
  {
    RunKeepsInv(run, events, i);
    RunKeepsInv(run, events, k);
    assert UpdaterInv(run[i].peers, run[i].updaters[events[i].t]);
    PeersOnlyRise(run, events, i + 1, k);
  }

  /** An update that begins with both peers in TIME_WAIT stores the thirty-second close timeout. */
  lemma CloseTimeoutAfterReset(run: seq<Machine>, events: seq<Event>, k: nat)
    requires IsRun(run, events) && k < |events| && events[k].Step?
    requires var u := run[k].updaters[events[k].t]; u.afterClose && u.pc.SetExpiration?
    ensures run[k + 1].expiration == AddTimeout(run[k].updaters[events[k].t].now, TCP_CLOSE)
  {
    RunKeepsInv(run, events, k);
    assert UpdaterInv(run[k].peers, run[k].updaters[events[k].t]);
  }

  // ---------------------------------------------------------------- a lone updater

  /** `n` steps of updater `t` with nobody else moving. */
  function Alone(m: Machine, t: nat, n: nat): Machine
    requires t < |m.updaters| && m.updaters[t].now <= MAX_U64
    decreases n
  {
    if n == 0 || m.updaters[t].pc.Idle? then m else Alone(Next(m, Step(t, false)), t, n - 1)
  }

  lemma {:induction false} AloneAdds(m: Machine, t: nat, a: nat, b: nat)
    requires t < |m.updaters| && m.updaters[t].now <= MAX_U64
    ensures |Alone(m, t, a).updaters| == |m.updaters| && Alone(m, t, a).updaters[t].now == m.updaters[t].now
    ensures Alone(m, t, a + b) == Alone(Alone(m, t, a), t, b)
    decreases a
  {
    if a > 0 && !m.updaters[t].pc.Idle? {
      AloneAdds(Next(m, Step(t, false)), t, a - 1, b);
    }
  }

  /** The raise loop, run alone, is a maximum. */
  lemma RaiseAlone(m: Machine, t: nat)
    requires t < |m.updaters| && m.updaters[t].now <= MAX_U64 && m.updaters[t].pc.Load?
    ensures var pc := m.updaters[t].pc;
            Alone(m, t, 2) == m.(peers := SetPeer(m.peers, pc.peer, Bump(Peer(m.peers, pc.peer), pc.want)),
                                 updaters := m.updaters[t := m.updaters[t].(pc := pc.ret)])
  {
    var m1 := Next(m, Step(t, false));
    var m2 := Next(m1, Step(t, false));
    assert Alone(m, t, 2) == Alone(m1, t, 1) == Alone(m2, t, 0) == m2;
    assert m2.updaters == m.updaters[t := m.updaters[t].(pc := m.updaters[t].pc.ret)];
  }

  /** One stage run alone: a test, followed by the raise it asks for. */
  lemma StageAlone(m: Machine, t: nat) returns (n: nat)
    requires t < |m.updaters| && m.updaters[t].now <= MAX_U64
    requires m.updaters[t].pc.AtSyn? || m.updaters[t].pc.AtFin? || m.updaters[t].pc.AtAck?
    ensures var u := m.updaters[t];
            var src, dst := Peer(m.peers, u.isReply), Peer(m.peers, !u.isReply);
            Alone(m, t, n) == m.(
              peers := if u.pc.AtSyn? then SetPeer(m.peers, u.isReply, OnSyn(src, u.flags))
                       else if u.pc.AtFin? then SetPeer(m.peers, u.isReply, OnFin(src, u.flags))
                       else SetPeer(m.peers, !u.isReply, OnAck(dst, u.flags)),
              updaters := m.updaters[t := u.(pc :=
                if u.pc.AtSyn? then AtFin else if u.pc.AtFin? then AtAck else AtReset)])
  {
    var m1 := Next(m, Step(t, false));
    assert Alone(m, t, 1) == Alone(m1, t, 0) == m1;
    if m1.updaters[t].pc.Load? {
      RaiseAlone(m1, t);
      AloneAdds(m, t, 1, 2);
      n := 3;
    } else {
      n := 1;
    }
  }

  lemma TailAlone(m: Machine, t: nat) returns (n: nat)
    requires t < |m.updaters| && m.updaters[t].now <= MAX_U64 && m.updaters[t].pc.AtReset?
    ensures var u := m.updaters[t];
            var p := if Has(u.flags, RST) then Peers(TIME_WAIT, TIME_WAIT) else m.peers;
            Alone(m, t, n) == Machine(p, AddTimeout(u.now, TimeoutFor(p)), m.updaters[t := u.(pc := Idle)])
  {
    var m1 := Next(m, Step(t, false));
    var m2 := Next(m1, Step(t, false));
    var m3 := Next(m2, Step(t, false));
    var m4 := Next(m3, Step(t, false));
    assert Alone(m, t, 4) == Alone(m1, t, 3) == Alone(m2, t, 2) == Alone(m3, t, 1) == Alone(m4, t, 0) == m4;
    if Has(m.updaters[t].flags, RST) {
      var m5 := Next(m4, Step(t, false));
      assert Alone(m4, t, 1) == Alone(m5, t, 0) == m5;
      AloneAdds(m, t, 4, 1);
      n := 5;
      assert m5.updaters == m.updaters[t := m.updaters[t].(pc := Idle)];
    } else {
      n := 4;
      assert m4.updaters == m.updaters[t := m.updaters[t].(pc := Idle)];
    }
  }

  /** Without interference the atomic steps of an update compute `Advance` and store the
      timeout of the peers it leaves behind. */
  lemma AloneIsAdvance(m: Machine, t: nat) returns (n: nat)
    requires t < |m.updaters| && m.updaters[t].now <= MAX_U64 && m.updaters[t].pc.AtSyn?
    ensures var u := m.updaters[t];
            var p := Advance(m.peers, u.isReply, u.flags);
            Alone(m, t, n) == Machine(p, AddTimeout(u.now, TimeoutFor(p)), m.updaters[t := u.(pc := Idle)])
  {
    var a := StageAlone(m, t);
    var m1 := Alone(m, t, a);
    var b := StageAlone(m1, t);
    var m2 := Alone(m1, t, b);
    var c := StageAlone(m2, t);
    var m3 := Alone(m2, t, c);
    var d := TailAlone(m3, t);
    AloneAdds(m, t, a, b);
    AloneAdds(m, t, a + b, c);
    AloneAdds(m, t, a + b + c, d);
    n := a + b + c + d;
    assert m.updaters[t := m.updaters[t].(pc := Idle)] == m3.updaters[t := m3.updaters[t].(pc := Idle)];
  }
}
