/** The connection table: shards of buckets of chained entries, newest first, swept on a budget.
    Operations taken one at a time with timestamps that never go back refine the map of
    module `Flow`. */
module FlowTable {
  import opened Wrappers
  import opened Flow
  import T = TcpPeers

  type Chain = seq<Entry>

  datatype Shard = Shard(buckets: seq<Chain>, cursor: nat, lastHotSweepNs: nat)

  // ---------------------------------------------------------------- one chain

  /** Position of the newest entry of flow `k`. */
  function FirstMatch(c: Chain, k: Key): (i: nat)
    ensures i <= |c| && (i < |c| ==> Matches(c[i], k))
    ensures forall j :: 0 <= j < i ==> !Matches(c[j], k)
  {
    if c == [] || Matches(c[0], k) then 0 else 1 + FirstMatch(c[1..], k)
  }

  /** A lookup stops at the newest entry of the flow even when that entry has expired. */
  function Lookup(c: Chain, k: Key, now: nat): Option<Entry> {
    var i := FirstMatch(c, k);
    if i < |c| && !Expired(c[i], now) then Some(c[i]) else None
  }

  /** Of the entries of one flow only the newest can be live. */
  ghost predicate ChainOk(c: Chain, now: nat) {
    forall i, j :: 0 <= i < j < |c| && Matches(c[j], c[i].key) ==> Expired(c[j], now)
  }

  lemma MatchTransitive(a: Entry, b: Entry, k: Key)
    requires Matches(a, k)
    ensures Matches(b, k) <==> Matches(b, a.key)
  {
  }

  lemma LookupIsLive(c: Chain, k: Key, now: nat, i: nat)
    requires ChainOk(c, now) && i < |c| && Matches(c[i], k)
    ensures !Expired(c[i], now) <==> (i == FirstMatch(c, k) && Lookup(c, k, now) == Some(c[i]))
    ensures !Expired(c[i], now) ==> Lookup(c, k, now) == Some(c[i])
  {
    var f := FirstMatch(c, k);
    MatchTransitive(c[f], c[i], k);
  }

  /** `d` looks the same as `c` at time `now`, with no more entries and none of its own. */
  ghost predicate Prunes(c: Chain, d: Chain, now: nat) {
    && |d| <= |c|
    && (forall e :: e in d ==> e in c)
    && (forall e :: e in c && !Expired(e, now) ==> e in d)
    && (forall k :: Lookup(d, k, now) == Lookup(c, k, now))
  }

  lemma FirstMatchIs(c: Chain, k: Key, i: nat)
    requires i <= |c| && (i < |c| ==> Matches(c[i], k)) && forall j :: 0 <= j < i ==> !Matches(c[j], k)
    ensures FirstMatch(c, k) == i
  {
  }

  lemma RemoveOk(c: Chain, i: nat, now: nat)
    requires ChainOk(c, now) && i < |c|
    ensures ChainOk(c[..i] + c[i + 1..], now)
  {
    var d := c[..i] + c[i + 1..];
    forall a, b | 0 <= a < b < |d| && Matches(d[b], d[a].key) ensures Expired(d[b], now) {
      assert d[a] == c[if a < i then a else a + 1] && d[b] == c[if b < i then b else b + 1];
    }
  }

  lemma RemoveLookup(c: Chain, i: nat, now: nat, k: Key)
    requires ChainOk(c, now) && i < |c| && Expired(c[i], now)
    ensures Lookup(c[..i] + c[i + 1..], k, now) == Lookup(c, k, now)
  {
    var d := c[..i] + c[i + 1..];
    var f := FirstMatch(c, k);
    if f < i {
      assert forall j :: 0 <= j <= f ==> d[j] == c[j];
      FirstMatchIs(d, k, f);
    } else if f > i {
      assert forall j :: 0 <= j < |d| ==> d[j] == c[if j < i then j else j + 1];
      FirstMatchIs(d, k, f - 1);
    } else {
      var g := FirstMatch(d, k);
      if g < |d| {
        assert d[g] == c[if g < i then g else g + 1];
        MatchTransitive(c[f], d[g], k);
      }
    }
  }

  /** Taking an expired entry out of a chain cannot be noticed by any lookup. */
  lemma RemoveExpired(c: Chain, i: nat, now: nat)
    requires ChainOk(c, now) && i < |c| && Expired(c[i], now)
    ensures ChainOk(c[..i] + c[i + 1..], now) && Prunes(c, c[..i] + c[i + 1..], now)
  {
    RemoveOk(c, i, now);
    forall k ensures Lookup(c[..i] + c[i + 1..], k, now) == Lookup(c, k, now) {
      RemoveLookup(c, i, now, k);
    }
    assert c == c[..i] + [c[i]] + c[i + 1..];
  }

  /** Replacing the live entry of flow `k` by another of the same key changes that flow only. */
  lemma ReplaceLive(c: Chain, k: Key, now: nat, e: Entry)
    requires ChainOk(c, now) && Lookup(c, k, now).Some? && e.key == Lookup(c, k, now).value.key
    ensures var d := c[FirstMatch(c, k) := e];
            ChainOk(d, now) &&
            forall q :: Lookup(d, q, now) ==
              if Pair(q) != Pair(k) then Lookup(c, q, now) else if Expired(e, now) then None else Some(e)
  {
    var i := FirstMatch(c, k);
    var d := c[i := e];
    forall a, b | 0 <= a < b < |d| && Matches(d[b], d[a].key) ensures Expired(d[b], now) {
      assert d[a].key == c[a].key && d[b].key == c[b].key;
      assert Matches(c[b], c[a].key);
    }
    forall q ensures Lookup(d, q, now) ==
      if Pair(q) != Pair(k) then Lookup(c, q, now) else if Expired(e, now) then None else Some(e) {
      assert forall j :: 0 <= j < |c| ==> (Matches(d[j], q) <==> Matches(c[j], q));
      FirstMatchIs(d, q, FirstMatch(c, q));
      MatchIsPair(c[i], k);
      MatchIsPair(c[i], q);
      if Pair(q) == Pair(k) {
        FirstMatchIs(c, q, i);
      }
    }
  }

  /** A new entry in front of a chain that has no live entry of its flow. */
  lemma PushFront(c: Chain, now: nat, e: Entry)
    requires ChainOk(c, now) && Lookup(c, e.key, now).None?
    ensures ChainOk([e] + c, now)
    ensures forall q :: Lookup([e] + c, q, now) ==
              if Pair(q) != Pair(e.key) then Lookup(c, q, now) else if Expired(e, now) then None else Some(e)
  {
    var d := [e] + c;
    forall a, b | 0 <= a < b < |d| && Matches(d[b], d[a].key) ensures Expired(d[b], now) {
      assert d[b] == c[b - 1];
      if a == 0 {
        LookupIsLive(c, e.key, now, b - 1);
      } else {
        assert d[a] == c[a - 1];
      }
    }
    forall q ensures Lookup(d, q, now) ==
      if Pair(q) != Pair(e.key) then Lookup(c, q, now) else if Expired(e, now) then None else Some(e) {
      MatchIsPair(e, q);
      assert d[1..] == c;
    }
  }

  lemma LaterOk(c: Chain, now: nat, later: nat)
    requires ChainOk(c, now) && now <= later
    ensures ChainOk(c, later)
    ensures forall k :: Lookup(c, k, later) ==
              if Lookup(c, k, now).Some? && !Expired(Lookup(c, k, now).value, later) then Lookup(c, k, now) else None
  {
  }

  /** A later lookup follows from an earlier one, in any chain. */
  lemma LookupLater(c: Chain, k: Key, now: nat, ts: nat)
    requires now <= ts
    ensures Lookup(c, k, ts) ==
      if Lookup(c, k, now).Some? && !Expired(Lookup(c, k, now).value, ts) then Lookup(c, k, now) else None
  {
  }

  /** A sweep at `now` cannot be noticed at `ts`. */
  ghost predicate UnnoticedAt(now: nat, ts: nat) {
    forall c, d, k {:trigger Prunes(c, d, now), Lookup(c, k, ts)} | ChainOk(c, now) && Prunes(c, d, now) ::
      Lookup(d, k, ts) == Lookup(c, k, ts)
  }

  /** Sweeps go unnoticed at a time exactly when that time is not before them. */
  lemma SweepUnnoticed(now: nat, ts: nat)
    ensures UnnoticedAt(now, ts) <==> now <= ts
  {
    if now <= ts {
      forall c, d, k | ChainOk(c, now) && Prunes(c, d, now) ensures Lookup(d, k, ts) == Lookup(c, k, ts) {
        LookupLater(c, k, now, ts);
        LookupLater(d, k, now, ts);
      }
    } else {
      var end := Endpoint(0, 0, 0, 0, 0);
      var e := Entry(Key(0, UDP, end, end), now, T.Peers(0, 0));
      var c, d: Chain := [e], [];
      RemoveExpired(c, 0, now);
      assert c[..0] + c[1..] == d;
      assert Prunes(c, d, now) && Lookup(c, e.key, ts) == Some(e) && Lookup(d, e.key, ts) == None;
    }
  }

  /** With entries as the tracker makes them: a flow opened anew after its first entry ran out, both run
      out by the time of a sweep that takes the newer one, and a packet that carries a time at which
      the older one still stood. The lookup then finds the entry that was replaced. */
  lemma BackwardTimeRevives(f: Family, k: Key, p: Packet, q: Packet, now: nat, ts: nat)
    requires p.proto == q.proto == UDP && Timely(q)
    requires p.tsNs + MINUTE <= q.tsNs && q.tsNs + MINUTE <= now <= T.MAX_U64 && ts < p.tsNs + MINUTE
    ensures var c := [FreshEntry(f, k, q), FreshEntry(f, k, p)];
      && ChainOk(c, now) && Prunes(c, c[1..], now)
      && Lookup(c, k, ts) == Some(FreshEntry(f, k, q)) && Lookup(c[1..], k, ts) == Some(FreshEntry(f, k, p))
      && FreshEntry(f, k, p) != FreshEntry(f, k, q)
  {
    var c := [FreshEntry(f, k, q), FreshEntry(f, k, p)];
    RemoveExpired(c, 0, now);
    assert c[..0] + c[1..] == c[1..];
  }

  const MINUTE: nat := 60 * T.NS_PER_SEC

  // ---------------------------------------------------------------- the table

  predicate IsPow2(n: nat) { n == 1 || (n > 1 && n % 2 == 0 && IsPow2(n / 2)) }

  /** Bitwise and, digit by digit. */
  function BitAnd(a: nat, b: nat): nat {
    if a == 0 || b == 0 then 0 else 2 * BitAnd(a / 2, b / 2) + (a % 2) * (b % 2)
  }

  /** Masking with a power of two less one is taking the remainder. */
  lemma MaskIsRemainder(h: nat, n: nat)
    requires IsPow2(n)
    ensures BitAnd(h, n - 1) == h % n
  {
    var q := MaskSplits(h, n);
    RemainderIs(h, n, q, BitAnd(h, n - 1));
  }

  lemma {:induction false} MaskSplits(h: nat, n: nat) returns (q: nat)
    requires IsPow2(n)
    ensures BitAnd(h, n - 1) < n && h == n * q + BitAnd(h, n - 1)
  {
    if n == 1 {
      q := h;
    } else if h == 0 {
      q := 0;
    } else {
      var m := n / 2;
      q := MaskSplits(h / 2, m);
      LowBit(h, m);
      Doubled(h, m, q, BitAnd(h / 2, m - 1));
    }
  }

  lemma LowBit(h: nat, m: nat)
    requires m > 0 && h > 0
    ensures BitAnd(h, 2 * m - 1) == 2 * BitAnd(h / 2, m - 1) + h % 2
  {
    assert (2 * m - 1) / 2 == m - 1 && (2 * m - 1) % 2 == 1;
  }

  lemma Doubled(h: nat, m: nat, q: nat, r: nat)
    requires h / 2 == m * q + r
    ensures h == (2 * m) * q + (2 * r + h % 2)
  {
    assert (2 * m) * q == 2 * (m * q);
  }

  lemma RemainderIs(h: nat, n: nat, q: nat, r: nat)
    requires n > 0 && r < n && h == n * q + r
    ensures h % n == r
  {
    var d, m := h / n, h % n;
    assert h == n * d + m;
    if d > q {
      TimesGrows(n, q, d);
    } else if d < q {
      TimesGrows(n, d, q);
    }
  }

  lemma TimesGrows(n: nat, a: nat, b: nat)
    requires a < b
    ensures n * a + n <= n * b
  {
    var c := b - a - 1;
    assert n * b == n * a + n + n * c;
  }

  /** How keys are spread: any hash, the number of shards, and the buckets of a shard. */
  datatype Layout = Layout(hash: Key -> nat, shards: nat, buckets: nat)

  ghost predicate LayoutOk(l: Layout) {
    && l.shards > 0 && IsPow2(l.buckets)
    && forall k {:trigger l.hash(k)} :: l.hash(Reverse(k)) == l.hash(k)
  }

  /** The tracker's own hash qualifies, whatever its endpoint hash and mixer are. */
  lemma TrackerHashQualifies(endpoint: Endpoint -> bv64, mix: nat -> bv64, shards: nat, buckets: nat)
    requires shards > 0 && IsPow2(buckets)
    ensures LayoutOk(Layout((k: Key) => HashKey(k, endpoint, mix) as nat, shards, buckets))
  {
    var l := Layout((k: Key) => HashKey(k, endpoint, mix) as nat, shards, buckets);
    forall k ensures l.hash(Reverse(k)) == l.hash(k) {
      HashIsSymmetric(k, endpoint, mix);
    }
  }

  function HomeShard(l: Layout, k: Key): (s: nat) requires l.shards > 0 ensures s < l.shards { l.hash(k) % l.shards }

  /** Bucket by the low 32 bits of the hash under the bucket mask. */
  function HomeBucket(l: Layout, k: Key): (b: nat)
    requires IsPow2(l.buckets)
    ensures b < l.buckets && b == (l.hash(k) % 0x1_0000_0000) % l.buckets
  {
    MaskIsRemainder(l.hash(k) % 0x1_0000_0000, l.buckets);
    BitAnd(l.hash(k) % 0x1_0000_0000, l.buckets - 1)
  }

  ghost predicate Shaped(l: Layout, t: seq<Shard>) {
    && LayoutOk(l) && |t| == l.shards
    && forall s :: 0 <= s < |t| ==> |t[s].buckets| == l.buckets && t[s].cursor < l.buckets
  }

  ghost predicate Placed(l: Layout, c: Chain, s: nat, b: nat) requires LayoutOk(l) {
    forall i :: 0 <= i < |c| ==> HomeShard(l, c[i].key) == s && HomeBucket(l, c[i].key) == b
  }

  /** Every entry is in the shard and bucket of its key. */
  ghost predicate Structured(l: Layout, t: seq<Shard>) {
    Shaped(l, t) && forall s, b :: 0 <= s < l.shards && 0 <= b < l.buckets ==> Placed(l, t[s].buckets[b], s, b)
  }

  ghost predicate TableOk(l: Layout, t: seq<Shard>, now: nat) {
    Structured(l, t) && forall s, b :: 0 <= s < l.shards && 0 <= b < l.buckets ==> ChainOk(t[s].buckets[b], now)
  }

  ghost function LookupTable(l: Layout, t: seq<Shard>, k: Key, now: nat): Option<Entry>
    requires Shaped(l, t)
  {
    Lookup(t[HomeShard(l, k)].buckets[HomeBucket(l, k)], k, now)
  }

  /** A live entry of flow `k`, wherever it is, is in the bucket where `k` is looked up, is the
      newest of its flow there, and is what the lookup returns. */
  lemma LiveIsFound(l: Layout, t: seq<Shard>, now: nat, k: Key, s: nat, b: nat, i: nat)
    requires TableOk(l, t, now) && s < l.shards && b < l.buckets && i < |t[s].buckets[b]|
    requires Matches(t[s].buckets[b][i], k) && !Expired(t[s].buckets[b][i], now)
    ensures s == HomeShard(l, k) && b == HomeBucket(l, k) && i == FirstMatch(t[s].buckets[b], k)
    ensures LookupTable(l, t, k, now) == Some(t[s].buckets[b][i])
  {
    assert Placed(l, t[s].buckets[b], s, b) && ChainOk(t[s].buckets[b], now);
    assert l.hash(t[s].buckets[b][i].key) == l.hash(k);
    LookupIsLive(t[s].buckets[b], k, now, i);
  }

  /** At most one entry of a flow is live in the whole table. */
  lemma AtMostOneLive(l: Layout, t: seq<Shard>, now: nat, k: Key, s: nat, b: nat, i: nat, s': nat, b': nat, i': nat)
    requires TableOk(l, t, now) && s < l.shards && b < l.buckets && s' < l.shards && b' < l.buckets
    requires i < |t[s].buckets[b]| && i' < |t[s'].buckets[b']|
    requires Matches(t[s].buckets[b][i], k) && !Expired(t[s].buckets[b][i], now)
    requires Matches(t[s'].buckets[b'][i'], k) && !Expired(t[s'].buckets[b'][i'], now)
    ensures s == s' && b == b' && i == i'
  {
    LiveIsFound(l, t, now, k, s, b, i);
    LiveIsFound(l, t, now, k, s', b', i');
  }

  /** The table stands for a map of flows: every lookup at time `now` agrees with it. */
  ghost predicate Represents(l: Layout, t: seq<Shard>, m: Flows, now: nat) requires Shaped(l, t) {
    forall k :: LookupTable(l, t, k, now) == Find(m, k, now)
  }

  lemma TimePasses(l: Layout, t: seq<Shard>, m: Flows, now: nat, later: nat)
    requires TableOk(l, t, now) && Represents(l, t, m, now) && now <= later
    ensures TableOk(l, t, later) && Represents(l, t, m, later)
  {
    forall s, b | 0 <= s < l.shards && 0 <= b < l.buckets ensures ChainOk(t[s].buckets[b], later) {
      LaterOk(t[s].buckets[b], now, later);
    }
    forall k ensures LookupTable(l, t, k, later) == Find(m, k, later) {
      assert LookupTable(l, t, k, now) == Find(m, k, now);
      LaterOk(t[HomeShard(l, k)].buckets[HomeBucket(l, k)], now, later);
    }
  }

  function SetChain(t: seq<Shard>, s: nat, b: nat, c: Chain): seq<Shard>
    requires s < |t| && b < |t[s].buckets|
  {
    t[s := t[s].(buckets := t[s].buckets[b := c])]
  }

  /** One chain is replaced by a sound one; only lookups that go there can change. */
  lemma SetChainOk(l: Layout, t: seq<Shard>, now: nat, s: nat, b: nat, c: Chain)
    requires TableOk(l, t, now) && s < l.shards && b < l.buckets && ChainOk(c, now) && Placed(l, c, s, b)
    ensures TableOk(l, SetChain(t, s, b, c), now)
    ensures forall k :: LookupTable(l, SetChain(t, s, b, c), k, now) ==
              if HomeShard(l, k) == s && HomeBucket(l, k) == b then Lookup(c, k, now) else LookupTable(l, t, k, now)
  {
  }

  /** Nothing a lookup could notice has gone, and nothing has been added. */
  ghost predicate TablePrunes(l: Layout, t: seq<Shard>, u: seq<Shard>, now: nat) requires Shaped(l, t) && Shaped(l, u) {
    forall s, b :: 0 <= s < l.shards && 0 <= b < l.buckets ==> Prunes(t[s].buckets[b], u[s].buckets[b], now)
  }

  lemma SweepStep(l: Layout, t0: seq<Shard>, t: seq<Shard>, ts: nat, s: nat, b: nat, c: Chain)
    requires TableOk(l, t, ts) && Shaped(l, t0) && TablePrunes(l, t0, t, ts) && s < l.shards && b < l.buckets
    requires ChainOk(c, ts) && Prunes(t[s].buckets[b], c, ts)
    ensures TableOk(l, SetChain(t, s, b, c), ts) && TablePrunes(l, t0, SetChain(t, s, b, c), ts)
  {
    SubchainPlaced(l, t, s, b, c);
    SetChainOk(l, t, ts, s, b, c);
    PrunesTransitive(t0[s].buckets[b], t[s].buckets[b], c, ts);
  }

  lemma PrunesTransitive(a: Chain, b: Chain, c: Chain, now: nat)
    requires Prunes(a, b, now) && Prunes(b, c, now)
    ensures Prunes(a, c, now)
  {
  }

  /** Moving a shard's sweep cursor or its sweep time changes no chain. */
  lemma SetShardMeta(l: Layout, t0: seq<Shard>, t: seq<Shard>, ts: nat, s: nat, cursor: nat, hot: nat)
    requires TableOk(l, t, ts) && Shaped(l, t0) && TablePrunes(l, t0, t, ts) && s < l.shards && cursor < l.buckets
    ensures var u := t[s := t[s].(cursor := cursor, lastHotSweepNs := hot)];
            TableOk(l, u, ts) && TablePrunes(l, t0, u, ts)
  {
    var u := t[s := t[s].(cursor := cursor, lastHotSweepNs := hot)];
    assert forall i :: 0 <= i < |t| ==> u[i].buckets == t[i].buckets;
  }

  /** What a sweep leaves: every entry in its place, none that was not there, and, in a sound table,
      nothing that a lookup could notice. */
  ghost predicate Swept(l: Layout, t0: seq<Shard>, t: seq<Shard>, ts: nat) {
    && Structured(l, t0) && Structured(l, t) && (TableOk(l, t0, ts) ==> TableOk(l, t, ts) && TablePrunes(l, t0, t, ts))
  }

  lemma SweptRefl(l: Layout, t: seq<Shard>, ts: nat)
    requires Structured(l, t)
    ensures Swept(l, t, t, ts)
  {
    TablePrunesRefl(l, t, ts);
  }

  lemma SweptMeta(l: Layout, t0: seq<Shard>, t: seq<Shard>, ts: nat, s: nat, cursor: nat, hot: nat)
    requires Swept(l, t0, t, ts) && s < l.shards && cursor < l.buckets
    ensures Swept(l, t0, t[s := t[s].(cursor := cursor, lastHotSweepNs := hot)], ts)
  {
    var u := t[s := t[s].(cursor := cursor, lastHotSweepNs := hot)];
    assert forall i :: 0 <= i < |t| ==> u[i].buckets == t[i].buckets;
    if TableOk(l, t0, ts) {
      SetShardMeta(l, t0, t, ts, s, cursor, hot);
    }
  }

  lemma SweptChain(l: Layout, t0: seq<Shard>, t: seq<Shard>, ts: nat, s: nat, b: nat, c: Chain)
    requires Swept(l, t0, t, ts) && s < l.shards && b < l.buckets && forall e | e in c :: e in t[s].buckets[b]
    requires ChainOk(t[s].buckets[b], ts) ==> ChainOk(c, ts) && Prunes(t[s].buckets[b], c, ts)
    ensures Swept(l, t0, SetChain(t, s, b, c), ts)
  {
    SubchainPlaced(l, t, s, b, c);
    SetChainStructured(l, t, s, b, c);
    if TableOk(l, t0, ts) {
      assert ChainOk(t[s].buckets[b], ts);
      SweepStep(l, t0, t, ts, s, b, c);
    }
  }

  lemma SubchainPlaced(l: Layout, t: seq<Shard>, s: nat, b: nat, c: Chain)
    requires Structured(l, t) && s < l.shards && b < l.buckets && forall e | e in c :: e in t[s].buckets[b]
    ensures Placed(l, c, s, b)
  {
    assert Placed(l, t[s].buckets[b], s, b);
    forall i | 0 <= i < |c| ensures HomeShard(l, c[i].key) == s && HomeBucket(l, c[i].key) == b {
      assert c[i] in t[s].buckets[b];
    }
  }

  lemma SetChainStructured(l: Layout, t: seq<Shard>, s: nat, b: nat, c: Chain)
    requires Structured(l, t) && s < l.shards && b < l.buckets && Placed(l, c, s, b)
    ensures Structured(l, SetChain(t, s, b, c))
  {
  }

  lemma SweptTransitive(l: Layout, t0: seq<Shard>, t: seq<Shard>, u: seq<Shard>, ts: nat)
    requires Swept(l, t0, t, ts) && Swept(l, t, u, ts)
    ensures Swept(l, t0, u, ts)
  {
    if TableOk(l, t0, ts) {
      forall s, b | 0 <= s < l.shards && 0 <= b < l.buckets ensures Prunes(t0[s].buckets[b], u[s].buckets[b], ts) {
        PrunesTransitive(t0[s].buckets[b], t[s].buckets[b], u[s].buckets[b], ts);
      }
    }
  }

  lemma PruneKeepsMap(l: Layout, t: seq<Shard>, u: seq<Shard>, m: Flows, now: nat)
    requires TableOk(l, t, now) && TableOk(l, u, now) && TablePrunes(l, t, u, now) && Represents(l, t, m, now)
    ensures Represents(l, u, m, now)
  {
    forall k ensures LookupTable(l, u, k, now) == Find(m, k, now) {
      assert LookupTable(l, t, k, now) == Find(m, k, now);
      assert Prunes(t[HomeShard(l, k)].buckets[HomeBucket(l, k)], u[HomeShard(l, k)].buckets[HomeBucket(l, k)], now);
    }
  }

  lemma TablePrunesRefl(l: Layout, t: seq<Shard>, now: nat)
    requires Shaped(l, t)
    ensures TablePrunes(l, t, t, now)
  {
  }

  /** A chain edit that changes the lookups of one flow changes the map at that flow. */
  lemma EditKeepsMap(l: Layout, t: seq<Shard>, m: Flows, now: nat, k: Key, c: Chain, e: Entry)
    requires TableOk(l, t, now) && Represents(l, t, m, now)
    requires var s, b := HomeShard(l, k), HomeBucket(l, k);
             ChainOk(c, now) && Placed(l, c, s, b) &&
             forall q :: Lookup(c, q, now) ==
               if Pair(q) != Pair(k) then Lookup(t[s].buckets[b], q, now) else if Expired(e, now) then None else Some(e)
    ensures var u := SetChain(t, HomeShard(l, k), HomeBucket(l, k), c);
            TableOk(l, u, now) && Represents(l, u, m[Pair(k) := e], now)
  {
    var s, b := HomeShard(l, k), HomeBucket(l, k);
    SetChainOk(l, t, now, s, b, c);
    PairHasOneHome(l, k);
    forall q ensures LookupTable(l, SetChain(t, s, b, c), q, now) == Find(m[Pair(k) := e], q, now) {
      assert LookupTable(l, t, q, now) == Find(m, q, now);
    }
  }

  lemma HitKeepsMap(l: Layout, t: seq<Shard>, m: Flows, now: nat, k: Key, e: Entry)
    requires TableOk(l, t, now) && Represents(l, t, m, now)
    requires LookupTable(l, t, k, now).Some? && e.key == LookupTable(l, t, k, now).value.key
    ensures var s, b := HomeShard(l, k), HomeBucket(l, k);
            var u := SetChain(t, s, b, t[s].buckets[b][FirstMatch(t[s].buckets[b], k) := e]);
            TableOk(l, u, now) && Represents(l, u, m[Pair(k) := e], now)
  {
    var s, b := HomeShard(l, k), HomeBucket(l, k);
    var c := t[s].buckets[b];
    assert ChainOk(c, now) && Placed(l, c, s, b);
    ReplaceLive(c, k, now, e);
    EditKeepsMap(l, t, m, now, k, c[FirstMatch(c, k) := e], e);
  }

  lemma MissKeepsMap(l: Layout, t: seq<Shard>, m: Flows, now: nat, e: Entry)
    requires TableOk(l, t, now) && Represents(l, t, m, now) && LookupTable(l, t, e.key, now).None?
    ensures var s, b := HomeShard(l, e.key), HomeBucket(l, e.key);
            var u := SetChain(t, s, b, [e] + t[s].buckets[b]);
            TableOk(l, u, now) && Represents(l, u, m[Pair(e.key) := e], now)
  {
    var s, b := HomeShard(l, e.key), HomeBucket(l, e.key);
    var c := t[s].buckets[b];
    assert ChainOk(c, now) && Placed(l, c, s, b);
    PushFront(c, now, e);
    EditKeepsMap(l, t, m, now, e.key, [e] + c, e);
  }

  // ---------------------------------------------------------------- how many entries

  function ChainsSize(bs: seq<Chain>): nat { if bs == [] then 0 else |bs[0]| + ChainsSize(bs[1..]) }

  function Size(t: seq<Shard>): nat { if t == [] then 0 else ChainsSize(t[0].buckets) + Size(t[1..]) }

  lemma {:induction false} ChainsSizeUpdate(bs: seq<Chain>, b: nat, c: Chain)
    requires b < |bs|
    ensures ChainsSize(bs[b := c]) == ChainsSize(bs) - |bs[b]| + |c|
  {
    if b == 0 {
      assert bs[0 := c][1..] == bs[1..];
    } else {
      assert bs[b := c][1..] == bs[1..][b - 1 := c];
      ChainsSizeUpdate(bs[1..], b - 1, c);
    }
  }

  lemma {:induction false} SizeUpdate(t: seq<Shard>, s: nat, sh: Shard)
    requires s < |t|
    ensures Size(t[s := sh]) == Size(t) - ChainsSize(t[s].buckets) + ChainsSize(sh.buckets)
  {
    if s == 0 {
      assert t[0 := sh][1..] == t[1..];
    } else {
      assert t[s := sh][1..] == t[1..][s - 1 := sh];
      SizeUpdate(t[1..], s - 1, sh);
    }
  }

  lemma SetChainSize(t: seq<Shard>, s: nat, b: nat, c: Chain)
    requires s < |t| && b < |t[s].buckets|
    ensures Size(SetChain(t, s, b, c)) == Size(t) - |t[s].buckets[b]| + |c|
  {
    ChainsSizeUpdate(t[s].buckets, b, c);
    SizeUpdate(t, s, t[s].(buckets := t[s].buckets[b := c]));
  }

  lemma {:induction false} EmptySize(t: seq<Shard>)
    requires forall s :: 0 <= s < |t| ==> ChainsSize(t[s].buckets) == 0
    ensures Size(t) == 0
  {
    if t != [] {
      EmptySize(t[1..]);
    }
  }

  lemma {:induction false} EmptyChainsSize(bs: seq<Chain>)
    requires forall b :: 0 <= b < |bs| ==> bs[b] == []
    ensures ChainsSize(bs) == 0
  {
    if bs != [] {
      EmptyChainsSize(bs[1..]);
    }
  }

  // ---------------------------------------------------------------- the tracker

  function AtLeastOne(n: nat): nat { if n == 0 then 1 else n }

  function EmptyTable(l: Layout): seq<Shard> { seq(l.shards, _ => Shard(seq(l.buckets, _ => []), 0, 0)) }

  lemma EmptyTableStandsForNothing(l: Layout)
    requires LayoutOk(l)
    ensures TableOk(l, EmptyTable(l), 0) && Represents(l, EmptyTable(l), map[], 0) && Size(EmptyTable(l)) == 0
  {
    var t := EmptyTable(l);
    forall s | 0 <= s < |t| ensures ChainsSize(t[s].buckets) == 0 {
      EmptyChainsSize(t[s].buckets);
    }
    EmptySize(t);
  }

  /** What the tracker reports for a packet of flow `k` that finds an entry, or none. */
  function ViewAt(f: Family, found: Option<Entry>, k: Key, p: Packet, full: bool): View
    requires Timely(p)
  {
    match found
    case None => MissView(f, p, full)
    case Some(e) => ReportedView(Touch(f, e, p, Reverse(e.key) == k).1, Reverse(e.key) == k)
  }

  /** After the sweep: the view is that of the newest entry of the flow; a live one is updated in its place,
      and otherwise the shard is swept once more. */
  ghost predicate LookedUp(l: Layout, f: Family, mid: seq<Shard>, t: seq<Shard>, k: Key, p: Packet, full: bool,
                           view: View)
    requires Structured(l, mid) && Timely(p)
  {
    var found, c := LookupTable(l, mid, k, p.tsNs), mid[HomeShard(l, k)].buckets[HomeBucket(l, k)];
    && view == ViewAt(f, found, k, p, full)
    && if found.Some? then
         t == SetChain(mid, HomeShard(l, k), HomeBucket(l, k),
                       c[FirstMatch(c, k) := Touch(f, found.value, p, Reverse(found.value.key) == k).0])
       else Swept(l, mid, t, p.tsNs)
  }

  /** Inspection at any time: a packet with a key is looked up in what the sweep before the lookup left. */
  ghost predicate Inspected(l: Layout, f: Family, t0: seq<Shard>, mid: seq<Shard>, t: seq<Shard>, p: Packet, full: bool,
                            view: View)
    requires Structured(l, t0) && Timely(p)
  {
    if p.isFragment || MakeKey(f, p).None? then t == t0 && view == InvalidView
    else Swept(l, t0, mid, p.tsNs) && LookedUp(l, f, mid, t, MakeKey(f, p).value, p, full, view)
  }

  /** A commit at any time: an entry is made exactly for a previewed, valid packet whose flow has no live
      newest entry, while there is room; it goes in front of its chain. */
  ghost predicate Committed(l: Layout, f: Family, t0: seq<Shard>, mid: seq<Shard>, t: seq<Shard>, p: Packet, full: bool,
                            view: View)
    requires Structured(l, t0) && Timely(p)
  {
    if !Creates(view) || MakeKey(f, p).None? || LookupTable(l, t0, MakeKey(f, p).value, p.tsNs).Some? then t == t0 else
    var k := MakeKey(f, p).value;
    && Swept(l, t0, mid, p.tsNs)
    && t == if !ValidNew(f, p) || full then mid
            else SetChain(mid, HomeShard(l, k), HomeBucket(l, k),
                          [FreshEntry(f, k, p)] + mid[HomeShard(l, k)].buckets[HomeBucket(l, k)])
  }

  class Tracker {
    const family: Family
    const layout: Layout
    const maxEntries: nat
    const sweepMaxBuckets: nat
    const sweepMaxEntries: nat
    const sweepMinIntervalNs: nat
    var table: seq<Shard>
    var totalEntries: nat

    // The map the table stands for, and the latest timestamp seen.
    ghost var flows: Flows
    ghost var now: nat

    /** What holds whatever the timestamps: entries in their places, and counted. */
    ghost predicate Sane()
      reads this`table, this`totalEntries
    {
      Structured(layout, table) && totalEntries == Size(table)
    }

    ghost predicate Valid()
      reads this
    {
      TableOk(layout, table, now) && Represents(layout, table, flows, now)
    }

    /** Options out of range are put right: 1 to 4096 shards, 4096 buckets when the number given is no
        power of two, and budgets of at least one. */
    constructor (family: Family, hash: Key -> nat, shards: nat, buckets: nat, maxEntries: nat,
                 sweepMaxBuckets: nat, sweepMaxEntries: nat, sweepMinIntervalNs: nat)
      requires forall k {:trigger hash(k)} :: hash(Reverse(k)) == hash(k)
      ensures Sane() && Valid() && flows == map[] && now == 0 && this.family == family && layout.hash == hash
      ensures 1 <= layout.shards <= 4096 && (1 <= shards <= 4096 ==> layout.shards == shards)
      ensures layout.buckets == if IsPow2(buckets) then buckets else 4096
      ensures this.maxEntries >= 1 && (maxEntries > 0 ==> this.maxEntries == maxEntries) && totalEntries == 0
      ensures this.sweepMaxBuckets >= 1 && this.sweepMaxEntries >= 1
    {
      this.family := family;
      var l := Layout(hash, if shards < 1 then 1 else if shards > 4096 then 4096 else shards,
                      if IsPow2(buckets) then buckets else 4096);
      assert IsPow2(4096);
      EmptyTableStandsForNothing(l);
      layout := l;
      this.maxEntries := AtLeastOne(maxEntries);
      this.sweepMaxBuckets := AtLeastOne(sweepMaxBuckets);
      this.sweepMaxEntries := AtLeastOne(sweepMaxEntries);
      this.sweepMinIntervalNs := sweepMinIntervalNs;
      table, totalEntries := EmptyTable(l), 0;
      flows, now := map[], 0;
    }

    /** Removes expired entries of one chain within the given budgets. */
    method SweepChain(c0: Chain, ts: nat, removed0: nat, scanned0: nat) returns (c: Chain, removed: nat, scanned: nat)
      ensures forall e | e in c :: e in c0
      ensures ChainOk(c0, ts) ==> ChainOk(c, ts) && Prunes(c0, c, ts)
      ensures removed == removed0 + |c0| - |c| && (removed0 <= sweepMaxEntries ==> removed <= sweepMaxEntries)
      ensures removed < sweepMaxEntries && scanned < sweepMaxEntries ==> forall e | e in c :: !Expired(e, ts)
    {
      c, removed, scanned := c0, removed0, scanned0;
      var i := 0;
      while i < |c| && removed < sweepMaxEntries && scanned < sweepMaxEntries
        invariant 0 <= i <= |c| && forall e | e in c :: e in c0
        invariant ChainOk(c0, ts) ==> ChainOk(c, ts) && Prunes(c0, c, ts)
        invariant removed == removed0 + |c0| - |c| && (removed0 <= sweepMaxEntries ==> removed <= sweepMaxEntries)
        invariant forall j | 0 <= j < i :: !Expired(c[j], ts)
        decreases |c| - i
      {
        scanned := scanned + 1;
        if Expired(c[i], ts) {
          if ChainOk(c0, ts) {
            RemoveExpired(c, i, ts);
          }
          c := c[..i] + c[i + 1..];
          removed := removed + 1;
        } else {
          i := i + 1;
        }
      }
    }

    /** A budgeted sweep of one shard, going on where the last one stopped. */
    method SweepLocked(s: nat, ts: nat) returns (removed: nat)
      requires Sane() && s < layout.shards
      modifies `table, `totalEntries
      ensures Sane() && Swept(layout, old(table), table, ts)
      ensures removed <= sweepMaxEntries && totalEntries == old(totalEntries) - removed
    {
      var scannedBuckets, scannedEntries := 0, 0;
      removed := 0;
      SweptRefl(layout, table, ts);
      while scannedBuckets < sweepMaxBuckets && removed < sweepMaxEntries
        invariant Swept(layout, old(table), table, ts) && Size(table) == old(Size(table)) - removed
        invariant removed <= sweepMaxEntries && totalEntries == old(totalEntries)
        decreases sweepMaxBuckets - scannedBuckets
      {
        var bi := table[s].cursor;
        SweptMeta(layout, old(table), table, ts, s, (bi + 1) % layout.buckets, table[s].lastHotSweepNs);
        SizeUpdate(table, s, table[s].(cursor := (bi + 1) % layout.buckets, lastHotSweepNs := table[s].lastHotSweepNs));
        table := table[s := table[s].(cursor := (bi + 1) % layout.buckets, lastHotSweepNs := table[s].lastHotSweepNs)];
        scannedBuckets := scannedBuckets + 1;
        var c;
        c, removed, scannedEntries := SweepChain(table[s].buckets[bi], ts, removed, scannedEntries);
        SweptChain(layout, old(table), table, ts, s, bi, c);
        SetChainSize(table, s, bi, c);
        table := SetChain(table, s, bi, c);
      }
      totalEntries := totalEntries - removed;
    }

    /** The opportunistic sweep before a lookup, at most once per interval and shard. */
    method MaybeHotSweep(s: nat, ts: nat)
      requires Sane() && s < layout.shards
      modifies `table, `totalEntries
      ensures Sane() && Swept(layout, old(table), table, ts) && totalEntries <= old(totalEntries)
      ensures old(table[s].lastHotSweepNs) < ts < old(table[s].lastHotSweepNs) + sweepMinIntervalNs ==>
        table == old(table)
      ensures sweepMinIntervalNs == 0 ==> table == old(table)
    {
      var last := table[s].lastHotSweepNs;
      SweptRefl(layout, table, ts);
      if sweepMinIntervalNs == 0 || (ts > last && ts - last < sweepMinIntervalNs) {
        return;
      }
      SweptMeta(layout, table, table, ts, s, table[s].cursor, ts);
      SizeUpdate(table, s, table[s].(cursor := table[s].cursor, lastHotSweepNs := ts));
      table := table[s := table[s].(cursor := table[s].cursor, lastHotSweepNs := ts)];
      ghost var middle := table;
      var _ := SweepLocked(s, ts);
      SweptTransitive(layout, old(table), middle, table, ts);
    }

    method FindFirst(c: Chain, k: Key) returns (i: nat)
      ensures i == FirstMatch(c, k)
    {
      i := 0;
      while i < |c| && !Matches(c[i], k)
        invariant 0 <= i <= |c| && forall j :: 0 <= j < i ==> !Matches(c[j], k)
      {
        i := i + 1;
      }
      FirstMatchIs(c, k, i);
    }

    /** Looks a packet up before the verdict; `others` is the number of entries of the other family. With
        timestamps that do not go back the table goes on standing for the map. */
    method InspectForPolicy(p: Packet, others: nat) returns (view: View, ghost mid: seq<Shard>)
      requires Sane() && Timely(p)
      modifies this
      ensures Sane() && totalEntries <= old(totalEntries)
      ensures Inspected(layout, family, old(table), mid, table, p, others + totalEntries >= maxEntries, view)
      ensures old(Valid() && now <= p.tsNs) ==> Valid() && now == p.tsNs
      ensures old(Valid() && now <= p.tsNs) ==>
        (flows, view) == Inspect(family, old(flows), p, others + totalEntries >= maxEntries)
    {
      mid := table;
      ghost var sound := Valid() && now <= p.tsNs;
      if sound {
        TimePasses(layout, table, flows, now, p.tsNs);
        now := p.tsNs;
      }
      if p.isFragment || MakeKey(family, p).None? {
        return InvalidView, mid;
      }
      MaybeHotSweep(HomeShard(layout, MakeKey(family, p).value), p.tsNs);
      if sound {
        PruneKeepsMap(layout, mid, table, flows, now);
      }
      mid := table;
      view := LookUp(MakeKey(family, p).value, p, others, sound);
    }

    /** The part of an inspection behind the sweep. */
    method LookUp(k: Key, p: Packet, others: nat, ghost sound: bool) returns (view: View)
      requires Sane() && Timely(p) && !p.isFragment && MakeKey(family, p) == Some(k)
      requires sound ==> Valid() && now == p.tsNs
      modifies this`table, this`totalEntries, this`flows
      ensures Sane() && totalEntries <= old(totalEntries)
      ensures LookedUp(layout, family, old(table), table, k, p, others + totalEntries >= maxEntries, view)
      ensures sound ==>
        Valid() && (flows, view) == Inspect(family, old(flows), p, others + totalEntries >= maxEntries)
    {
      assert sound ==> LookupTable(layout, table, k, now) == Find(flows, k, now);
      var s, b := HomeShard(layout, k), HomeBucket(layout, k);
      var c := table[s].buckets[b];
      var i := FindFirst(c, k);
      if i < |c| && !Expired(c[i], p.tsNs) {
        var isReply := Reverse(c[i].key) == k;
        var t := Touch(family, c[i], p, isReply);
        Replace(k, s, b, i, t.0, sound);
        return ReportedView(t.1, isReply);
      }
      view := Preview(s, p, others, sound);
    }

    /** A packet without a live entry: make room and say whether it may open a flow. */
    method Preview(s: nat, p: Packet, others: nat, ghost sound: bool) returns (view: View)
      requires Sane() && s < layout.shards && (sound ==> Valid() && now == p.tsNs)
      modifies this`table, this`totalEntries
      ensures Sane() && Swept(layout, old(table), table, p.tsNs) && totalEntries <= old(totalEntries)
      ensures view == MissView(family, p, others + totalEntries >= maxEntries) && (sound ==> Valid())
    {
      var _ := SweepLocked(s, p.tsNs);
      if sound {
        PruneKeepsMap(layout, old(table), table, flows, now);
      }
      if others + totalEntries >= maxEntries {
        return InvalidView;
      }
      if !ValidNew(family, p) {
        return InvalidView;
      }
      return View(NEW, ORIG, true);
    }

    /** Updates the live entry of a flow in its place. */
    method Replace(k: Key, s: nat, b: nat, i: nat, e: Entry, ghost sound: bool)
      requires Sane() && s == HomeShard(layout, k) && b == HomeBucket(layout, k)
      requires i < |table[s].buckets[b]| && i == FirstMatch(table[s].buckets[b], k)
      requires e.key == table[s].buckets[b][i].key
      requires sound ==> Valid() && LookupTable(layout, table, k, now).Some?
      modifies this`table, this`flows
      ensures Sane() && table == SetChain(old(table), s, b, old(table)[s].buckets[b][i := e])
      ensures sound ==> Valid() && flows == old(flows)[Pair(k) := e]
    {
      ReplacePlaced(layout, table, s, b, i, e);
      SetChainSize(table, s, b, table[s].buckets[b][i := e]);
      if sound {
        HitKeepsMap(layout, table, flows, now, k, e);
        flows := flows[Pair(k) := e];
      }
      table := SetChain(table, s, b, table[s].buckets[b][i := e]);
    }

    /** Creates the entry of a previewed flow once its packet is accepted; `n` is the number of entries
        found when room is asked for. The cap is kept. */
    method CommitAccepted(p: Packet, view: View, others: nat) returns (ghost n: nat, ghost mid: seq<Shard>)
      requires Sane() && Timely(p)
      modifies this
      ensures Sane() && n <= old(totalEntries) && (totalEntries == n || totalEntries == n + 1)
      ensures others + old(totalEntries) <= maxEntries ==> others + totalEntries <= maxEntries
      ensures Committed(layout, family, old(table), mid, table, p, others + n >= maxEntries, view)
      ensures old(Valid() && now <= p.tsNs) ==> Valid() && now == p.tsNs
      ensures old(Valid() && now <= p.tsNs) ==>
        flows == Commit(family, old(flows), p, view, others + n >= maxEntries)
    {
      n, mid := totalEntries, table;
      ghost var sound := Valid() && now <= p.tsNs;
      if sound {
        TimePasses(layout, table, flows, now, p.tsNs);
        now := p.tsNs;
      }
      if !Creates(view) || MakeKey(family, p).None? {
        return;
      }
      var k := MakeKey(family, p).value;
      var s, b := HomeShard(layout, k), HomeBucket(layout, k);
      var i := FindFirst(table[s].buckets[b], k);
      assert sound ==> LookupTable(layout, table, k, now) == Find(flows, k, now);
      if i < |table[s].buckets[b]| && !Expired(table[s].buckets[b][i], p.tsNs) {
        return;
      }
      var _ := SweepLocked(s, p.tsNs);
      if sound {
        PruneKeepsMap(layout, mid, table, flows, now);
      }
      n, mid := totalEntries, table;
      if !ValidNew(family, p) || others + totalEntries >= maxEntries {
        return;
      }
      Insert(k, s, b, FreshEntry(family, k, p), sound);
    }

    /** Puts a new entry in front of its chain. */
    method Insert(k: Key, s: nat, b: nat, e: Entry, ghost sound: bool)
      requires Sane() && e.key == k && s == HomeShard(layout, k) && b == HomeBucket(layout, k)
      requires sound ==> Valid() && Find(flows, k, now).None?
      modifies this`table, this`totalEntries, this`flows
      ensures Sane() && totalEntries == old(totalEntries) + 1
      ensures table == SetChain(old(table), s, b, [e] + old(table)[s].buckets[b])
      ensures sound ==> Valid() && flows == old(flows)[Pair(k) := e]
    {
      PushPlaced(layout, table, s, b, e);
      SetChainSize(table, s, b, [e] + table[s].buckets[b]);
      if sound {
        assert LookupTable(layout, table, k, now) == Find(flows, k, now);
        MissKeepsMap(layout, table, flows, now, e);
        flows := flows[Pair(k) := e];
      }
      table := SetChain(table, s, b, [e] + table[s].buckets[b]);
      totalEntries := totalEntries + 1;
    }
  }

  lemma ReplacePlaced(l: Layout, t: seq<Shard>, s: nat, b: nat, i: nat, e: Entry)
    requires Structured(l, t) && s < l.shards && b < l.buckets && i < |t[s].buckets[b]|
    requires e.key == t[s].buckets[b][i].key
    ensures Structured(l, SetChain(t, s, b, t[s].buckets[b][i := e]))
  {
    assert Placed(l, t[s].buckets[b], s, b);
    SetChainStructured(l, t, s, b, t[s].buckets[b][i := e]);
  }

  lemma PushPlaced(l: Layout, t: seq<Shard>, s: nat, b: nat, e: Entry)
    requires Structured(l, t) && s == HomeShard(l, e.key) && b == HomeBucket(l, e.key)
    ensures Structured(l, SetChain(t, s, b, [e] + t[s].buckets[b]))
  {
    assert Placed(l, t[s].buckets[b], s, b);
    SetChainStructured(l, t, s, b, [e] + t[s].buckets[b]);
  }

  /** Both directions of a flow live in the same bucket. */
  lemma PairHasOneHome(l: Layout, k: Key)
    requires LayoutOk(l)
    ensures forall q :: Pair(q) == Pair(k) ==>
      HomeShard(l, q) == HomeShard(l, k) && HomeBucket(l, q) == HomeBucket(l, k)
  {
    forall q | Pair(q) == Pair(k) ensures l.hash(q) == l.hash(k) {
      assert q in Pair(k);
      assert l.hash(Reverse(k)) == l.hash(k);
    }
  }
}
