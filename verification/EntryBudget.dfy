/** The cap on tracked entries.  Both address families share one counter that inserters bump
    before they know whether there is room, while sweeps and evictions decrement it late;
    every counter is changed in its own atomic step. */
module EntryBudget {
  datatype Family = V4 | V6

  /** Why an entry leaves: only expiry has a counter of its own in the tracker. */
  datatype Cause = Expired | Evicted

  /** Program points of an insertion and of a retirement. */
  datatype Pc = Idle
              | Reserving(f: Family, shard: nat, cap: nat)
              | Reserved(f: Family, shard: nat) | Refused(f: Family) | Sized(f: Family) | Totalled(f: Family)
              | Retiring(f: Family, shard: nat, why: Cause)
              | Unsized(f: Family, why: Cause) | Untotalled(f: Family, why: Cause) | Unshared(f: Family, why: Cause)

  /** Counters of one family; `evictions` is history, the others exist in the tracker. */
  datatype Counters = Counters(sizes: seq<nat>, totalEntries: int, creates: nat, expiredRetires: nat, evictions: nat)

  datatype State = State(shared: int, v4: Counters, v6: Counters, threads: seq<Pc>)

  /** Smaller of two caps, where zero means no cap. */
  function ClampCap(a: nat, b: nat): (r: nat)
    ensures a != 0 ==> 0 < r <= a
    ensures b != 0 ==> 0 < r <= b
    ensures r == a || r == b
  {
    if a == 0 then b else if b == 0 then a else if a < b then a else b
  }

  function Of(s: State, f: Family): Counters { if f.V4? then s.v4 else s.v6 }

  function Put(s: State, f: Family, c: Counters): State { if f.V4? then s.(v4 := c) else s.(v6 := c) }

  function Go(s: State, t: nat, pc: Pc): State requires t < |s.threads| { s.(threads := s.threads[t := pc]) }

  /** A thread starts an insertion, starts a retirement, or takes its next step. */
  datatype Action = Insert(f: Family, shard: nat, maxFlowEntries: nat)
    | Retire(f: Family, shard: nat, why: Cause) | Step

  predicate Enabled(s: State, t: nat, a: Action) {
    && t < |s.threads|
    && match a
       case Insert(f, i, _) => s.threads[t].Idle? && i < |Of(s, f).sizes|
       case Retire(f, i, _) => s.threads[t].Idle? && i < |Of(s, f).sizes|
       case Step =>
         var pc := s.threads[t];
         !pc.Idle?
         && (pc.Reserved? ==> pc.shard < |Of(s, pc.f).sizes|)
         && (pc.Retiring? ==> pc.shard < |Of(s, pc.f).sizes| && Of(s, pc.f).sizes[pc.shard] > 0)
  }

  function Apply(s: State, t: nat, a: Action, maxEntries: nat): State
    requires Enabled(s, t, a)
  {
    match a
    case Insert(f, i, flow) => Go(s, t, Reserving(f, i, ClampCap(maxEntries, flow)))
    case Retire(f, i, why) => Go(s, t, Retiring(f, i, why))
    case Step =>
      var pc := s.threads[t];
      match pc
      case Reserving(f, i, cap) =>
        Go(s.(shared := s.shared + 1), t, if s.shared >= cap then Refused(f) else Reserved(f, i))
      case Refused(f) => Go(s.(shared := s.shared - 1), t, Idle)
      case Reserved(f, i) =>
        var c := Of(s, f);
        Go(Put(s, f, c.(sizes := c.sizes[i := c.sizes[i] + 1])), t, Sized(f))
      case Sized(f) => Go(Put(s, f, Of(s, f).(totalEntries := Of(s, f).totalEntries + 1)), t, Totalled(f))
      case Totalled(f) => Go(Put(s, f, Of(s, f).(creates := Of(s, f).creates + 1)), t, Idle)
      case Retiring(f, i, why) =>
        var c := Of(s, f);
        Go(Put(s, f, c.(sizes := c.sizes[i := c.sizes[i] - 1])), t, Unsized(f, why))
      case Unsized(f, why) => Go(Put(s, f, Of(s, f).(totalEntries := Of(s, f).totalEntries - 1)), t, Untotalled(f, why))
      case Untotalled(f, why) => Go(s.(shared := s.shared - 1), t, Unshared(f, why))
      case Unshared(f, why) =>
        var c := Of(s, f);
        Go(Put(s, f, if why.Expired? then c.(expiredRetires := c.expiredRetires + 1)
                     else c.(evictions := c.evictions + 1)), t, Idle)
      case Idle => s
  }

  // ---------------------------------------------------------------- sums

  /** What a thread in flight owes to, or holds of, the different counters. */
  datatype Debt = SharedHeld | Pledged | Excess | TotalShort(f: Family)
    | TotalOver(f: Family) | CreateShort(f: Family) | RetireShort(f: Family)

  function Owes(d: Debt, pc: Pc): nat {
    var yes := match d
      case SharedHeld => pc.Reserved? || pc.Refused? || pc.Unsized? || pc.Untotalled?
      case Pledged => pc.Reserved?
      case Excess => pc.Refused? || pc.Unsized? || pc.Untotalled?
      case TotalShort(f) => pc == Sized(f)
      case TotalOver(f) => pc.Unsized? && pc.f == f
      case CreateShort(f) => pc == Sized(f) || pc == Totalled(f)
      case RetireShort(f) => (pc.Unsized? || pc.Untotalled? || pc.Unshared?) && pc.f == f;
    if yes then 1 else 0
  }

  function Debts(d: Debt, ts: seq<Pc>): nat {
    if ts == [] then 0 else Owes(d, ts[0]) + Debts(d, ts[1..])
  }

  lemma {:induction false} DebtsUpdate(d: Debt, ts: seq<Pc>, t: nat, pc: Pc)
    requires t < |ts|
    ensures Debts(d, ts[t := pc]) == Debts(d, ts) - Owes(d, ts[t]) + Owes(d, pc)
  {
    if t == 0 {
      assert ts[0 := pc][1..] == ts[1..];
    } else {
      assert ts[t := pc][1..] == ts[1..][t - 1 := pc];
      DebtsUpdate(d, ts[1..], t - 1, pc);
    }
  }

  lemma {:induction false} PledgedIsHeld(ts: seq<Pc>)
    ensures Debts(Pledged, ts) <= Debts(SharedHeld, ts)
  {
    if ts != [] {
      PledgedIsHeld(ts[1..]);
    }
  }

  lemma {:induction false} HeldIsPledgedOrExcess(ts: seq<Pc>)
    ensures Debts(SharedHeld, ts) == Debts(Pledged, ts) + Debts(Excess, ts)
  {
    if ts != [] {
      HeldIsPledgedOrExcess(ts[1..]);
    }
  }

  lemma {:induction false} IdleOwesNothing(d: Debt, ts: seq<Pc>)
    requires forall i :: 0 <= i < |ts| ==> ts[i].Idle?
    ensures Debts(d, ts) == 0
  {
    if ts != [] {
      IdleOwesNothing(d, ts[1..]);
    }
  }

  function Sum(sizes: seq<nat>): nat {
    if sizes == [] then 0 else sizes[0] + Sum(sizes[1..])
  }

  lemma {:induction false} SumUpdate(sizes: seq<nat>, i: nat, v: nat)
    requires i < |sizes|
    ensures Sum(sizes[i := v]) == Sum(sizes) - sizes[i] + v
  {
    if i == 0 {
      assert sizes[0 := v][1..] == sizes[1..];
    } else {
      assert sizes[i := v][1..] == sizes[1..][i - 1 := v];
      SumUpdate(sizes[1..], i - 1, v);
    }
  }

  // ---------------------------------------------------------------- invariant

  ghost predicate FamilyInv(c: Counters, f: Family, ts: seq<Pc>) {
    && c.totalEntries == Sum(c.sizes) - Debts(TotalShort(f), ts) + Debts(TotalOver(f), ts)
    && c.creates - c.expiredRetires - c.evictions ==
       Sum(c.sizes) - Debts(CreateShort(f), ts) + Debts(RetireShort(f), ts)
  }

  ghost predicate SharedInv(s: State, maxEntries: nat) {
    && s.shared == Sum(s.v4.sizes) + Sum(s.v6.sizes) + Debts(SharedHeld, s.threads)
    && Sum(s.v4.sizes) + Sum(s.v6.sizes) + Debts(Pledged, s.threads) <= maxEntries
  }

  ghost predicate CapsInv(s: State, maxEntries: nat) {
    forall t :: 0 <= t < |s.threads| && s.threads[t].Reserving? ==> s.threads[t].cap <= maxEntries
  }

  ghost predicate Inv(s: State, maxEntries: nat) {
    && SharedInv(s, maxEntries) && CapsInv(s, maxEntries)
    && FamilyInv(s.v4, V4, s.threads) && FamilyInv(s.v6, V6, s.threads)
  }

  /** What the next step of a thread does to the number of linked entries of a family. */
  function SizeChange(pc: Pc, a: Action, f: Family): int {
    if a.Step? && pc.Reserved? && pc.f == f then 1 else if a.Step? && pc.Retiring? && pc.f == f then -1 else 0
  }

  lemma SizeStep(s: State, t: nat, a: Action, maxEntries: nat, f: Family)
    requires Enabled(s, t, a)
    ensures Sum(Of(Apply(s, t, a, maxEntries), f).sizes) == Sum(Of(s, f).sizes) + SizeChange(s.threads[t], a, f)
  {
    var pc := s.threads[t];
    if a.Step? && (pc.Reserved? || pc.Retiring?) {
      SumUpdate(Of(s, pc.f).sizes, pc.shard, Of(s, pc.f).sizes[pc.shard] + SizeChange(pc, a, pc.f));
    }
  }

  lemma FamilyStep(s: State, t: nat, a: Action, maxEntries: nat, f: Family)
    requires Enabled(s, t, a) && FamilyInv(Of(s, f), f, s.threads)
    ensures var s' := Apply(s, t, a, maxEntries); FamilyInv(Of(s', f), f, s'.threads)
  {
    SizeStep(s, t, a, maxEntries, f);
    TotalChange(s, t, a, maxEntries, f);
    CreatesChange(s, t, a, maxEntries, f);
    RetiresChange(s, t, a, maxEntries, f);
    DebtStep(s, t, a, maxEntries, TotalShort(f));
    DebtStep(s, t, a, maxEntries, TotalOver(f));
    DebtStep(s, t, a, maxEntries, CreateShort(f));
    DebtStep(s, t, a, maxEntries, RetireShort(f));
  }

  /** The program point a thread moves to. */
  function NextPc(s: State, t: nat, a: Action, maxEntries: nat): Pc requires Enabled(s, t, a) {
    Apply(s, t, a, maxEntries).threads[t]
  }

  /** Debts change only by what the moving thread owes before and after. */
  function DebtChange(s: State, t: nat, a: Action, maxEntries: nat, d: Debt): int requires Enabled(s, t, a) {
    Owes(d, NextPc(s, t, a, maxEntries)) - Owes(d, s.threads[t])
  }

  lemma DebtStep(s: State, t: nat, a: Action, maxEntries: nat, d: Debt)
    requires Enabled(s, t, a)
    ensures Debts(d, Apply(s, t, a, maxEntries).threads) == Debts(d, s.threads) + DebtChange(s, t, a, maxEntries, d)
  {
    DebtsUpdate(d, s.threads, t, NextPc(s, t, a, maxEntries));
    assert Apply(s, t, a, maxEntries).threads == s.threads[t := NextPc(s, t, a, maxEntries)];
  }

  lemma TotalChange(s: State, t: nat, a: Action, maxEntries: nat, f: Family)
    requires Enabled(s, t, a)
    ensures Of(Apply(s, t, a, maxEntries), f).totalEntries - Of(s, f).totalEntries ==
            SizeChange(s.threads[t], a, f) - DebtChange(s, t, a, maxEntries, TotalShort(f))
            + DebtChange(s, t, a, maxEntries, TotalOver(f))
  {
  }

  lemma CreatesChange(s: State, t: nat, a: Action, maxEntries: nat, f: Family)
    requires Enabled(s, t, a)
    ensures Of(Apply(s, t, a, maxEntries), f).creates - Of(s, f).creates ==
            (if SizeChange(s.threads[t], a, f) > 0 then 1 else 0) - DebtChange(s, t, a, maxEntries, CreateShort(f))
  {
  }

  lemma RetiresChange(s: State, t: nat, a: Action, maxEntries: nat, f: Family)
    requires Enabled(s, t, a)
    ensures var c, c' := Of(s, f), Of(Apply(s, t, a, maxEntries), f);
            (c'.expiredRetires + c'.evictions) - (c.expiredRetires + c.evictions) ==
            (if SizeChange(s.threads[t], a, f) < 0 then 1 else 0) - DebtChange(s, t, a, maxEntries, RetireShort(f))
  {
  }

  lemma SharedChange(s: State, t: nat, a: Action, maxEntries: nat)
    requires Enabled(s, t, a)
    requires s.threads[t].Reserving? ==> s.threads[t].cap <= maxEntries
    ensures var change := SizeChange(s.threads[t], a, V4) + SizeChange(s.threads[t], a, V6);
            var pledge := change + DebtChange(s, t, a, maxEntries, Pledged);
            && Apply(s, t, a, maxEntries).shared - s.shared == change + DebtChange(s, t, a, maxEntries, SharedHeld)
            && (pledge <= 0 || (pledge == 1 && s.shared < maxEntries))
  {
  }

  lemma SharedStep(s: State, t: nat, a: Action, maxEntries: nat)
    requires Enabled(s, t, a) && SharedInv(s, maxEntries)
    requires s.threads[t].Reserving? ==> s.threads[t].cap <= maxEntries
    ensures SharedInv(Apply(s, t, a, maxEntries), maxEntries)
  {
    SizeStep(s, t, a, maxEntries, V4);
    SizeStep(s, t, a, maxEntries, V6);
    SharedChange(s, t, a, maxEntries);
    DebtStep(s, t, a, maxEntries, SharedHeld);
    DebtStep(s, t, a, maxEntries, Pledged);
    PledgedIsHeld(s.threads);
  }

  lemma CapsStep(s: State, t: nat, a: Action, maxEntries: nat)
    requires Enabled(s, t, a) && maxEntries > 0 && CapsInv(s, maxEntries)
    ensures CapsInv(Apply(s, t, a, maxEntries), maxEntries)
  {
  }

  lemma StepKeepsInv(s: State, t: nat, a: Action, maxEntries: nat)
    requires Enabled(s, t, a) && maxEntries > 0 && Inv(s, maxEntries)
    ensures Inv(Apply(s, t, a, maxEntries), maxEntries)
  {
    FamilyStep(s, t, a, maxEntries, V4);
    FamilyStep(s, t, a, maxEntries, V6);
    SharedStep(s, t, a, maxEntries);
    CapsStep(s, t, a, maxEntries);
  }

  ghost predicate Init(s: State) {
    && s.shared == 0 && s.v4 == s.v6 && s.v4.totalEntries == 0
    && s.v4.creates == 0 && s.v4.expiredRetires == 0 && s.v4.evictions == 0
    && Sum(s.v4.sizes) == 0
    && forall t :: 0 <= t < |s.threads| ==> s.threads[t].Idle?
  }

  ghost predicate IsRun(run: seq<State>, who: seq<nat>, what: seq<Action>, maxEntries: nat) {
    && maxEntries > 0 && |run| == |who| + 1 == |what| + 1 && Init(run[0])
    && forall k :: 0 <= k < |who| ==>
       Enabled(run[k], who[k], what[k]) && run[k + 1] == Apply(run[k], who[k], what[k], maxEntries)
  }

  lemma {:induction false} RunKeepsInv(run: seq<State>, who: seq<nat>, what: seq<Action>, maxEntries: nat, k: nat)
    requires IsRun(run, who, what, maxEntries) && k < |run|
    ensures Inv(run[k], maxEntries)
  {
    if k == 0 {
      forall d: Debt ensures Debts(d, run[0].threads) == 0 {
        IdleOwesNothing(d, run[0].threads);
      }
    } else {
      RunKeepsInv(run, who, what, maxEntries, k - 1);
      StepKeepsInv(run[k - 1], who[k - 1], what[k - 1], maxEntries);
    }
  }

  /** In every interleaving the entries of both families together stay within the cap, although
      the shared counter may exceed it for a while. */
  lemma NeverAboveCap(run: seq<State>, who: seq<nat>, what: seq<Action>, maxEntries: nat, k: nat)
    requires IsRun(run, who, what, maxEntries) && k < |run|
    ensures Sum(run[k].v4.sizes) + Sum(run[k].v6.sizes) <= maxEntries
    ensures run[k].shared >= Sum(run[k].v4.sizes) + Sum(run[k].v6.sizes)
  {
    RunKeepsInv(run, who, what, maxEntries, k);
  }

  /** With nothing in flight every counter agrees: each entry ever created is still there, has
      expired or was evicted, and the shared counter is exact. */
  lemma CountersAgreeAtRest(run: seq<State>, who: seq<nat>, what: seq<Action>, maxEntries: nat, k: nat, f: Family)
    requires IsRun(run, who, what, maxEntries) && k < |run|
    requires forall t :: 0 <= t < |run[k].threads| ==> run[k].threads[t].Idle?
    ensures var c := Of(run[k], f);
            c.totalEntries == Sum(c.sizes) && c.creates == c.totalEntries + c.expiredRetires + c.evictions
    ensures run[k].shared == run[k].v4.totalEntries + run[k].v6.totalEntries
  {
    RunKeepsInv(run, who, what, maxEntries, k);
    forall d: Debt ensures Debts(d, run[k].threads) == 0 {
      IdleOwesNothing(d, run[k].threads);
    }
    assert FamilyInv(Of(run[k], f), f, run[k].threads);
  }

  /** By how much the shared counter can exceed the cap: never by more than the inserters that are
      about to be turned away and the retirements that have not told the counter yet; and it is above
      the cap exactly when entries and what is held in flight are. */
  lemma OvershootIsInFlight(run: seq<State>, who: seq<nat>, what: seq<Action>, maxEntries: nat, k: nat)
    requires IsRun(run, who, what, maxEntries) && k < |run|
    ensures var s := run[k]; var linked := Sum(s.v4.sizes) + Sum(s.v6.sizes);
      && s.shared <= maxEntries + Debts(Excess, s.threads)
      && (s.shared > maxEntries <==> linked + Debts(Pledged, s.threads) + Debts(Excess, s.threads) > maxEntries)
  {
    RunKeepsInv(run, who, what, maxEntries, k);
    HeldIsPledgedOrExcess(run[k].threads);
  }

  /** The counter does overshoot: with a cap of one and two inserters it reaches two. */
  lemma SharedCounterOvershoots()
    ensures exists run: seq<State>, who: seq<nat>, what: seq<Action> ::
              IsRun(run, who, what, 1) && run[|run| - 1].shared > 1
  {
    var c := Counters([0], 0, 0, 0, 0);
    var s0 := State(0, c, c, [Idle, Idle]);
    var ins := Insert(V4, 0, 0);
    var s1 := Apply(s0, 0, ins, 1);
    var s2 := Apply(s1, 1, ins, 1);
    var s3 := Apply(s2, 0, Step, 1);
    var s4 := Apply(s3, 1, Step, 1);
    assert Sum(c.sizes) == 0;
    assert IsRun([s0, s1, s2, s3, s4], [0, 1, 0, 1], [ins, ins, Step, Step], 1);
    assert [s0, s1, s2, s3, s4][4].shared == 2;
  }
}
