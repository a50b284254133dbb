/** Bucket chains, shard locks and epoch-based reclamation of the connection tracker.

    Any number of threads run interleaved atomic steps: entering and leaving the epoch
    guard, walking a bucket without a lock, unlinking and inserting under a shard lock,
    and advancing the epoch to free retired entries.  Entries of a bucket are named by
    their birth number, 0 standing for the null pointer. */
module EpochReclamation {
  import opened Wrappers

  // ---------------------------------------------------------------- buckets

  /** Life of an entry: it is linked, then unlinked, put on a retired list, taken off
      that list by a reclaimer, and freed. */
  datatype Status = Linked | Unlinked | Retired(epoch: nat) | Condemned | Freed

  datatype Bucket = Bucket(head: nat, next: map<nat, nat>, status: map<nat, Status>)

  /** A next pointer is null or leads to an entry born earlier. */
  ghost predicate Ordered(next: map<nat, nat>) {
    forall c {:trigger next[c]} :: c in next ==> next[c] < c && (next[c] == 0 || next[c] in next)
  }

  ghost predicate Points(next: map<nat, nat>, c: nat) {
    c == 0 || c in next
  }

  /** The entries met by following next pointers from `c`, `c` included. */
  ghost function Chain(next: map<nat, nat>, c: nat): (r: set<nat>)
    requires Ordered(next) && Points(next, c)
    ensures forall x :: x in r ==> 0 < x <= c && x in next
  {
    if c == 0 then {} else {c} + Chain(next, next[c])
  }

  lemma {:induction false} InsertKeepsChain(next: map<nat, nat>, e: nat, h: nat, c: nat)
    requires Ordered(next) && Points(next, h) && Points(next, c)
    requires e > 0 && forall k :: k in next ==> k < e
    ensures Ordered(next[e := h]) && Chain(next[e := h], c) == Chain(next, c)
  {
    if c != 0 {
      InsertKeepsChain(next, e, h, next[c]);
    }
  }

  /** Bypassing `d` (the successor of `p`) loses `d` and nothing else, seen from anywhere. */
  lemma {:induction false} UnlinkShrinksChain(next: map<nat, nat>, p: nat, d: nat, c: nat)
    requires Ordered(next) && p in next && next[p] == d && d != 0 && Points(next, c)
    ensures Ordered(next[p := next[d]])
    ensures Chain(next[p := next[d]], c) <= Chain(next, c) <= Chain(next[p := next[d]], c) + {d}
    ensures p in Chain(next, c) ==> d !in Chain(next[p := next[d]], c)
  {
    var next' := next[p := next[d]];
    if c == p {
      assert Chain(next, d) == {d} + Chain(next, next[d]);
      UnlinkShrinksChain(next, p, d, next[d]);
    } else if c != 0 {
      UnlinkShrinksChain(next, p, d, next[c]);
    }
  }

  /** `lh` is the head a writer in the middle of its work is about to publish; outside of
      such work it is the published head.  The fourth clause is what a reader relies on:
      from any entry, linked or not, every older linked entry can still be reached. */
  ghost predicate BucketInv(b: Bucket, lh: nat) {
    && Ordered(b.next) && b.status.Keys == b.next.Keys && 0 !in b.next
    && Points(b.next, b.head) && Points(b.next, lh) && lh <= b.head
    && (forall x :: x in b.next ==> (b.status[x].Linked? <==> x in Chain(b.next, lh)))
    && (forall c, x {:trigger x in Chain(b.next, c)} ::
          c in b.next && x in b.next && b.status[x].Linked? && x < c ==> x in Chain(b.next, c))
    && (forall x :: x in Chain(b.next, b.head) ==> !b.status[x].Condemned? && !b.status[x].Freed?)
  }

  /** What every change of a bucket leaves true for a reader in the middle of a walk. */
  ghost predicate Evolves(b: Bucket, b': Bucket) {
    && Ordered(b.next) && Ordered(b'.next) && b.next.Keys <= b'.next.Keys
    && b.status.Keys == b.next.Keys && b'.status.Keys == b'.next.Keys
    && (forall x :: x in b.status && b'.status[x].Linked? ==> b.status[x].Linked?)
    && (forall x :: x in b.status && b'.status[x].Freed? ==> b.status[x].Freed?)
    && (forall c {:trigger Chain(b'.next, c)} :: c in b.next ==> Chain(b'.next, c) <= Chain(b.next, c))
    && (forall c, x {:trigger x in Chain(b'.next, c)} ::
          c in b.next && x in Chain(b.next, c) && b'.status[x].Linked? ==> x in Chain(b'.next, c))
  }

  // ---------------------------------------------------------------- state

  /** A writer's pass over one bucket: local head, the two cursors, and an entry that has
      been unlinked and is not yet on a retired list. */
  datatype Work = NoWork | Work(bucket: nat, head: nat, prev: nat, cur: nat, pending: nat)

  datatype Lock = Open | Held(owner: nat, epoch: nat, work: Work)

  datatype Shard = Shard(lock: Lock, buckets: seq<Bucket>)

  /** Program points of `Epoch::enter` and `Epoch::exit`. */
  datatype Guard = Outside | Spinning | Ready | Observed(e: nat) | Stored(e: nat)
                 | Rechecked(e: nat) | Inside(e: nat) | Retreating(e: nat)

  /** A lock-free traversal.  `first`, `start` and `visited` record its history: the head it
      loaded, the entries linked at that moment and the entries it has stood on. */
  datatype Walk = NoWalk | Walk(shard: nat, bucket: nat, cur: nat, first: nat, start: set<nat>, visited: set<nat>)

  datatype Thread = Thread(slot: Option<nat>, guard: Guard, walk: Walk)

  /** Progress of the one thread that owns the reclaiming flag; the flag is clear exactly
      in `Idle`. */
  datatype Advance = Idle
                   | Claimed(owner: nat)
                   | Scanning(owner: nat, cur: nat, n: nat, i: nat)
                   | Taking(owner: nat, list: nat, shard: nat)
                   | Freeing(owner: nat, list: nat, shard: nat)

  datatype State = State(global: nat, slots: seq<Option<nat>>, advance: Advance,
                         threads: seq<Thread>, shards: seq<Shard>)

  const MAX_SLOTS := 1024

  function SlotValue(g: Guard): Option<nat> {
    match g
    case Stored(e) => Some(e)
    case Rechecked(e) => Some(e)
    case Inside(e) => Some(e)
    case Retreating(e) => Some(e)
    case _ => None
  }

  ghost predicate Init(s: State) {
    && s.global == 0 && s.slots == [] && s.advance == Idle
    && (forall t :: 0 <= t < |s.threads| ==> s.threads[t] == Thread(None, Outside, NoWalk))
    && (forall i :: 0 <= i < |s.shards| ==> s.shards[i].lock == Open)
    && (forall i, j :: 0 <= i < |s.shards| && 0 <= j < |s.shards[i].buckets| ==>
          s.shards[i].buckets[j] == Bucket(0, map[], map[]))
  }

  // ---------------------------------------------------------------- steps

  datatype GuardAction = AllocateSlot | StartEnter | SpinPass | ReadGlobal | StoreSlot
                       | RecheckFlag | RecheckGlobal | Retreat | Exit

  datatype WalkAction = StartWalk(s: nat, b: nat) | StepWalk | EndWalk

  datatype ShardAction = Acquire(t: nat) | ReadEpoch | Insert(b: nat, e: nat) | Begin(b: nat)
                       | Skip | Unlink | Retire | Publish | Finish | Release

  datatype ReclaimAction = Claim(t: nat) | Count | ScanNext | Refuse | AdvanceEpoch
                         | TakeRetired | FreeOne(b: nat, x: nat) | NextShard | EndReclaim

  datatype Action = OfGuard(t: nat, g: GuardAction) | OfWalk(t: nat, w: WalkAction)
                  | OfShard(i: nat, a: ShardAction) | OfReclaim(r: ReclaimAction)

  ghost predicate HasSlot(s: State, t: nat) {
    t < |s.threads| && s.threads[t].slot.Some? && s.threads[t].slot.value < |s.slots|
  }

  ghost predicate GuardEnabled(s: State, t: nat, g: GuardAction) {
    if g.AllocateSlot? then t < |s.threads| && s.threads[t].slot.None? && |s.slots| < MAX_SLOTS
    else
      && HasSlot(s, t)
      && match g
         case StartEnter => s.threads[t].guard.Outside?
         case SpinPass => s.threads[t].guard.Spinning? && s.advance.Idle?
         case ReadGlobal => s.threads[t].guard.Ready?
         case StoreSlot => s.threads[t].guard.Observed?
         case RecheckFlag => s.threads[t].guard.Stored?
         case RecheckGlobal => s.threads[t].guard.Rechecked?
         case Retreat => s.threads[t].guard.Retreating?
         case Exit => s.threads[t].guard.Inside? && s.threads[t].walk.NoWalk?
  }

  /** Where the guard goes next; the two rechecks send the reader back to spinning unless
      the reclaiming flag is clear and the epoch is the one it announced. */
  ghost function GuardTarget(s: State, t: nat, g: GuardAction): Guard
    requires GuardEnabled(s, t, g) && !g.AllocateSlot?
  {
    match g
    case StartEnter => Spinning
    case SpinPass => Ready
    case ReadGlobal => Observed(s.global)
    case StoreSlot => Stored(s.threads[t].guard.e)
    case RecheckFlag =>
      if s.advance.Idle? then Rechecked(s.threads[t].guard.e) else Retreating(s.threads[t].guard.e)
    case RecheckGlobal =>
      if s.global == s.threads[t].guard.e then Inside(s.threads[t].guard.e) else Retreating(s.threads[t].guard.e)
    case Retreat => Spinning
    case Exit => Outside
  }

  /** The guard moves to `g` and the thread's slot takes the value that goes with it. */
  ghost function SetGuard(s: State, t: nat, g: Guard): State requires HasSlot(s, t) {
    s.(threads := s.threads[t := s.threads[t].(guard := g)], slots := s.slots[s.threads[t].slot.value := SlotValue(g)])
  }

  ghost function Allocate(s: State, t: nat): State requires t < |s.threads| {
    s.(threads := s.threads[t := s.threads[t].(slot := Some(|s.slots|))], slots := s.slots + [None])
  }

  ghost predicate WalkInRange(s: State, w: Walk) {
    w.Walk? && w.shard < |s.shards| && w.bucket < |s.shards[w.shard].buckets|
  }

  ghost function WalkBucket(s: State, w: Walk): Bucket requires WalkInRange(s, w) {
    s.shards[w.shard].buckets[w.bucket]
  }

  ghost predicate WalkEnabled(s: State, t: nat, a: WalkAction) {
    && t < |s.threads| && s.threads[t].guard.Inside?
    && match a
       case StartWalk(i, j) => i < |s.shards| && j < |s.shards[i].buckets|
       case StepWalk =>
         WalkInRange(s, s.threads[t].walk) && s.threads[t].walk.cur in WalkBucket(s, s.threads[t].walk).next
       case EndWalk => s.threads[t].walk.Walk?
  }

  ghost function WalkFrom(i: nat, j: nat, b: Bucket): Walk {
    Walk(i, j, b.head, b.head, set x | x in b.status && b.status[x].Linked?, {})
  }

  ghost function WalkTarget(s: State, t: nat, a: WalkAction): Walk requires WalkEnabled(s, t, a) {
    match a
    case StartWalk(i, j) => WalkFrom(i, j, s.shards[i].buckets[j])
    case StepWalk =>
      var w := s.threads[t].walk;
      w.(cur := WalkBucket(s, w).next[w.cur], visited := w.visited + {w.cur})
    case EndWalk => NoWalk
  }

  ghost function SetWalk(s: State, t: nat, w: Walk): State requires t < |s.threads| {
    s.(threads := s.threads[t := s.threads[t].(walk := w)])
  }

  ghost predicate Working(sh: Shard) {
    sh.lock.Held? && sh.lock.work.Work? && sh.lock.work.bucket < |sh.buckets|
  }

  ghost predicate LockedIdle(sh: Shard) {
    sh.lock.Held? && sh.lock.work.NoWork?
  }

  ghost function WorkBucket(sh: Shard): Bucket requires Working(sh) {
    sh.buckets[sh.lock.work.bucket]
  }

  ghost predicate ShardEnabled(sh: Shard, a: ShardAction) {
    match a
    case Acquire(_) => sh.lock.Open?
    case ReadEpoch => sh.lock.Held?
    case Insert(j, e) => LockedIdle(sh) && j < |sh.buckets| && e > 0 && forall k :: k in sh.buckets[j].next ==> k < e
    case Begin(j) => LockedIdle(sh) && j < |sh.buckets|
    case Skip => Working(sh) && sh.lock.work.pending == 0 && sh.lock.work.cur in WorkBucket(sh).next
    case Unlink => Working(sh) && sh.lock.work.pending == 0 && sh.lock.work.cur in WorkBucket(sh).next
    case Retire => Working(sh) && sh.lock.work.pending in WorkBucket(sh).status
    case Publish => Working(sh)
    case Finish => Working(sh) && sh.lock.work.pending == 0 && WorkBucket(sh).head == sh.lock.work.head
    case Release => LockedIdle(sh)
  }

  ghost function Edit(sh: Shard, b': Bucket, w': Work): Shard requires Working(sh) {
    Shard(sh.lock.(work := w'), sh.buckets[sh.lock.work.bucket := b'])
  }

  ghost function InsertIn(b: Bucket, e: nat): Bucket {
    Bucket(e, b.next[e := b.head], b.status[e := Linked])
  }

  ghost function UnlinkIn(b: Bucket, w: Work): Bucket requires w.Work? && w.cur in b.next {
    b.(next := if w.prev != 0 then b.next[w.prev := b.next[w.cur]] else b.next, status := b.status[w.cur := Unlinked])
  }

  ghost function UnlinkWork(b: Bucket, w: Work): Work requires w.Work? && w.cur in b.next {
    w.(head := if w.prev != 0 then w.head else b.next[w.cur], cur := b.next[w.cur], pending := w.cur)
  }

  ghost function RetireIn(b: Bucket, w: Work, epoch: nat): Bucket requires w.Work? {
    b.(status := b.status[w.pending := Retired(epoch)])
  }

  ghost function ShardApply(sh: Shard, a: ShardAction, global: nat): Shard requires ShardEnabled(sh, a) {
    match a
    case Acquire(t) => sh.(lock := Held(t, global, NoWork))
    case ReadEpoch => sh.(lock := sh.lock.(epoch := global))
    case Insert(j, e) => sh.(buckets := sh.buckets[j := InsertIn(sh.buckets[j], e)])
    case Begin(j) => sh.(lock := sh.lock.(work := Work(j, sh.buckets[j].head, 0, sh.buckets[j].head, 0)))
    case Skip =>
      var w := sh.lock.work;
      Edit(sh, WorkBucket(sh), w.(prev := w.cur, cur := WorkBucket(sh).next[w.cur]))
    case Unlink => Edit(sh, UnlinkIn(WorkBucket(sh), sh.lock.work), UnlinkWork(WorkBucket(sh), sh.lock.work))
    case Retire => Edit(sh, RetireIn(WorkBucket(sh), sh.lock.work, sh.lock.epoch), sh.lock.work.(pending := 0))
    case Publish => Edit(sh, WorkBucket(sh).(head := sh.lock.work.head), sh.lock.work)
    case Finish => sh.(lock := sh.lock.(work := NoWork))
    case Release => sh.(lock := Open)
  }

  ghost function SetShard(s: State, i: nat, sh: Shard): State requires i < |s.shards| {
    s.(shards := s.shards[i := sh])
  }

  ghost predicate NoneCondemned(sh: Shard) {
    forall j, x :: 0 <= j < |sh.buckets| && x in sh.buckets[j].status ==> !sh.buckets[j].status[x].Condemned?
  }

  ghost predicate ReclaimEnabled(s: State, r: ReclaimAction) {
    match r
    case Claim(t) => t < |s.threads| && s.advance.Idle?
    case Count => s.advance.Claimed?
    case ScanNext =>
      s.advance.Scanning? && s.advance.i < s.advance.n && s.advance.i < |s.slots| && s.slots[s.advance.i].None?
    case Refuse =>
      s.advance.Scanning? && s.advance.i < s.advance.n && s.advance.i < |s.slots| && s.slots[s.advance.i].Some?
    case AdvanceEpoch => s.advance.Scanning? && s.advance.i == s.advance.n
    case TakeRetired => s.advance.Taking? && s.advance.shard < |s.shards| && s.shards[s.advance.shard].lock.Open?
    case FreeOne(j, x) =>
      && s.advance.Freeing? && s.advance.shard < |s.shards| && j < |s.shards[s.advance.shard].buckets|
      && x in s.shards[s.advance.shard].buckets[j].status && s.shards[s.advance.shard].buckets[j].status[x].Condemned?
    case NextShard => s.advance.Freeing? && s.advance.shard < |s.shards| && NoneCondemned(s.shards[s.advance.shard])
    case EndReclaim => s.advance.Taking? && s.advance.shard >= |s.shards|
  }

  ghost function CondemnIn(b: Bucket, list: nat): Bucket {
    b.(status := map x | x in b.status :: if b.status[x] == Retired(list) then Condemned else b.status[x])
  }

  ghost function CondemnShard(sh: Shard, list: nat): Shard {
    sh.(buckets := seq(|sh.buckets|, j requires 0 <= j < |sh.buckets| => CondemnIn(sh.buckets[j], list)))
  }

  ghost function FreeInShard(sh: Shard, k: nat, x: nat): Shard requires k < |sh.buckets| {
    sh.(buckets := sh.buckets[k := sh.buckets[k].(status := sh.buckets[k].status[x := Freed])])
  }

  ghost function ReclaimApply(s: State, r: ReclaimAction): State requires ReclaimEnabled(s, r) {
    match r
    case Claim(t) => s.(advance := Claimed(t))
    case Count => s.(advance := Scanning(s.advance.owner, s.global, |s.slots|, 0))
    case ScanNext => s.(advance := s.advance.(i := s.advance.i + 1))
    case Refuse => s.(advance := Idle)
    case AdvanceEpoch =>
      s.(global := (s.advance.cur + 1) % 3, advance := Taking(s.advance.owner, (s.advance.cur + 2) % 3, 0))
    case TakeRetired =>
      SetShard(s, s.advance.shard, CondemnShard(s.shards[s.advance.shard], s.advance.list))
      .(advance := Freeing(s.advance.owner, s.advance.list, s.advance.shard))
    case FreeOne(j, x) => SetShard(s, s.advance.shard, FreeInShard(s.shards[s.advance.shard], j, x))
    case NextShard => s.(advance := Taking(s.advance.owner, s.advance.list, s.advance.shard + 1))
    case EndReclaim => s.(advance := Idle)
  }

  ghost predicate Enabled(s: State, a: Action) {
    match a
    case OfGuard(t, g) => GuardEnabled(s, t, g)
    case OfWalk(t, w) => WalkEnabled(s, t, w)
    case OfShard(i, b) => i < |s.shards| && ShardEnabled(s.shards[i], b)
    case OfReclaim(r) => ReclaimEnabled(s, r)
  }

  ghost function Apply(s: State, a: Action): State requires Enabled(s, a) {
    match a
    case OfGuard(t, g) => if g.AllocateSlot? then Allocate(s, t) else SetGuard(s, t, GuardTarget(s, t, g))
    case OfWalk(t, w) => SetWalk(s, t, WalkTarget(s, t, w))
    case OfShard(i, b) => SetShard(s, i, ShardApply(s.shards[i], b, s.global))
    case OfReclaim(r) => ReclaimApply(s, r)
  }

  // ---------------------------------------------------------------- invariant

  ghost function LogicalHead(sh: Shard, j: nat): nat requires j < |sh.buckets| {
    if sh.lock.Held? && sh.lock.work.Work? && sh.lock.work.bucket == j then sh.lock.work.head else sh.buckets[j].head
  }

  ghost predicate WorkInv(b: Bucket, w: Work) requires w.Work? {
    && (w.cur != 0 ==> w.cur in b.status && b.status[w.cur].Linked?)
    && (w.prev == 0 ==> w.cur == w.head)
    && (w.prev != 0 ==> w.prev in b.status && w.prev in b.next && b.status[w.prev].Linked? && b.next[w.prev] == w.cur)
    && (w.pending != 0 ==> w.pending in b.status && b.status[w.pending].Unlinked?)
  }

  ghost predicate ShardInv(sh: Shard) {
    && (forall j :: 0 <= j < |sh.buckets| ==> BucketInv(sh.buckets[j], LogicalHead(sh, j)))
    && (sh.lock.Held? && sh.lock.work.Work? ==>
          sh.lock.work.bucket < |sh.buckets| && WorkInv(sh.buckets[sh.lock.work.bucket], sh.lock.work))
    && (forall j, x :: 0 <= j < |sh.buckets| && x in sh.buckets[j].status && sh.buckets[j].status[x].Unlinked? ==>
          sh.lock.Held? && sh.lock.work.Work? && sh.lock.work.bucket == j && sh.lock.work.pending == x)
  }

  ghost predicate WalkOk(b: Bucket, w: Walk) requires w.Walk? {
    && Ordered(b.next) && b.status.Keys == b.next.Keys && Points(b.next, w.cur)
    && w.start <= b.next.Keys
    && (forall x :: x in Chain(b.next, w.cur) ==> !b.status[x].Freed?)
    && (forall x :: x in w.start && b.status[x].Linked? ==> x in w.visited || x in Chain(b.next, w.cur))
    && |w.visited| + w.cur <= w.first
  }

  ghost predicate WalksInv(s: State) {
    forall t :: 0 <= t < |s.threads| && s.threads[t].walk.Walk? ==>
      s.threads[t].guard.Inside? && WalkInRange(s, s.threads[t].walk)
      && WalkOk(WalkBucket(s, s.threads[t].walk), s.threads[t].walk)
  }

  ghost predicate SlotsInv(s: State) {
    && (forall t :: 0 <= t < |s.threads| && s.threads[t].slot.None? ==> s.threads[t].guard.Outside?)
    && (forall t :: 0 <= t < |s.threads| && s.threads[t].slot.Some? ==>
          HasSlot(s, t) && s.slots[s.threads[t].slot.value] == SlotValue(s.threads[t].guard))
    && (forall t, u :: 0 <= t < u < |s.threads| && s.threads[t].slot.Some? && s.threads[u].slot.Some? ==>
          s.threads[t].slot.value != s.threads[u].slot.value)
  }

  ghost predicate Protected(th: Thread) { th.guard.Rechecked? || th.guard.Inside? }

  /** A scan that is still running has not passed the slot of any protected reader; once
      it has finished there is no protected reader. */
  ghost predicate PhaseInv(s: State) {
    && (s.advance.Scanning? ==> s.advance.i <= s.advance.n <= |s.slots|)
    && (forall t :: 0 <= t < |s.threads| && Protected(s.threads[t]) ==>
          && HasSlot(s, t) && !s.advance.Taking? && !s.advance.Freeing?
          && (s.advance.Scanning? ==> s.advance.i <= s.threads[t].slot.value < s.advance.n))
  }

  ghost predicate Inv(s: State) {
    && SlotsInv(s) && PhaseInv(s) && WalksInv(s)
    && (forall i :: 0 <= i < |s.shards| ==> ShardInv(s.shards[i]))
  }

  // ---------------------------------------------------------------- one bucket, one step

  lemma InsertChains(b: Bucket, e: nat)
    requires BucketInv(b, b.head) && e > 0 && forall k :: k in b.next ==> k < e
    ensures var next := InsertIn(b, e).next;
            && Ordered(next) && Chain(next, e) == {e} + Chain(b.next, b.head)
            && (forall c | Points(b.next, c) :: Chain(next, c) == Chain(b.next, c))
  {
    var b' := InsertIn(b, e);
    forall c | Points(b.next, c) ensures Ordered(b'.next) && Chain(b'.next, c) == Chain(b.next, c) {
      InsertKeepsChain(b.next, e, b.head, c);
    }
  }

  lemma InsertEvolves(b: Bucket, e: nat)
    requires BucketInv(b, b.head) && e > 0 && forall k :: k in b.next ==> k < e
    ensures Evolves(b, InsertIn(b, e))
  {
    InsertChains(b, e);
  }

  lemma InsertBucket(b: Bucket, e: nat)
    requires BucketInv(b, b.head) && e > 0 && forall k :: k in b.next ==> k < e
    ensures BucketInv(InsertIn(b, e), e) && Evolves(b, InsertIn(b, e))
  {
    InsertChains(b, e);
    InsertEvolves(b, e);
    var b' := InsertIn(b, e);
    forall c, x | c in b'.next && x in b'.next && b'.status[x].Linked? && x < c ensures x in Chain(b'.next, c) {
      if c == e {
        assert x in Chain(b.next, b.head);
      }
    }
  }

  lemma UnlinkFirst(b: Bucket, w: Work)
    requires w.Work? && BucketInv(b, w.head) && WorkInv(b, w) && w.cur in b.next && w.pending == 0 && w.prev == 0
    ensures BucketInv(UnlinkIn(b, w), b.next[w.cur]) && Evolves(b, UnlinkIn(b, w))
  {
    assert Chain(b.next, w.cur) == {w.cur} + Chain(b.next, b.next[w.cur]);
  }

  lemma UnlinkLaterEvolves(b: Bucket, w: Work)
    requires w.Work? && BucketInv(b, w.head) && WorkInv(b, w) && w.cur in b.next && w.pending == 0 && w.prev != 0
    ensures Evolves(b, UnlinkIn(b, w))
  {
    forall c | Points(b.next, c)
      ensures Ordered(UnlinkIn(b, w).next)
      ensures Chain(UnlinkIn(b, w).next, c) <= Chain(b.next, c) <= Chain(UnlinkIn(b, w).next, c) + {w.cur}
    {
      UnlinkShrinksChain(b.next, w.prev, w.cur, c);
    }
  }

  /** Seen from the new head, exactly the entries still linked can be reached. */
  lemma UnlinkLaterLinked(b: Bucket, w: Work)
    requires w.Work? && BucketInv(b, w.head) && WorkInv(b, w) && w.cur in b.next && w.pending == 0 && w.prev != 0
    ensures var b' := UnlinkIn(b, w);
            && Ordered(b'.next) && Points(b'.next, w.head)
            && (forall x :: x in b'.next ==> (b'.status[x].Linked? <==> x in Chain(b'.next, w.head)))
  {
    UnlinkShrinksChain(b.next, w.prev, w.cur, w.head);
  }

  /** From any entry every older one still linked can be reached. */
  lemma UnlinkLaterReaches(b: Bucket, w: Work, c: nat, x: nat)
    requires w.Work? && BucketInv(b, w.head) && WorkInv(b, w) && w.cur in b.next && w.pending == 0 && w.prev != 0
    requires c in b.next && x in b.next && x < c && UnlinkIn(b, w).status[x].Linked?
    ensures Ordered(UnlinkIn(b, w).next) && x in Chain(UnlinkIn(b, w).next, c)
  {
    UnlinkShrinksChain(b.next, w.prev, w.cur, c);
    assert x in Chain(b.next, c) && x != w.cur;
  }

  /** Nothing on the published chain is condemned or freed. */
  lemma UnlinkLaterPublished(b: Bucket, w: Work)
    requires w.Work? && BucketInv(b, w.head) && WorkInv(b, w) && w.cur in b.next && w.pending == 0 && w.prev != 0
    ensures var b' := UnlinkIn(b, w);
            && Ordered(b'.next) && Points(b'.next, b'.head)
            && forall x :: x in Chain(b'.next, b'.head) ==> !b'.status[x].Condemned? && !b'.status[x].Freed?
  {
    UnlinkShrinksChain(b.next, w.prev, w.cur, b.head);
  }

  lemma UnlinkLater(b: Bucket, w: Work)
    requires w.Work? && BucketInv(b, w.head) && WorkInv(b, w) && w.cur in b.next && w.pending == 0 && w.prev != 0
    ensures BucketInv(UnlinkIn(b, w), w.head)
  {
    UnlinkLaterLinked(b, w);
    UnlinkLaterPublished(b, w);
    var b' := UnlinkIn(b, w);
    forall c, x | c in b'.next && x in b'.next && b'.status[x].Linked? && x < c ensures x in Chain(b'.next, c) {
      UnlinkLaterReaches(b, w, c, x);
    }
  }

  lemma UnlinkBucket(b: Bucket, w: Work)
    requires w.Work? && BucketInv(b, w.head) && WorkInv(b, w) && w.cur in b.next && w.pending == 0
    ensures var b', w' := UnlinkIn(b, w), UnlinkWork(b, w);
            BucketInv(b', w'.head) && WorkInv(b', w') && Evolves(b, b')
  {
    ChainWithin(b.next, w.head, w.cur);
    if w.prev == 0 {
      UnlinkFirst(b, w);
    } else {
      UnlinkLater(b, w);
      UnlinkLaterEvolves(b, w);
    }
    var n := b.next[w.cur];
    if n != 0 {
      assert Chain(b.next, w.cur) == {w.cur} + Chain(b.next, n);
      assert n in Chain(b.next, w.head);
    }
  }

  /** Statuses may move on as long as no linked entry changes and nothing on the published
      chain is condemned or freed. */
  lemma RestatusBucket(b: Bucket, lh: nat, status': map<nat, Status>)
    requires BucketInv(b, lh) && status'.Keys == b.status.Keys
    requires forall x :: x in b.status ==> (status'[x].Linked? <==> b.status[x].Linked?)
    requires forall x :: x in Chain(b.next, b.head) ==> !status'[x].Condemned? && !status'[x].Freed?
    ensures BucketInv(b.(status := status'), lh)
    ensures (forall x :: x in b.status && status'[x].Freed? ==> b.status[x].Freed?)
      ==> Evolves(b, b.(status := status'))
  {
  }

  lemma PublishBucket(b: Bucket, w: Work)
    requires w.Work? && BucketInv(b, w.head) && WorkInv(b, w)
    ensures BucketInv(b.(head := w.head), w.head) && WorkInv(b.(head := w.head), w) && Evolves(b, b.(head := w.head))
  {
    forall x | x in Chain(b.next, w.head) ensures b.status[x].Linked? {}
  }

  lemma WalkSurvives(b: Bucket, b': Bucket, w: Walk)
    requires w.Walk? && WalkOk(b, w) && Evolves(b, b')
    ensures WalkOk(b', w)
  {
  }

  // ---------------------------------------------------------------- preservation

  lemma BucketOk(sh: Shard, j: nat)
    requires ShardInv(sh) && j < |sh.buckets|
    ensures BucketInv(sh.buckets[j], LogicalHead(sh, j))
  {
  }

  lemma SetGuardKeeps(s: State, t: nat, g: Guard)
    requires Inv(s) && HasSlot(s, t)
    requires s.threads[t].walk.Walk? ==> g.Inside?
    requires g.Rechecked? ==> s.advance.Idle?
    requires g.Inside? ==> Protected(s.threads[t])
    ensures Inv(SetGuard(s, t, g))
  {
    var s' := SetGuard(s, t, g);
    assert SlotsInv(s');
    assert PhaseInv(s');
  }

  lemma AllocateKeeps(s: State, t: nat)
    requires Inv(s) && t < |s.threads| && s.threads[t].slot.None?
    ensures Inv(Allocate(s, t))
  {
    var s' := Allocate(s, t);
    assert SlotsInv(s');
    assert PhaseInv(s');
  }

  /** Every linked entry can be reached from the published head, even in the middle of a writer's work. */
  lemma LinkedIsReachable(b: Bucket, lh: nat, x: nat)
    requires BucketInv(b, lh) && x in b.status && b.status[x].Linked?
    ensures x in Chain(b.next, b.head)
  {
    assert x in Chain(b.next, lh);
    if x == b.head {
      assert Chain(b.next, b.head) == {b.head} + Chain(b.next, b.next[b.head]);
    }
  }

  lemma WalkFromBucket(b: Bucket, lh: nat, i: nat, j: nat)
    requires BucketInv(b, lh)
    ensures WalkOk(b, WalkFrom(i, j, b))
  {
    var w := WalkFrom(i, j, b);
    forall x | x in w.start ensures x in b.next && x in Chain(b.next, b.head) {
      LinkedIsReachable(b, lh, x);
    }
  }

  lemma WalkFromHead(sh: Shard, i: nat, j: nat)
    requires ShardInv(sh) && j < |sh.buckets|
    ensures WalkOk(sh.buckets[j], WalkFrom(i, j, sh.buckets[j]))
  {
    BucketOk(sh, j);
    WalkFromBucket(sh.buckets[j], LogicalHead(sh, j), i, j);
  }

  lemma WalkAdvances(b: Bucket, w: Walk)
    requires w.Walk? && WalkOk(b, w) && w.cur in b.next && 0 !in b.next
    ensures WalkOk(b, w.(cur := b.next[w.cur], visited := w.visited + {w.cur}))
  {
    assert Chain(b.next, w.cur) == {w.cur} + Chain(b.next, b.next[w.cur]);
    assert |w.visited + {w.cur}| <= |w.visited| + 1;
  }

  lemma SetWalkKeeps(s: State, t: nat, w: Walk)
    requires Inv(s) && t < |s.threads| && s.threads[t].guard.Inside?
    requires w.Walk? ==> WalkInRange(s, w) && WalkOk(WalkBucket(s, w), w)
    ensures Inv(SetWalk(s, t, w))
  {
    assert SlotsInv(SetWalk(s, t, w));
    assert PhaseInv(SetWalk(s, t, w));
  }

  lemma WalkStep(s: State, t: nat, a: WalkAction)
    requires Inv(s) && WalkEnabled(s, t, a)
    ensures Inv(SetWalk(s, t, WalkTarget(s, t, a)))
  {
    if a.StartWalk? {
      WalkFromHead(s.shards[a.s], a.s, a.b);
    } else if a.StepWalk? {
      var w := s.threads[t].walk;
      BucketOk(s.shards[w.shard], w.bucket);
      WalkAdvances(WalkBucket(s, w), w);
    }
    SetWalkKeeps(s, t, WalkTarget(s, t, a));
  }

  lemma {:induction false} ChainWithin(next: map<nat, nat>, c: nat, x: nat)
    requires Ordered(next) && Points(next, c) && x in Chain(next, c)
    ensures Chain(next, x) <= Chain(next, c)
  {
    if x != c {
      ChainWithin(next, next[c], x);
    }
  }

  lemma EditKeeps(sh: Shard, b': Bucket, w': Work)
    requires ShardInv(sh) && Working(sh) && w'.Work? && w'.bucket == sh.lock.work.bucket
    requires BucketInv(b', w'.head) && WorkInv(b', w') && Evolves(WorkBucket(sh), b')
    requires forall x :: x in b'.status && b'.status[x].Unlinked? ==> w'.pending == x
    ensures ShardInv(Edit(sh, b', w')) && ShardEvolves(sh, Edit(sh, b', w'))
  {
    BucketsRefl(sh);
  }

  lemma BucketsRefl(sh: Shard)
    requires ShardInv(sh)
    ensures ShardEvolves(sh, sh)
  {
    forall j | 0 <= j < |sh.buckets| ensures Evolves(sh.buckets[j], sh.buckets[j]) {
      BucketOk(sh, j);
    }
  }

  lemma SetBucketKeeps(sh: Shard, j: nat, b': Bucket)
    requires ShardInv(sh) && j < |sh.buckets| && !(sh.lock.Held? && sh.lock.work.Work?)
    requires BucketInv(b', b'.head) && Evolves(sh.buckets[j], b')
    requires forall x :: x in b'.status ==> !b'.status[x].Unlinked?
    ensures var sh' := sh.(buckets := sh.buckets[j := b']); ShardInv(sh') && ShardEvolves(sh, sh')
  {
    BucketsRefl(sh);
  }

  lemma InsertKeeps(sh: Shard, j: nat, e: nat)
    requires ShardInv(sh) && ShardEnabled(sh, Insert(j, e))
    ensures ShardInv(ShardApply(sh, Insert(j, e), 0)) && ShardEvolves(sh, ShardApply(sh, Insert(j, e), 0))
  {
    BucketOk(sh, j);
    InsertBucket(sh.buckets[j], e);
    SetBucketKeeps(sh, j, InsertIn(sh.buckets[j], e));
  }

  ghost predicate ShardEvolves(sh: Shard, sh': Shard) {
    |sh'.buckets| == |sh.buckets| && forall j :: 0 <= j < |sh.buckets| ==> Evolves(sh.buckets[j], sh'.buckets[j])
  }

  lemma RelockShard(sh: Shard, sh': Shard)
    requires ShardInv(sh) && sh'.buckets == sh.buckets
    requires forall j :: 0 <= j < |sh.buckets| ==> LogicalHead(sh', j) == LogicalHead(sh, j)
    requires sh'.lock.Held? && sh'.lock.work.Work? ==>
               sh'.lock.work.bucket < |sh.buckets| && WorkInv(sh.buckets[sh'.lock.work.bucket], sh'.lock.work)
    requires sh.lock.Held? && sh.lock.work.Work? && sh.lock.work.pending != 0 ==>
               sh'.lock.Held? && sh'.lock.work.Work? && sh'.lock.work.bucket == sh.lock.work.bucket
               && sh'.lock.work.pending == sh.lock.work.pending
    ensures ShardInv(sh') && ShardEvolves(sh, sh')
  {
    forall j | 0 <= j < |sh.buckets|
      ensures Evolves(sh.buckets[j], sh'.buckets[j]) && BucketInv(sh'.buckets[j], LogicalHead(sh', j))
      ensures 0 !in sh.buckets[j].status
    {
      BucketOk(sh, j);
    }
  }

  lemma SkipWork(b: Bucket, w: Work)
    requires w.Work? && BucketInv(b, w.head) && WorkInv(b, w) && w.cur in b.next && w.pending == 0
    ensures WorkInv(b, w.(prev := w.cur, cur := b.next[w.cur]))
  {
    ChainWithin(b.next, w.head, w.cur);
    assert Chain(b.next, w.cur) == {w.cur} + Chain(b.next, b.next[w.cur]);
  }

  lemma UnlinkStep(sh: Shard)
    requires ShardInv(sh) && ShardEnabled(sh, Unlink)
    ensures ShardInv(ShardApply(sh, Unlink, 0)) && ShardEvolves(sh, ShardApply(sh, Unlink, 0))
  {
    var b, w := WorkBucket(sh), sh.lock.work;
    BucketOk(sh, w.bucket);
    UnlinkBucket(b, w);
    EditKeeps(sh, UnlinkIn(b, w), UnlinkWork(b, w));
  }

  lemma RetireBucket(b: Bucket, w: Work, epoch: nat)
    requires w.Work? && BucketInv(b, w.head) && WorkInv(b, w) && w.pending != 0
    ensures BucketInv(RetireIn(b, w, epoch), w.head) && WorkInv(RetireIn(b, w, epoch), w.(pending := 0))
    ensures Evolves(b, RetireIn(b, w, epoch))
  {
    RestatusBucket(b, w.head, RetireIn(b, w, epoch).status);
  }

  lemma RetireStep(sh: Shard)
    requires ShardInv(sh) && ShardEnabled(sh, Retire)
    ensures ShardInv(ShardApply(sh, Retire, 0)) && ShardEvolves(sh, ShardApply(sh, Retire, 0))
  {
    var b, w := WorkBucket(sh), sh.lock.work;
    BucketOk(sh, w.bucket);
    RetireBucket(b, w, sh.lock.epoch);
    EditKeeps(sh, RetireIn(b, w, sh.lock.epoch), w.(pending := 0));
  }

  lemma PublishStep(sh: Shard)
    requires ShardInv(sh) && ShardEnabled(sh, Publish)
    ensures ShardInv(ShardApply(sh, Publish, 0)) && ShardEvolves(sh, ShardApply(sh, Publish, 0))
  {
    BucketOk(sh, sh.lock.work.bucket);
    PublishBucket(WorkBucket(sh), sh.lock.work);
    EditKeeps(sh, WorkBucket(sh).(head := sh.lock.work.head), sh.lock.work);
  }

  lemma LockStep(sh: Shard, a: ShardAction, global: nat)
    requires ShardInv(sh) && ShardEnabled(sh, a) && !a.Insert? && !a.Unlink? && !a.Retire? && !a.Publish?
    ensures ShardInv(ShardApply(sh, a, global)) && ShardEvolves(sh, ShardApply(sh, a, global))
  {
    if a.Skip? {
      BucketOk(sh, sh.lock.work.bucket);
      SkipWork(WorkBucket(sh), sh.lock.work);
    } else if a.Begin? {
      BucketOk(sh, a.b);
    }
    RelockShard(sh, ShardApply(sh, a, global));
  }

  lemma ShardStep(sh: Shard, a: ShardAction, global: nat)
    requires ShardInv(sh) && ShardEnabled(sh, a)
    ensures ShardInv(ShardApply(sh, a, global)) && ShardEvolves(sh, ShardApply(sh, a, global))
  {
    if a.Insert? {
      InsertKeeps(sh, a.b, a.e);
    } else if a.Unlink? {
      UnlinkStep(sh);
    } else if a.Retire? {
      RetireStep(sh);
    } else if a.Publish? {
      PublishStep(sh);
    } else {
      LockStep(sh, a, global);
    }
  }

  lemma SetShardKeeps(s: State, i: nat, sh': Shard)
    requires Inv(s) && i < |s.shards| && ShardInv(sh') && ShardEvolves(s.shards[i], sh')
    ensures Inv(SetShard(s, i, sh'))
  {
    var s' := SetShard(s, i, sh');
    assert SlotsInv(s') && PhaseInv(s');
    forall t | 0 <= t < |s'.threads| && s'.threads[t].walk.Walk?
      ensures WalkInRange(s', s'.threads[t].walk) && WalkOk(WalkBucket(s', s'.threads[t].walk), s'.threads[t].walk)
    {
      var w := s.threads[t].walk;
      assert WalkInRange(s, w);
      if w.shard == i {
        WalkSurvives(WalkBucket(s, w), WalkBucket(s', w), w);
      }
    }
  }

  lemma ScanStep(s: State, r: ReclaimAction)
    requires Inv(s) && ReclaimEnabled(s, r) && !r.TakeRetired? && !r.FreeOne?
    ensures Inv(ReclaimApply(s, r))
    ensures r.AdvanceEpoch? ==> NobodyProtected(s)
  {
    assert SlotsInv(ReclaimApply(s, r)) && PhaseInv(ReclaimApply(s, r));
  }

  ghost predicate NobodyProtected(s: State) {
    forall t :: 0 <= t < |s.threads| ==> !Protected(s.threads[t])
  }

  ghost predicate Restatus(b: Bucket, b': Bucket) {
    && b'.head == b.head && b'.next == b.next && b'.status.Keys == b.status.Keys
    && (forall x :: x in b.status ==> (b'.status[x].Linked? <==> b.status[x].Linked?))
    && (forall x :: x in b.status ==> (b'.status[x].Unlinked? <==> b.status[x].Unlinked?))
    && (forall x :: x in b.status && (b'.status[x].Condemned? || b'.status[x].Freed?) ==>
          b.status[x].Retired? || b.status[x].Condemned? || b.status[x].Freed?)
  }

  lemma RestatusShard(sh: Shard, sh': Shard)
    requires ShardInv(sh) && sh'.lock == sh.lock && |sh'.buckets| == |sh.buckets|
    requires forall j :: 0 <= j < |sh.buckets| ==> Restatus(sh.buckets[j], sh'.buckets[j])
    requires forall j :: 0 <= j < |sh.buckets| ==> BucketInv(sh'.buckets[j], LogicalHead(sh, j))
    ensures ShardInv(sh')
  {
  }

  lemma CondemnKeeps(sh: Shard, list: nat)
    requires ShardInv(sh) && sh.lock.Open?
    ensures ShardInv(CondemnShard(sh, list))
  {
    var sh' := CondemnShard(sh, list);
    forall j | 0 <= j < |sh.buckets| ensures BucketInv(sh'.buckets[j], LogicalHead(sh, j)) {
      BucketOk(sh, j);
      RestatusBucket(sh.buckets[j], LogicalHead(sh, j), CondemnIn(sh.buckets[j], list).status);
    }
    RestatusShard(sh, sh');
  }

  lemma FreeRestatus(b: Bucket, x: nat)
    requires x in b.status && b.status[x].Condemned?
    ensures Restatus(b, b.(status := b.status[x := Freed]))
  {
  }

  lemma FreeBucket(b: Bucket, lh: nat, x: nat)
    requires BucketInv(b, lh) && x in b.status && b.status[x].Condemned?
    ensures BucketInv(b.(status := b.status[x := Freed]), lh) && Restatus(b, b.(status := b.status[x := Freed]))
  {
    assert x !in Chain(b.next, b.head);
    RestatusBucket(b, lh, b.status[x := Freed]);
    FreeRestatus(b, x);
  }

  lemma RestatusOne(sh: Shard, k: nat, b': Bucket)
    requires ShardInv(sh) && k < |sh.buckets| && Restatus(sh.buckets[k], b') && BucketInv(b', LogicalHead(sh, k))
    ensures ShardInv(sh.(buckets := sh.buckets[k := b']))
  {
    var sh' := sh.(buckets := sh.buckets[k := b']);
    forall j | 0 <= j < |sh.buckets|
      ensures Restatus(sh.buckets[j], sh'.buckets[j]) && BucketInv(sh'.buckets[j], LogicalHead(sh, j))
    {
      BucketOk(sh, j);
    }
    RestatusShard(sh, sh');
  }

  lemma FreeKeeps(sh: Shard, k: nat, x: nat)
    requires ShardInv(sh) && k < |sh.buckets| && x in sh.buckets[k].status && sh.buckets[k].status[x].Condemned?
    ensures ShardInv(FreeInShard(sh, k, x))
  {
    BucketOk(sh, k);
    FreeBucket(sh.buckets[k], LogicalHead(sh, k), x);
    RestatusOne(sh, k, sh.buckets[k].(status := sh.buckets[k].status[x := Freed]));
  }

  /** Lists are taken and freed only while nobody is protected, hence nobody is walking. */
  lemma ReclaimStep(s: State, r: ReclaimAction)
    requires Inv(s) && ReclaimEnabled(s, r) && (r.TakeRetired? || r.FreeOne?)
    ensures Inv(ReclaimApply(s, r)) && NobodyProtected(s)
  {
    var i := s.advance.shard;
    if r.TakeRetired? {
      CondemnKeeps(s.shards[i], s.advance.list);
    } else {
      FreeKeeps(s.shards[i], r.b, r.x);
    }
    assert SlotsInv(ReclaimApply(s, r)) && PhaseInv(ReclaimApply(s, r));
  }

  lemma StepKeepsInv(s: State, a: Action)
    requires Inv(s) && Enabled(s, a)
    ensures Inv(Apply(s, a))
  {
    match a {
      case OfGuard(t, g) =>
        if g.AllocateSlot? {
          AllocateKeeps(s, t);
        } else {
          SetGuardKeeps(s, t, GuardTarget(s, t, g));
        }
      case OfWalk(t, w) => WalkStep(s, t, w);
      case OfShard(i, b) =>
        ShardStep(s.shards[i], b, s.global);
        SetShardKeeps(s, i, ShardApply(s.shards[i], b, s.global));
      case OfReclaim(r) =>
        if r.TakeRetired? || r.FreeOne? {
          ReclaimStep(s, r);
        } else {
          ScanStep(s, r);
        }
    }
  }

  // ---------------------------------------------------------------- theorems

  /** A finite run: states linked by enabled actions, from an initial state. */
  ghost predicate IsRun(run: seq<State>, trace: seq<Action>) {
    && |run| == |trace| + 1 && Init(run[0])
    && forall k :: 0 <= k < |trace| ==> Enabled(run[k], trace[k]) && run[k + 1] == Apply(run[k], trace[k])
  }

  lemma InitInv(s: State)
    requires Init(s)
    ensures Inv(s)
  {
    assert SlotsInv(s) && PhaseInv(s);
  }

  lemma {:induction false} RunKeepsInv(run: seq<State>, trace: seq<Action>, k: nat)
    requires IsRun(run, trace) && k < |run|
    ensures Inv(run[k])
  {
    if k == 0 {
      InitInv(run[0]);
    } else {
      RunKeepsInv(run, trace, k - 1);
      StepKeepsInv(run[k - 1], trace[k - 1]);
    }
  }

  ghost predicate InState(s: State, i: nat, j: nat, x: nat) {
    i < |s.shards| && j < |s.shards[i].buckets| && x in s.shards[i].buckets[j].status
  }

  ghost function StatusOf(s: State, i: nat, j: nat, x: nat): Status requires InState(s, i, j, x) {
    s.shards[i].buckets[j].status[x]
  }

  /** In no reachable state can a freed entry be reached from a published bucket head. */
  lemma FreedIsUnreachable(run: seq<State>, trace: seq<Action>, k: nat, i: nat, j: nat)
    requires IsRun(run, trace) && k < |run| && i < |run[k].shards| && j < |run[k].shards[i].buckets|
    ensures var b := run[k].shards[i].buckets[j];
            Ordered(b.next) && Points(b.next, b.head) && b.status.Keys == b.next.Keys &&
            forall x :: x in Chain(b.next, b.head) ==> !b.status[x].Freed?
  {
    RunKeepsInv(run, trace, k);
    BucketOk(run[k].shards[i], j);
  }

  /** Locked work frees nothing and links nothing again. */
  lemma LockedWorkOnStatus(sh: Shard, a: ShardAction, global: nat, j: nat, x: nat)
    requires ShardInv(sh) && ShardEnabled(sh, a) && j < |sh.buckets| && x in sh.buckets[j].status
    ensures var sh' := ShardApply(sh, a, global);
            |sh'.buckets| == |sh.buckets| && x in sh'.buckets[j].status &&
            (sh'.buckets[j].status[x].Freed? ==> sh.buckets[j].status[x].Freed?) &&
            (sh'.buckets[j].status[x].Linked? ==> sh.buckets[j].status[x].Linked?)
  {
    ShardStep(sh, a, global);
  }

  lemma ReclaimOnStatus(s: State, r: ReclaimAction, i: nat, j: nat, x: nat)
    requires ReclaimEnabled(s, r) && InState(s, i, j, x)
    ensures InState(ReclaimApply(s, r), i, j, x)
    ensures StatusOf(ReclaimApply(s, r), i, j, x).Linked? ==> StatusOf(s, i, j, x).Linked?
    ensures StatusOf(ReclaimApply(s, r), i, j, x).Freed? ==> StatusOf(s, i, j, x).Freed? || r == FreeOne(j, x)
  {
  }

  /** What one step can do to the status of an entry. */
  lemma StepOnStatus(s: State, a: Action, i: nat, j: nat, x: nat)
    requires Inv(s) && Enabled(s, a) && InState(s, i, j, x)
    ensures InState(Apply(s, a), i, j, x)
    ensures StatusOf(Apply(s, a), i, j, x).Linked? ==> StatusOf(s, i, j, x).Linked?
    ensures StatusOf(Apply(s, a), i, j, x).Freed? ==> StatusOf(s, i, j, x).Freed? || a == OfReclaim(FreeOne(j, x))
  {
    if a.OfShard? && a.i == i {
      LockedWorkOnStatus(s.shards[i], a.a, s.global, j, x);
    } else if a.OfReclaim? {
      ReclaimOnStatus(s, a.r, i, j, x);
    }
  }

  /** An entry turns freed only in a step taken while no thread is between enter and exit. */
  lemma NoFreeWhileInside(run: seq<State>, trace: seq<Action>, k: nat, i: nat, j: nat, x: nat)
    requires IsRun(run, trace) && k < |trace|
    requires InState(run[k], i, j, x) && !StatusOf(run[k], i, j, x).Freed?
    requires InState(run[k + 1], i, j, x) && StatusOf(run[k + 1], i, j, x).Freed?
    ensures trace[k] == OfReclaim(FreeOne(j, x))
    ensures forall t :: 0 <= t < |run[k].threads| ==> !run[k].threads[t].guard.Inside?
  {
    RunKeepsInv(run, trace, k);
    StepOnStatus(run[k], trace[k], i, j, x);
    ReclaimStep(run[k], trace[k].r);
  }

  /** A walking reader stands on an entry that is not freed, and so is all that it can still reach. */
  lemma ReaderNeverSeesFreed(run: seq<State>, trace: seq<Action>, k: nat, t: nat)
    requires IsRun(run, trace) && k < |run| && t < |run[k].threads| && run[k].threads[t].walk.Walk?
    ensures var w := run[k].threads[t].walk;
            WalkInRange(run[k], w) && Ordered(WalkBucket(run[k], w).next) &&
            Points(WalkBucket(run[k], w).next, w.cur) &&
            WalkBucket(run[k], w).status.Keys == WalkBucket(run[k], w).next.Keys &&
            forall x :: x in Chain(WalkBucket(run[k], w).next, w.cur) ==> !WalkBucket(run[k], w).status[x].Freed?
  {
    RunKeepsInv(run, trace, k);
  }

  /** An advance succeeds only when nobody is inside the guard.  In particular one tried by a
      thread inside its own guard is refused. */
  lemma AdvanceNeedsQuiescence(run: seq<State>, trace: seq<Action>, k: nat)
    requires IsRun(run, trace) && k < |trace| && trace[k] == OfReclaim(AdvanceEpoch)
    ensures forall t :: 0 <= t < |run[k].threads| ==> !run[k].threads[t].guard.Inside?
  {
    RunKeepsInv(run, trace, k);
    ScanStep(run[k], AdvanceEpoch);
  }

  /** Once unlinked, an entry is never linked again, so being linked now and at the start of a
      walk means being linked all along. */
  lemma LinkedNeverAgain(run: seq<State>, trace: seq<Action>, k: nat, i: nat, j: nat, x: nat)
    requires IsRun(run, trace) && k < |trace| && InState(run[k], i, j, x)
    ensures InState(run[k + 1], i, j, x)
    ensures StatusOf(run[k + 1], i, j, x).Linked? ==> StatusOf(run[k], i, j, x).Linked?
  {
    RunKeepsInv(run, trace, k);
    StepOnStatus(run[k], trace[k], i, j, x);
  }

  /** Every step of a walk goes to an older entry, and a walk makes at most as many steps as the
      birth number of the head it started from. */
  lemma WalkTerminates(run: seq<State>, trace: seq<Action>, k: nat, t: nat)
    requires IsRun(run, trace) && k < |trace| && trace[k] == OfWalk(t, StepWalk)
    ensures run[k + 1].threads[t].walk.Walk?
    ensures run[k + 1].threads[t].walk.cur < run[k].threads[t].walk.cur
    ensures |run[k + 1].threads[t].walk.visited| <= run[k + 1].threads[t].walk.first
  {
    RunKeepsInv(run, trace, k);
    RunKeepsInv(run, trace, k + 1);
  }

  /** A walk that has reached the end of its chain has stood on every entry that was linked when
      the walk began and still is, whatever was unlinked or inserted meanwhile. */
  lemma WalkVisitsAllThatStay(run: seq<State>, trace: seq<Action>, k: nat, t: nat, x: nat)
    requires IsRun(run, trace) && k < |run| && t < |run[k].threads|
    requires run[k].threads[t].walk.Walk? && run[k].threads[t].walk.cur == 0
    requires x in run[k].threads[t].walk.start
    requires var w := run[k].threads[t].walk;
             InState(run[k], w.shard, w.bucket, x) && StatusOf(run[k], w.shard, w.bucket, x).Linked?
    ensures x in run[k].threads[t].walk.visited
  {
    RunKeepsInv(run, trace, k);
  }

  /** A lookup stops at the first entry of its flow. Whatever is inserted or unlinked meanwhile, none of
      the entries of that flow that were linked all along is newer than the one it stops at. */
  lemma LookupStopsAtNewest(run: seq<State>, trace: seq<Action>, k: nat, t: nat, flow: set<nat>, x: nat)
    requires IsRun(run, trace) && k < |run| && t < |run[k].threads| && run[k].threads[t].walk.Walk?
    requires run[k].threads[t].walk.visited !! flow
    requires x in flow && x in run[k].threads[t].walk.start
    requires var w := run[k].threads[t].walk;
             InState(run[k], w.shard, w.bucket, x) && StatusOf(run[k], w.shard, w.bucket, x).Linked?
    ensures x <= run[k].threads[t].walk.cur
  {
    RunKeepsInv(run, trace, k);
    var w := run[k].threads[t].walk;
    assert WalkOk(WalkBucket(run[k], w), w);
    assert x in Chain(WalkBucket(run[k], w).next, w.cur);
  }
}
