/** Domain block lists: every list maps names to mask bits, and a merged snapshot of all lists
    answers the suffix lookups. */
module DomainList {
  import opened Wrappers

  type Domains = map<string, bv8>

  // ---------------------------------------------------------------- the merged view

  /** The mask of `d` has one of the bits of `b`. */
  predicate Bit(m: Domains, d: string, b: bv8) { d in m && Shares(m[d], b) }

  predicate Shares(x: bv8, b: bv8) { x & b != 0 }

  ghost predicate Named(lists: map<string, Domains>, keys: set<string>, d: string) {
    exists l :: l in keys && l in lists && d in lists[l]
  }

  ghost predicate Bits(lists: map<string, Domains>, keys: set<string>, d: string, b: bv8) {
    exists l :: l in keys && l in lists && Bit(lists[l], d, b)
  }

  /** `snap` is the pointwise OR of the lists in `keys`, said bit by bit. */
  ghost predicate Aggregates(lists: map<string, Domains>, keys: set<string>, snap: Domains) {
    && (forall d :: d in snap <==> Named(lists, keys, d))
    && (forall d, b {:trigger Bit(snap, d, b)} :: Bit(snap, d, b) <==> Bits(lists, keys, d, b))
  }

  lemma OrBit(x: bv8, y: bv8, b: bv8)
    ensures Shares(x | y, b) <==> Shares(x, b) || Shares(y, b)
  {
  }

  lemma SameBits(x: bv8, y: bv8)
    requires forall b :: Shares(x, b) <==> Shares(y, b)
    ensures x == y
  {
    assert Shares(x, x & !y) <==> Shares(y, x & !y);
    assert Shares(x, y & !x) <==> Shares(y, y & !x);
    Differ(x, y);
  }

  lemma Differ(x: bv8, y: bv8)
    ensures y & (x & !y) == 0 && x & (y & !x) == 0
    ensures x & (x & !y) == 0 && y & (y & !x) == 0 ==> x == y
  {
  }

  /** The merged view is unique, so it depends on the lists alone and not on the order of merging. */
  lemma AggregateIsUnique(lists: map<string, Domains>, keys: set<string>, s: Domains, t: Domains)
    requires Aggregates(lists, keys, s) && Aggregates(lists, keys, t)
    ensures s == t
  {
    forall d ensures d in s <==> d in t {
      assert d in s <==> Named(lists, keys, d);
    }
    forall d | d in s ensures s[d] == t[d] {
      forall b ensures Shares(s[d], b) <==> Shares(t[d], b) {
        assert Bit(s, d, b) <==> Bit(t, d, b);
      }
      SameBits(s[d], t[d]);
    }
  }

  /** `r` is `m` with the masks of `list` OR-ed in. */
  ghost predicate Merged(m: Domains, list: Domains, r: Domains) {
    && (forall d :: d in r <==> d in m || d in list)
    && (forall d, b {:trigger Bit(r, d, b)} :: Bit(r, d, b) <==> Bit(m, d, b) || Bit(list, d, b))
  }

  function OrInto(m: Domains, d: string, mask: bv8): Domains { m[d := if d in m then m[d] | mask else mask] }

  lemma OrIntoBit(m: Domains, d: string, mask: bv8, e: string, b: bv8)
    ensures Bit(OrInto(m, d, mask), e, b) <==> Bit(m, e, b) || (e == d && Shares(mask, b))
  {
    if d in m {
      OrBit(m[d], mask, b);
    }
  }

  lemma OrIntoBits(m: Domains, d: string, mask: bv8, r: Domains)
    requires r == OrInto(m, d, mask)
    ensures forall e, b {:trigger Bit(r, e, b)} :: Bit(r, e, b) <==> Bit(m, e, b) || (e == d && Shares(mask, b))
  {
    forall e, b ensures Bit(r, e, b) <==> Bit(m, e, b) || (e == d && Shares(mask, b)) {
      OrIntoBit(m, d, mask, e, b);
    }
  }

  method MergeList(m: Domains, list: Domains) returns (r: Domains)
    ensures Merged(m, list, r)
  {
    r := m;
    var rest := list;
    while rest != map[]
      invariant forall d | d in rest :: d in list && rest[d] == list[d]
      invariant forall d :: d in r <==> d in m || (d in list && d !in rest)
      invariant forall d, b {:trigger Bit(r, d, b)} :: Bit(r, d, b) <==> Bit(m, d, b) || (Bit(list, d, b) && d !in rest)
      decreases |rest|
    {
      var d :| d in rest;
      OrIntoBits(r, d, list[d], OrInto(r, d, list[d]));
      r := OrInto(r, d, list[d]);
      rest := rest - {d};
    }
  }

  lemma AggregateOneMore(lists: map<string, Domains>, keys: set<string>, l: string, m: Domains, r: Domains)
    requires l in lists && Aggregates(lists, keys, m) && Merged(m, lists[l], r)
    ensures Aggregates(lists, keys + {l}, r)
  {
    forall d ensures d in r <==> Named(lists, keys + {l}, d) {
      assert d in m <==> Named(lists, keys, d);
    }
    forall d, b ensures Bit(r, d, b) <==> Bits(lists, keys + {l}, d, b) {
      assert Bit(m, d, b) <==> Bits(lists, keys, d, b);
    }
  }

  method Rebuild(lists: map<string, Domains>) returns (snap: Domains)
    ensures Aggregates(lists, lists.Keys, snap)
  {
    snap := map[];
    var rest := lists.Keys;
    ghost var done: set<string> := {};
    while rest != {}
      invariant rest <= lists.Keys && done == lists.Keys - rest && Aggregates(lists, done, snap)
    {
      var l :| l in rest;
      var merged := MergeList(snap, lists[l]);
      AggregateOneMore(lists, done, l, snap, merged);
      snap := merged;
      rest := rest - {l};
      done := done + {l};
    }
    assert done == lists.Keys;
  }

  // ---------------------------------------------------------------- suffix lookup

  /** A label boundary whose remainder still contains a dot. */
  predicate Cut(q: string, i: int) { 0 <= i < |q| && q[i] == '.' && '.' in q[i + 1..] }

  /** The longest listed proper suffix at such a boundary starts behind `i`. */
  ghost predicate Longest(snap: Domains, q: string, i: int) {
    Cut(q, i) && q[i + 1..] in snap && forall j | 0 <= j < i && Cut(q, j) :: q[j + 1..] !in snap
  }

  /** The mask of the exact name, else of the longest listed proper suffix, else nothing. */
  ghost predicate MaskIs(snap: Domains, q: string, mask: bv8) {
    if q in snap then mask == snap[q]
    else if exists i :: Cut(q, i) && q[i + 1..] in snap
    then exists i :: Longest(snap, q, i) && mask == snap[q[i + 1..]]
    else mask == 0
  }

  /** That determines the mask. */
  lemma MaskIsUnique(snap: Domains, q: string, x: bv8, y: bv8)
    requires MaskIs(snap, q, x) && MaskIs(snap, q, y)
    ensures x == y
  {
  }

  /** A top-level label on its own is never looked up: with one dot only the exact name counts. */
  lemma LastLabelIsNotTried(snap: Domains, q: string, k: nat, mask: bv8)
    requires k < |q| && q[k] == '.' && (forall i | 0 <= i < |q| :: q[i] == '.' ==> i == k) && q !in snap
    requires MaskIs(snap, q, mask)
    ensures mask == 0
  {
    forall i ensures !Cut(q, i) {
      if 0 <= i < |q| {
        CutsAreBeforeLast(q, k, i);
      }
    }
  }

  /** One trailing dot is ignored; the root name has no mask. */
  function Query(domain: string): Option<string> {
    if domain == "" || domain[|domain| - 1] != '.' then Some(domain)
    else if |domain| == 1 then None
    else Some(domain[..|domain| - 1])
  }

  /** The next dot from `from` on, or the length. */
  method FindDot(q: string, from: nat) returns (k: nat)
    requires from <= |q|
    ensures from <= k <= |q| && (k < |q| ==> q[k] == '.') && forall i | from <= i < k :: q[i] != '.'
  {
    k := from;
    while k < |q| && q[k] != '.'
      invariant from <= k <= |q| && forall i | from <= i < k :: q[i] != '.'
    {
      k := k + 1;
    }
  }

  /** The last dot, or the length. */
  method FindLastDot(q: string) returns (k: nat)
    ensures k <= |q| && (k < |q| ==> q[k] == '.' && forall i | k < i < |q| :: q[i] != '.')
    ensures k == |q| ==> '.' !in q
  {
    k := |q|;
    while k > 0 && q[k - 1] != '.'
      invariant k <= |q| && forall i | k <= i < |q| :: q[i] != '.'
    {
      k := k - 1;
    }
    k := if k == 0 then |q| else k - 1;
  }

  lemma CutsAreBeforeLast(q: string, last: nat, i: nat)
    requires last < |q| && q[last] == '.' && (forall j | last < j < |q| :: q[j] != '.') && i < |q|
    ensures Cut(q, i) <==> q[i] == '.' && i < last
  {
    if i < last {
      assert q[i + 1..][last - i - 1] == '.';
    }
  }

  method Lookup(snap: Domains, q: string) returns (mask: bv8)
    ensures MaskIs(snap, q, mask)
  {
    if q in snap { return snap[q]; }
    var first := FindDot(q, 0);
    var last := FindLastDot(q);
    while first != last
      invariant first <= last <= |q| && (first < |q| ==> q[first] == '.')
      invariant last < |q| ==> q[last] == '.' && forall j | last < j < |q| :: q[j] != '.'
      invariant last == |q| ==> first == last && '.' !in q
      invariant forall j | 0 <= j < first && Cut(q, j) :: q[j + 1..] !in snap
      decreases last - first
    {
      CutsAreBeforeLast(q, last, first);
      if q[first + 1..] in snap {
        assert Longest(snap, q, first);
        return snap[q[first + 1..]];
      }
      first := FindDot(q, first + 1);
    }
    forall i | Cut(q, i) ensures q[i + 1..] !in snap {
      if last < |q| {
        CutsAreBeforeLast(q, last, i);
      }
    }
    mask := 0;
  }

  // ---------------------------------------------------------------- list contents

  predicate HexDigitOrDash(c: char) { '0' <= c <= '9' || 'a' <= c <= 'f' || 'A' <= c <= 'F' || c == '-' }

  predicate ValidListId(id: string) { 0 < |id| <= 64 && forall i | 0 <= i < |id| :: HexDigitOrDash(id[i]) }

  /** A list id is one to 64 hexadecimal digits and dashes, so it names no path outside its directory. */
  lemma ListIdIsPlain(id: string)
    ensures ValidListId(id) <==> 1 <= |id| <= 64 && forall c | c in id :: c in "0123456789abcdefABCDEF-"
    ensures ValidListId(id) ==> '/' !in id && '.' !in id
  {
    forall c: char ensures HexDigitOrDash(c) <==> c in "0123456789abcdefABCDEF-" {
      HexDigits(c);
    }
    assert forall i | 0 <= i < |id| :: id[i] in id;
  }

  lemma HexDigits(c: char)
    ensures HexDigitOrDash(c) <==> c in "0123456789abcdefABCDEF-"
  {
    var s := "0123456789abcdefABCDEF-";
    if '0' <= c <= '9' {
      assert s[c as int - '0' as int] == c;
    } else if 'a' <= c <= 'f' {
      assert s[c as int - 'a' as int + 10] == c;
    } else if 'A' <= c <= 'F' {
      assert s[c as int - 'A' as int + 16] == c;
    } else if c == '-' {
      assert s[22] == c;
    }
  }

  /** The names of a list file under one mask; a repeated name is OR-ed with the same mask. */
  method Load(names: seq<string>, mask: bv8) returns (r: Domains)
    ensures r == map d | d in names :: mask
  {
    r := map[];
    for i := 0 to |names|
      invariant r == map d | d in names[..i] :: mask
    {
      assert mask | mask == mask;
      r := OrInto(r, names[i], mask);
      assert names[..i + 1] == names[..i] + [names[i]];
    }
    assert names[..|names|] == names;
  }

  lemma InPrefix(names: seq<string>, i: nat)
    requires i < |names|
    ensures forall d :: d in names[..i + 1] <==> d in names[..i] || d == names[i]
  {
    assert names[..i + 1] == names[..i] + [names[i]];
  }

  /** `r` is `base` with the missing names added; those present keep their mask. */
  ghost predicate Extended(base: Domains, names: seq<string>, mask: bv8, r: Domains) {
    && (forall d :: d in r <==> d in base || d in names)
    && (forall d | d in r :: r[d] == if d in base then base[d] else mask)
  }

  method EmplaceAll(base: Domains, names: seq<string>, mask: bv8) returns (r: Domains, added: nat)
    ensures Extended(base, names, mask, r) && |r| == |base| + added
  {
    r, added := base, 0;
    for i := 0 to |names|
      invariant Extended(base, names[..i], mask, r) && |r| == |base| + added
    {
      InPrefix(names, i);
      if names[i] !in r {
        r := r[names[i] := mask];
        added := added + 1;
      }
    }
    assert names[..|names|] == names;
  }

  /** `r` is `base` with the mask OR-ed in under every name. */
  ghost predicate Ored(base: Domains, names: seq<string>, mask: bv8, r: Domains) {
    && (forall d :: d in r <==> d in base || d in names)
    && (forall d, b {:trigger Bit(r, d, b)} :: Bit(r, d, b) <==> Bit(base, d, b) || (d in names && Shares(mask, b)))
  }

  method OrAll(base: Domains, names: seq<string>, mask: bv8) returns (r: Domains, added: nat)
    ensures Ored(base, names, mask, r) && |r| == |base| + added
  {
    r, added := base, 0;
    for i := 0 to |names|
      invariant Ored(base, names[..i], mask, r) && |r| == |base| + added
    {
      InPrefix(names, i);
      OrIntoBits(r, names[i], mask, OrInto(r, names[i], mask));
      if names[i] !in r { added := added + 1; }
      r := OrInto(r, names[i], mask);
    }
    assert names[..|names|] == names;
  }

  // ---------------------------------------------------------------- the lists

  /** What `l` holds is also held, bit for bit, by the other lists. */
  ghost predicate Covered(lists: map<string, Domains>, l: string) {
    && (forall d | l in lists && d in lists[l] :: Named(lists, lists.Keys - {l}, d))
    && (forall d, b {:trigger Bits(lists, lists.Keys - {l}, d, b)} | l in lists && Bit(lists[l], d, b) ::
      Bits(lists, lists.Keys - {l}, d, b))
  }

  /** A snapshot of all lists also serves without `l` exactly when the others cover `l`. */
  lemma SnapshotWithout(lists: map<string, Domains>, l: string, snap: Domains)
    requires Aggregates(lists, lists.Keys, snap)
    ensures Aggregates(lists, lists.Keys - {l}, snap) <==> Covered(lists, l)
  {
    var keys := lists.Keys - {l};
    if Covered(lists, l) {
      forall d ensures d in snap <==> Named(lists, keys, d) {
        assert d in snap <==> Named(lists, lists.Keys, d);
      }
      forall d, b ensures Bit(snap, d, b) <==> Bits(lists, keys, d, b) {
        assert Bit(snap, d, b) <==> Bits(lists, lists.Keys, d, b);
      }
    }
    if Aggregates(lists, keys, snap) {
      forall d | l in lists && d in lists[l] ensures Named(lists, keys, d) {
        assert Named(lists, lists.Keys, d);
      }
      forall d, b | l in lists && Bit(lists[l], d, b) ensures Bits(lists, keys, d, b) {
        assert Bits(lists, lists.Keys, d, b) && Bit(snap, d, b);
      }
    }
  }

  /** Emptying a list is leaving it out. */
  lemma EmptyListIsNone(lists: map<string, Domains>, l: string, snap: Domains)
    ensures var now := lists[l := map[]]; Aggregates(now, now.Keys, snap) <==> Aggregates(lists, lists.Keys - {l}, snap)
  {
    var now := lists[l := map[]];
    forall d ensures Named(now, now.Keys, d) <==> Named(lists, lists.Keys - {l}, d) {
      if k :| k in now && d in now[k] {
        assert k in lists.Keys - {l} && d in lists[k];
      }
      if k :| k in lists.Keys - {l} && d in lists[k] {
        assert k in now && d in now[k];
      }
    }
    forall d, b ensures Bits(now, now.Keys, d, b) <==> Bits(lists, lists.Keys - {l}, d, b) {
      if k :| k in now && Bit(now[k], d, b) {
        assert k in lists.Keys - {l} && Bit(lists[k], d, b);
      }
      if k :| k in lists.Keys - {l} && Bit(lists[k], d, b) {
        assert k in now && Bit(now[k], d, b);
      }
    }
  }

  /** What is left when the file of a list cannot be opened for appending. */
  lemma FailedWrite(lists: map<string, Domains>, l: string, clear: bool, snap: Domains)
    requires Aggregates(lists, lists.Keys, snap)
    ensures var now := lists[l := if l in lists && !clear then lists[l] else map[]];
            Aggregates(now, now.Keys, snap) <==> !clear || Covered(lists, l)
  {
    EmptyListIsNone(lists, l, snap);
    SnapshotWithout(lists, l, snap);
    assert l in lists ==> lists == lists[l := lists[l]];
    assert l !in lists ==> lists.Keys - {l} == lists.Keys;
  }

  /** One name in one list, cleared while its file cannot be opened: the snapshot goes on blocking it. */
  lemma ClearedListStillBlocks(l: string, d: string)
    ensures var lists: map<string, Domains>, snap: Domains := map[l := map[d := 1]], map[d := 1];
      Aggregates(lists, lists.Keys, snap) && MaskIs(snap, d, 1) && !Aggregates(map[l := map[]], {l}, snap)
  {
    var lists: map<string, Domains>, snap: Domains := map[l := map[d := 1]], map[d := 1];
    forall e ensures e in snap <==> Named(lists, lists.Keys, e) {
      assert e == d ==> l in lists.Keys && e in lists[l];
    }
    forall e, b ensures Bit(snap, e, b) <==> Bits(lists, lists.Keys, e, b) {
      assert e == d && Bit(snap, e, b) ==> l in lists.Keys && Bit(lists[l], e, b);
    }
    assert d in snap && !Named(map[l := map[]], {l}, d);
  }

  datatype ImportResult = ImportResult(ok: bool, imported: nat, total: nat)

  /** List files are parameters: `file` is what a file holds, None when it cannot be opened, and the
      flags say whether a file operation succeeded. */
  class BlockLists {
    var lists: map<string, Domains>
    var snap: Domains

    ghost predicate Valid()
      reads this
    {
      Aggregates(lists, lists.Keys, snap)
    }

    constructor ()
      ensures Valid() && lists == map[]
    {
      lists, snap := map[], map[];
    }

    method BlockMask(domain: string) returns (mask: bv8)
      ensures match Query(domain) case None => mask == 0 case Some(q) => MaskIs(snap, q, mask)
    {
      if domain != "" && domain[|domain| - 1] == '.' {
        if |domain| == 1 { return 0; }
        mask := Lookup(snap, domain[..|domain| - 1]);
      } else {
        mask := Lookup(snap, domain);
      }
    }

    method Set(l: string, domains: Domains)
      modifies this
      ensures Valid() && lists == old(lists)[l := domains]
    {
      lists := lists[l := domains];
      snap := Rebuild(lists);
    }

    /** Read a list at start-up; a list already in memory stays. */
    method Read(l: string, mask: bv8, file: Option<seq<string>>)
      modifies this
      ensures old(Valid()) || (ValidListId(l) && file.Some?) ==> Valid()
      ensures lists == if ValidListId(l) && file.Some? && l !in old(lists)
                       then old(lists)[l := map d | d in file.value :: mask] else old(lists)
    {
      if !ValidListId(l) || file == None { return; }
      var domains := Load(file.value, mask);
      if l !in lists { lists := lists[l := domains]; }
      snap := Rebuild(lists);
    }

    /** Append names to a list. When its file cannot be opened the snapshot is not rebuilt, so it is
        out of date exactly if the list was cleared and the others do not cover what it held. */
    method Write(l: string, names: seq<string>, mask: bv8, clear: bool, writable: bool) returns (added: nat)
      modifies this
      ensures ValidListId(l) && writable ==> Valid()
      ensures old(Valid()) ==> (Valid() <==> !ValidListId(l) || writable || !clear || Covered(old(lists), l))
      ensures !ValidListId(l) ==> lists == old(lists) && added == 0
      ensures ValidListId(l) && writable ==>
        var base := if l in old(lists) && !clear then old(lists)[l] else map[];
        l in lists && lists == old(lists)[l := lists[l]] && |lists[l]| == |base| + added
        && Extended(base, names, mask, lists[l])
      ensures ValidListId(l) && !writable ==> snap == old(snap) && added == 0
      ensures ValidListId(l) && !writable ==>
        lists == old(lists)[l := if l in old(lists) && !clear then old(lists)[l] else map[]]
    {
      if !ValidListId(l) { return 0; }
      var before := lists;
      var base := if l in lists && !clear then lists[l] else map[];
      lists := lists[l := base];
      if !writable {
        if Aggregates(before, before.Keys, snap) {
          FailedWrite(before, l, clear, snap);
        }
        return 0;
      }
      added := Append(l, names, mask);
    }

    method Append(l: string, names: seq<string>, mask: bv8) returns (added: nat)
      requires l in lists
      modifies this
      ensures Valid() && l in lists && lists == old(lists)[l := lists[l]]
      ensures |lists[l]| == |old(lists)[l]| + added && Extended(old(lists)[l], names, mask, lists[l])
    {
      var target;
      target, added := EmplaceAll(lists[l], names, mask);
      lists := lists[l := target];
      snap := Rebuild(lists);
    }

    /** Import names all at once: nothing changes unless the file was written. */
    method ImportAtomic(l: string, names: seq<string>, mask: bv8, clear: bool, enabled: bool, file: Option<seq<string>>,
                        persisted: bool)
      returns (r: ImportResult)
      modifies this
      ensures r.ok == (ValidListId(l) && persisted) && (old(Valid()) || (r.ok && enabled) ==> Valid())
      ensures !r.ok || !enabled ==> lists == old(lists) && snap == old(snap)
      ensures var base: Domains := if clear then map[] else if enabled && l in old(lists) then old(lists)[l]
                                   else if file.Some? then map d | d in file.value :: mask else map[];
        r.ok ==> r.total == |base| + r.imported && (enabled ==>
          l in lists && lists == old(lists)[l := lists[l]] && r.total == |lists[l]|
          && Ored(base, names, mask, lists[l]))
    {
      if !ValidListId(l) { return ImportResult(false, 0, 0); }
      var base: Domains := map[];
      if !clear {
        if enabled && l in lists {
          base := lists[l];
        } else if file.Some? {
          base := Load(file.value, mask);
        }
      }
      var merged, imported := OrAll(base, names, mask);
      if !persisted { return ImportResult(false, 0, 0); }
      r := ImportResult(true, imported, |merged|);
      if enabled {
        lists := lists[l := merged];
        snap := Rebuild(lists);
      }
    }

    method Erase(l: string) returns (erased: bool)
      modifies this
      ensures (old(Valid()) || erased ==> Valid()) && erased == (ValidListId(l) && l in old(lists))
      ensures lists == if erased then old(lists) - {l} else old(lists)
    {
      if !ValidListId(l) || l !in lists { return false; }
      lists := lists - {l};
      snap := Rebuild(lists);
      erased := true;
    }

    method Reset()
      modifies this
      ensures Valid() && lists == map[]
    {
      lists := map[];
      snap := Rebuild(lists);
    }

    /** Enable a list from its file; an unreadable file gives an empty list. */
    method Enable(l: string, mask: bv8, renamed: bool, file: Option<seq<string>>) returns (ok: bool)
      modifies this
      ensures (old(Valid()) || ok ==> Valid()) && ok == (ValidListId(l) && renamed)
      ensures lists == if ok then old(lists)[l := if file.Some? then map d | d in file.value :: mask else map[]]
                       else old(lists)
    {
      if !ValidListId(l) || !renamed { return false; }
      var domains: Domains := map[];
      if file.Some? { domains := Load(file.value, mask); }
      lists := lists[l := domains];
      snap := Rebuild(lists);
      ok := true;
    }

    method Disable(l: string, renamed: bool) returns (ok: bool)
      modifies this
      ensures (old(Valid()) || ok ==> Valid()) && ok == (ValidListId(l) && renamed)
      ensures lists == if ok then old(lists) - {l} else old(lists)
    {
      if !ValidListId(l) || !renamed { return false; }
      lists := lists - {l};
      snap := Rebuild(lists);
      ok := true;
    }

    method ChangeBlockMask(l: string, mask: bv8)
      modifies this
      ensures old(Valid()) || l in old(lists) ==> Valid()
      ensures lists == if l in old(lists) then old(lists)[l := map d | d in old(lists)[l] :: mask] else old(lists)
    {
      if l !in lists { return; }
      lists := lists[l := map d | d in lists[l] :: mask];
      snap := Rebuild(lists);
    }
  }
}
