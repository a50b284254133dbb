/** A set of domain rules with its two published snapshots: one combined regex for the verdict and
    one regex per rule, ordered by rule id, for attribution. What a regex matches is a parameter. */
module CustomRules {
  import opened Wrappers

  type RuleId = nat
  type Matcher = (string, string) -> bool

  datatype Rule = Rule(id: RuleId, regex: string, valid: bool)

  datatype Attrib = Attrib(ruleId: RuleId, regex: string)

  /** `alternatives` are the parts of the combined regex joined by `|`. */
  datatype Snapshot = Snapshot(alternatives: seq<string>, attrib: seq<Attrib>)

  const Blank := Snapshot([], [])

  // ---------------------------------------------------------------- matching

  /** Full match against the combined regex. With no alternatives it is the empty regex, which
      matches the empty name and nothing else. */
  predicate Combined(m: Matcher, snap: Snapshot, name: string) {
    if snap.alternatives == [] then name == ""
    else exists i | 0 <= i < |snap.alternatives| :: m(snap.alternatives[i], name)
  }

  function Matching(m: Matcher, attrib: seq<Attrib>, name: string): (r: seq<Attrib>)
    ensures forall i | 0 <= i < |r| :: r[i] in attrib && m(r[i].regex, name)
    ensures forall i | 0 <= i < |attrib| && m(attrib[i].regex, name) :: attrib[i] in r
  {
    if attrib == [] then [] else
    var rest := Matching(m, attrib[..|attrib| - 1], name);
    var last := attrib[|attrib| - 1];
    if m(last.regex, name) then rest + [last] else rest
  }

  function FirstId(r: seq<Attrib>): Option<RuleId> { if r == [] then None else Some(r[0].ruleId) }

  predicate Sorted(s: seq<Attrib>) { forall i, j | 0 <= i < j < |s| :: s[i].ruleId <= s[j].ruleId }

  /** Both snapshots hold the same regexes and attribution is in id order. */
  ghost predicate Coherent(snap: Snapshot) {
    && Sorted(snap.attrib)
    && (forall a | a in snap.attrib :: a.regex in snap.alternatives)
    && (forall x | x in snap.alternatives :: exists a :: a in snap.attrib && a.regex == x)
  }

  lemma {:induction false} MatchingIsSorted(m: Matcher, attrib: seq<Attrib>, name: string)
    requires Sorted(attrib)
    ensures Sorted(Matching(m, attrib, name))
  {
    if attrib != [] {
      MatchingIsSorted(m, attrib[..|attrib| - 1], name);
    }
  }

  /** A published snapshot: coherent, or without a combined regex because there was none to compile or
      its compilation failed. */
  ghost predicate Usable(snap: Snapshot) {
    Coherent(snap) || (Sorted(snap.attrib) && snap.alternatives == [])
  }

  /** The empty regex answers for rules it knows nothing of: it takes the empty name though no rule
      matches it, and leaves a name that some rule matches. */
  predicate Astray(m: Matcher, snap: Snapshot, name: string) {
    snap.alternatives == [] && (name == "" <==> Matching(m, snap.attrib, name) == [])
  }

  /** The combined regex and the attribution disagree on a name exactly when the empty regex goes
      astray on it. */
  lemma CombinedIsAttributed(m: Matcher, snap: Snapshot, name: string)
    requires Usable(snap)
    ensures (Combined(m, snap, name) <==> Matching(m, snap.attrib, name) != []) <==> !Astray(m, snap, name)
  {
    var r := Matching(m, snap.attrib, name);
    if snap.alternatives != [] {
      if i :| 0 <= i < |snap.alternatives| && m(snap.alternatives[i], name) {
        assert snap.alternatives[i] in snap.alternatives;
        var a :| a in snap.attrib && a.regex == snap.alternatives[i];
      }
      if r != [] {
        assert r[0] in snap.attrib && r[0].regex in snap.alternatives;
      }
    }
  }

  /** With a compiled regex that happens to the empty name only, in a rule set without valid rules. */
  lemma AstrayWhenCompiled(m: Matcher, snap: Snapshot, name: string)
    requires Coherent(snap)
    ensures Astray(m, snap, name) <==> snap.alternatives == [] && name == ""
  {
    var r := Matching(m, snap.attrib, name);
    assert snap.alternatives == [] ==> snap.attrib == [] by {
      if snap.attrib != [] {
        assert snap.attrib[0] in snap.attrib && snap.attrib[0].regex in snap.alternatives;
      }
    }
  }

  /** Attribution names the smallest id among all matching rules. */
  lemma FirstIsSmallest(m: Matcher, snap: Snapshot, name: string)
    requires Sorted(snap.attrib)
    ensures match FirstId(Matching(m, snap.attrib, name))
            case None => forall a | a in snap.attrib :: !m(a.regex, name)
            case Some(id) => && (exists a | a in snap.attrib :: a.ruleId == id && m(a.regex, name))
                             && (forall a | a in snap.attrib && m(a.regex, name) :: id <= a.ruleId)
  {
    MatchingIsSorted(m, snap.attrib, name);
    var r := Matching(m, snap.attrib, name);
    if r != [] {
      assert r[0] in snap.attrib && m(r[0].regex, name);
    }
  }

  // ---------------------------------------------------------------- sorting

  /** Where a new element goes: behind every id not above its own. */
  function Place(s: seq<Attrib>, a: Attrib): (k: nat)
    requires Sorted(s)
    ensures k <= |s|
    ensures forall i | 0 <= i < k :: s[i].ruleId <= a.ruleId
    ensures forall i | k <= i < |s| :: a.ruleId < s[i].ruleId
  {
    if s == [] || s[|s| - 1].ruleId <= a.ruleId then |s| else Place(s[..|s| - 1], a)
  }

  function Insert(s: seq<Attrib>, a: Attrib): (r: seq<Attrib>)
    requires Sorted(s)
    ensures Sorted(r) && multiset(r) == multiset(s) + multiset{a}
  {
    var k := Place(s, a);
    InsertIsSorted(s, a, k);
    InsertIsComplete(s, a, k);
    s[..k] + [a] + s[k..]
  }

  lemma InsertIsSorted(s: seq<Attrib>, a: Attrib, k: nat)
    requires Sorted(s) && k <= |s|
    requires (forall i | 0 <= i < k :: s[i].ruleId <= a.ruleId) && forall i | k <= i < |s| :: a.ruleId < s[i].ruleId
    ensures Sorted(s[..k] + [a] + s[k..])
  {
    var r := s[..k] + [a] + s[k..];
    assert forall i | 0 <= i < |r| :: r[i] == if i < k then s[i] else if i == k then a else s[i - 1];
  }

  lemma InsertIsComplete(s: seq<Attrib>, a: Attrib, k: nat)
    requires k <= |s|
    ensures multiset(s[..k] + [a] + s[k..]) == multiset(s) + multiset{a}
  {
    assert s == s[..k] + s[k..];
  }

  /** The library sort by rule id. */
  method SortById(s: seq<Attrib>) returns (r: seq<Attrib>)
    ensures Sorted(r) && multiset(r) == multiset(s)
  {
    r := [];
    for i := 0 to |s|
      invariant Sorted(r) && multiset(r) == multiset(s[..i])
    {
      assert s[..i + 1] == s[..i] + [s[i]];
      r := Insert(r, s[i]);
    }
    assert s[..|s|] == s;
  }

  lemma SameElements(s: seq<Attrib>, t: seq<Attrib>)
    requires multiset(s) == multiset(t)
    ensures |s| == |t| && forall a :: a in s <==> a in t
  {
    assert |multiset(s)| == |s| && |multiset(t)| == |t|;
    forall a ensures a in s <==> a in t {
      assert a in s <==> a in multiset(s);
      assert a in t <==> a in multiset(t);
    }
  }

  /** Two arrangements in id order have the same id in front. */
  lemma FirstOfSorted(s: seq<Attrib>, t: seq<Attrib>)
    requires Sorted(s) && Sorted(t) && multiset(s) == multiset(t)
    ensures FirstId(s) == FirstId(t)
  {
    SameElements(s, t);
    if s != [] {
      assert s[0] in t && t[0] in s;
    }
  }

  // ---------------------------------------------------------------- the rule set

  /** What a rebuild publishes for a set of rules: every valid rule once, in both snapshots, or only
      in the attribution when the combined regex did not compile. */
  ghost predicate Publishes(snap: Snapshot, rules: set<Rule>, compiled: bool) {
    && Usable(snap) && |snap.attrib| == |set r | r in rules && r.valid|
    && (forall r | r in rules && r.valid :: Attrib(r.id, r.regex) in snap.attrib)
    && (forall a | a in snap.attrib :: Rule(a.ruleId, a.regex, true) in rules)
    && (if compiled then Coherent(snap) && |snap.alternatives| == |snap.attrib| else snap.alternatives == [])
  }

  /** A published rule set attributes names to its current rules. */
  lemma PublishedMatches(m: Matcher, snap: Snapshot, rules: set<Rule>, compiled: bool, name: string)
    requires Publishes(snap, rules, compiled)
    ensures Matching(m, snap.attrib, name) != [] <==> exists r | r in rules :: r.valid && m(r.regex, name)
    ensures compiled ==> (snap.alternatives == [] <==> forall r | r in rules :: !r.valid)
  {
    var found := Matching(m, snap.attrib, name);
    if found != [] {
      assert found[0] in snap.attrib;
    }
    if r :| r in rules && r.valid {
      assert Attrib(r.id, r.regex) in snap.attrib;
    } else {
      assert (set r | r in rules && r.valid) == {};
    }
  }

  /** `compiled` says whether the library took the combined regex. */
  class RuleSet {
    var rules: set<Rule>
    var snap: Snapshot

    ghost predicate Valid()
      reads this
    {
      Usable(snap)
    }

    constructor ()
      ensures Valid() && rules == {} && snap == Blank
    {
      rules, snap := {}, Blank;
    }

    /** Rebuild both snapshots from the rules, which are visited in no particular order. */
    method Rebuild(compiled: bool)
      modifies this`snap
      ensures Publishes(snap, rules, compiled)
    {
      var alternatives: seq<string> := [];
      var attrib: seq<Attrib> := [];
      var rest := rules;
      ghost var done: set<Rule> := {};
      while rest != {}
        invariant rest <= rules && done == (set r | r in rules - rest && r.valid)
        invariant |attrib| == |alternatives| == |done|
        invariant forall i | 0 <= i < |attrib| ::
          attrib[i].regex == alternatives[i] && Rule(attrib[i].ruleId, attrib[i].regex, true) in done
        invariant forall r | r in done :: Attrib(r.id, r.regex) in attrib
      {
        var r :| r in rest;
        rest := rest - {r};
        if r.valid {
          assert r !in done;
          done := done + {r};
          alternatives := alternatives + [r.regex];
          attrib := attrib + [Attrib(r.id, r.regex)];
        }
      }
      assert done == set r | r in rules && r.valid;
      var sorted := SortById(attrib);
      SortKeepsPairs(alternatives, attrib, sorted, done);
      snap := Snapshot(if compiled then alternatives else [], sorted);
    }

    method Add(rule: Rule, compile: bool, compiled: bool)
      requires Valid()
      modifies this`rules, this`snap
      ensures Valid() && rules == old(rules) + {rule}
      ensures if compile then Publishes(snap, rules, compiled) else snap == old(snap)
    {
      rules := rules + {rule};
      if compile { Rebuild(compiled); }
    }

    method Remove(rule: Rule, compile: bool, compiled: bool)
      requires Valid()
      modifies this`rules, this`snap
      ensures Valid() && rules == old(rules) - {rule}
      ensures if compile then Publishes(snap, rules, compiled) else snap == old(snap)
    {
      rules := rules - {rule};
      if compile { Rebuild(compiled); }
    }

    method Reset(compiled: bool)
      requires Valid()
      modifies this`rules, this`snap
      ensures Valid() && rules == {} && snap == Blank
    {
      rules := {};
      Rebuild(compiled);
      assert (set r: Rule | r in {} && r.valid) == {};
    }
  }

  method MatchFirstRuleId(m: Matcher, snap: Snapshot, name: string) returns (id: Option<RuleId>)
    ensures id == FirstId(Matching(m, snap.attrib, name))
  {
    for i := 0 to |snap.attrib|
      invariant Matching(m, snap.attrib[..i], name) == []
    {
      assert snap.attrib[..i + 1][..i] == snap.attrib[..i];
      if m(snap.attrib[i].regex, name) {
        FirstSurvives(m, snap.attrib, i + 1, name);
        return Some(snap.attrib[i].ruleId);
      }
    }
    assert snap.attrib[..|snap.attrib|] == snap.attrib;
    return None;
  }

  /** `ids` are the rules found, sorted by id and capped. */
  ghost predicate ListedAs(found: seq<Attrib>, winner: Option<RuleId>, ids: seq<RuleId>) {
    exists sorted, capped {:trigger IsCap(sorted, winner, capped)} ::
      Sorted(sorted) && multiset(sorted) == multiset(found) && IsCap(sorted, winner, capped) && ids == Ids(capped)
  }

  /** The matching rules of a stage as the explain trace lists them. */
  method MatchingExplainSnapshots(m: Matcher, snap: Snapshot, name: Option<string>, winner: Option<RuleId>)
    returns (ids: seq<RuleId>, truncated: bool, omitted: Option<nat>)
    ensures var found := if name.Some? then Matching(m, snap.attrib, name.value) else [];
      ListedAs(found, winner, ids) && omitted == Omitted(|found|) && truncated == omitted.Some?
  {
    if snap.attrib == [] || name == None {
      ghost var none: seq<Attrib> := [];
      assert IsCap(none, winner, none) && Ids(none) == [];
      return [], false, None;
    }
    var found := CollectMatching(m, snap.attrib, name.value);
    var out := SortById(found);
    SameElements(found, out);
    var capped;
    capped, truncated, omitted := CapCandidateSnapshots(out, winner);
    ids := Ids(capped);
  }

  method CollectMatching(m: Matcher, attrib: seq<Attrib>, name: string) returns (out: seq<Attrib>)
    ensures out == Matching(m, attrib, name)
  {
    out := [];
    for i := 0 to |attrib|
      invariant out == Matching(m, attrib[..i], name)
    {
      assert attrib[..i + 1][..i] == attrib[..i];
      if m(attrib[i].regex, name) { out := out + [attrib[i]]; }
    }
    assert attrib[..|attrib|] == attrib;
  }

  lemma SortKeepsPairs(alternatives: seq<string>, attrib: seq<Attrib>, sorted: seq<Attrib>, done: set<Rule>)
    requires |attrib| == |alternatives| && Sorted(sorted) && multiset(sorted) == multiset(attrib)
    requires forall i | 0 <= i < |attrib| ::
      attrib[i].regex == alternatives[i] && Rule(attrib[i].ruleId, attrib[i].regex, true) in done
    requires forall r | r in done :: Attrib(r.id, r.regex) in attrib
    ensures Coherent(Snapshot(alternatives, sorted)) && |sorted| == |attrib|
    ensures forall a | a in sorted :: Rule(a.ruleId, a.regex, true) in done
    ensures forall r | r in done :: Attrib(r.id, r.regex) in sorted
  {
    SameElements(attrib, sorted);
    forall x | x in alternatives ensures exists a :: a in sorted && a.regex == x {
      var i :| 0 <= i < |alternatives| && alternatives[i] == x;
      assert attrib[i] in attrib;
    }
  }

  lemma {:induction false} FirstSurvives(m: Matcher, attrib: seq<Attrib>, n: nat, name: string)
    requires n <= |attrib| && Matching(m, attrib[..n], name) != []
    ensures FirstId(Matching(m, attrib, name)) == FirstId(Matching(m, attrib[..n], name))
    decreases |attrib|
  {
    if n == |attrib| {
      assert attrib[..n] == attrib;
    } else {
      var front := attrib[..|attrib| - 1];
      assert front[..n] == attrib[..n];
      FirstSurvives(m, front, n, name);
    }
  }

  // ---------------------------------------------------------------- the cap

  const MaxCandidates: nat := 64

  function Omitted(n: nat): Option<nat> { if n > MaxCandidates then Some(n - MaxCandidates) else None }

  ghost predicate HasId(s: seq<Attrib>, id: RuleId) { exists a | a in s :: a.ruleId == id }

  /** The first 63 stay, the last place is filled from further back, and a named winner is kept; without
      one the first 64 stay. */
  ghost predicate IsCap(all: seq<Attrib>, winner: Option<RuleId>, capped: seq<Attrib>) {
    && (|all| <= MaxCandidates ==> capped == all)
    && (|all| > MaxCandidates ==>
      exists k | MaxCandidates - 1 <= k < |all| :: capped == all[..MaxCandidates - 1] + [all[k]])
    && (|all| > MaxCandidates && winner == None ==> capped == all[..MaxCandidates])
    && (winner.Some? && HasId(all, winner.value) ==> HasId(capped, winner.value))
  }

  function Ids(r: seq<Attrib>): (ids: seq<RuleId>)
    ensures |ids| == |r| && forall i | 0 <= i < |r| :: ids[i] == r[i].ruleId
  {
    if r == [] then [] else Ids(r[..|r| - 1]) + [r[|r| - 1].ruleId]
  }

  method CapCandidateSnapshots(snapshots: seq<Attrib>, winner: Option<RuleId>)
    returns (capped: seq<Attrib>, truncated: bool, omitted: Option<nat>)
    ensures IsCap(snapshots, winner, capped) && omitted == Omitted(|snapshots|) && truncated == omitted.Some?
  {
    truncated, omitted := false, None;
    if |snapshots| <= MaxCandidates { return snapshots, false, None; }
    truncated, omitted := true, Some(|snapshots| - MaxCandidates);
    var keep := MaxCandidates - 1;
    capped := snapshots[..keep];
    var kept := winner.None? || exists i | 0 <= i < |capped| :: capped[i].ruleId == winner.value;
    ghost var place := keep;
    if !kept {
      var at := FindWinner(snapshots, winner.value);
      if at < |snapshots| {
        capped := capped + [snapshots[at]];
        place := at;
        assert capped[keep] in capped;
      }
    }
    while |capped| < MaxCandidates
      invariant |capped| <= MaxCandidates && keep <= place < |snapshots|
      invariant (capped == snapshots[..keep] && place == keep) || capped == snapshots[..keep] + [snapshots[place]]
      invariant winner == None ==> place == keep
      invariant winner.Some? && HasId(snapshots, winner.value) ==> HasId(capped, winner.value)
      decreases MaxCandidates - |capped|
    {
      capped := capped + [snapshots[|capped|]];
    }
  }

  method FindWinner(snapshots: seq<Attrib>, id: RuleId) returns (at: nat)
    ensures at <= |snapshots|
    ensures at < |snapshots| ==> snapshots[at].ruleId == id
    ensures forall i | 0 <= i < at :: snapshots[i].ruleId != id
  {
    at := 0;
    while at < |snapshots| && snapshots[at].ruleId != id
      invariant at <= |snapshots| && forall i | 0 <= i < at :: snapshots[i].ruleId != id
    {
      at := at + 1;
    }
  }
}
