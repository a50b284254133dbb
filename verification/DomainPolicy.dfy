/** The domain verdict, which the program computes in four places: a bare verdict, one with its
    source, one with the attributed rule, and one with an explain trace. */
module DomainPolicy {
  import opened Wrappers
  import opened CustomRules

  datatype Color = Black | White | Grey

  datatype Source = CustomWhitelist | CustomBlacklist | CustomRuleWhite | CustomRuleBlack
    | DeviceWideAuthorized | DeviceWideBlocked | MaskFallback

  datatype Domain = Domain(id: nat, name: string, color: Color, blockMask: bv8)

  /** Lists hold domain identities. */
  datatype Lists = Lists(white: set<nat>, black: set<nat>, whiteRules: Snapshot, blackRules: Snapshot)

  datatype Policy = Policy(useCustomList: bool, blockMask: bv8, app: Lists, device: Lists)

  /** Snapshots as the rule sets publish them. */
  ghost predicate Published(p: Policy) {
    Usable(p.app.whiteRules) && Usable(p.app.blackRules) && Usable(p.device.whiteRules) && Usable(p.device.blackRules)
  }

  /** No combined regex has failed to compile. */
  ghost predicate Compiled(p: Policy) {
    && Coherent(p.app.whiteRules) && Coherent(p.app.blackRules)
    && Coherent(p.device.whiteRules) && Coherent(p.device.blackRules)
  }

  // ---------------------------------------------------------------- three plain evaluators

  predicate MaskBlocks(appMask: bv8, domMask: bv8) { appMask & domMask != 0 }

  predicate Authorized(m: Matcher, device: Lists, d: Domain) {
    d.id in device.white || Combined(m, device.whiteRules, d.name)
  }

  predicate DeviceBlocked(m: Matcher, device: Lists, d: Domain) {
    d.id in device.black || (Combined(m, device.blackRules, d.name) && !Combined(m, device.whiteRules, d.name))
  }

  function FirstRule(m: Matcher, snap: Snapshot, name: string): Option<RuleId> {
    FirstId(Matching(m, snap.attrib, name))
  }

  function AuthorizedRuleId(m: Matcher, device: Lists, d: Domain): Option<RuleId> {
    if d.id in device.white then None else FirstRule(m, device.whiteRules, d.name)
  }

  function BlockedRuleId(m: Matcher, device: Lists, d: Domain): Option<RuleId> {
    if d.id in device.black then None
    else if !Combined(m, device.blackRules, d.name) || Combined(m, device.whiteRules, d.name) then None
    else FirstRule(m, device.blackRules, d.name)
  }

  function Blocked(m: Matcher, p: Policy, blockEnabled: bool, domain: Option<Domain>): (bool, Color) {
    if domain.None? || !blockEnabled then (false, Grey) else
    var d := domain.value;
    if p.useCustomList && d.id in p.app.white then (false, d.color)
    else if p.useCustomList && d.id in p.app.black then (true, d.color)
    else if p.useCustomList && Combined(m, p.app.whiteRules, d.name) then (false, d.color)
    else if p.useCustomList && Combined(m, p.app.blackRules, d.name) then (true, d.color)
    else if p.useCustomList && Authorized(m, p.device, d) then (false, d.color)
    else if p.useCustomList && DeviceBlocked(m, p.device, d) then (true, d.color)
    else (MaskBlocks(p.blockMask, d.blockMask), d.color)
  }

  datatype Sourced = Sourced(blocked: bool, color: Color, source: Source)

  function BlockedWithSource(m: Matcher, p: Policy, blockEnabled: bool, domain: Option<Domain>): Sourced {
    if domain.None? || !blockEnabled then Sourced(false, Grey, MaskFallback) else
    var d := domain.value;
    if p.useCustomList && d.id in p.app.white then Sourced(false, d.color, CustomWhitelist)
    else if p.useCustomList && d.id in p.app.black then Sourced(true, d.color, CustomBlacklist)
    else if p.useCustomList && Combined(m, p.app.whiteRules, d.name) then Sourced(false, d.color, CustomRuleWhite)
    else if p.useCustomList && Combined(m, p.app.blackRules, d.name) then Sourced(true, d.color, CustomRuleBlack)
    else if p.useCustomList && Authorized(m, p.device, d) then Sourced(false, d.color, DeviceWideAuthorized)
    else if p.useCustomList && DeviceBlocked(m, p.device, d) then Sourced(true, d.color, DeviceWideBlocked)
    else Sourced(MaskBlocks(p.blockMask, d.blockMask), d.color, MaskFallback)
  }

  datatype Verdict = Verdict(blocked: bool, color: Color, source: Source, ruleId: Option<RuleId>)

  function BlockedWithRule(m: Matcher, p: Policy, blockEnabled: bool, domain: Option<Domain>): Verdict {
    if domain.None? || !blockEnabled then Verdict(false, Grey, MaskFallback, None) else
    var d := domain.value;
    if p.useCustomList && d.id in p.app.white then Verdict(false, d.color, CustomWhitelist, None)
    else if p.useCustomList && d.id in p.app.black then Verdict(true, d.color, CustomBlacklist, None)
    else if p.useCustomList && Combined(m, p.app.whiteRules, d.name) then
      Verdict(false, d.color, CustomRuleWhite, FirstRule(m, p.app.whiteRules, d.name))
    else if p.useCustomList && Combined(m, p.app.blackRules, d.name) then
      Verdict(true, d.color, CustomRuleBlack, FirstRule(m, p.app.blackRules, d.name))
    else if p.useCustomList && Authorized(m, p.device, d) then
      Verdict(false, d.color, DeviceWideAuthorized, AuthorizedRuleId(m, p.device, d))
    else if p.useCustomList && DeviceBlocked(m, p.device, d) then
      Verdict(true, d.color, DeviceWideBlocked, BlockedRuleId(m, p.device, d))
    else Verdict(MaskBlocks(p.blockMask, d.blockMask), d.color, MaskFallback, None)
  }

  lemma SourcedAgrees(m: Matcher, p: Policy, blockEnabled: bool, domain: Option<Domain>)
    ensures var v := BlockedWithRule(m, p, blockEnabled, domain);
            BlockedWithSource(m, p, blockEnabled, domain) == Sourced(v.blocked, v.color, v.source)
  {
  }

  lemma BlockedAgrees(m: Matcher, p: Policy, blockEnabled: bool, domain: Option<Domain>)
    ensures var v := BlockedWithSource(m, p, blockEnabled, domain);
            Blocked(m, p, blockEnabled, domain) == (v.blocked, v.color)
  {
  }

  /** The three plain evaluators never differ in what they share. */
  lemma PlainEvaluatorsAgree(m: Matcher, p: Policy, blockEnabled: bool, domain: Option<Domain>)
    ensures var v := BlockedWithRule(m, p, blockEnabled, domain);
            && BlockedWithSource(m, p, blockEnabled, domain) == Sourced(v.blocked, v.color, v.source)
            && Blocked(m, p, blockEnabled, domain) == (v.blocked, v.color)
  {
    SourcedAgrees(m, p, blockEnabled, domain);
    BlockedAgrees(m, p, blockEnabled, domain);
  }

  // ---------------------------------------------------------------- the reference

  /** One step of the policy: does the domain hit it by list entry, by which rules, and with what
      effect. */
  datatype Step = Step(
    source: Source, enabled: bool, blocks: bool, listed: bool, rule: Option<RuleId>, matches: nat,
    mask: Option<MaskEvidence>)

  datatype MaskEvidence = MaskEvidence(domMask: bv8, appMask: bv8, effectiveMask: bv8, blocked: bool)

  predicate Hits(s: Step) { s.enabled && (s.listed || s.rule.Some? || s.mask.Some?) }

  function Attributed(s: Step): Option<RuleId> { if s.listed then None else s.rule }

  predicate Has(ids: set<nat>, domain: Option<Domain>) { domain.Some? && domain.value.id in ids }

  /** The smallest matching rule id. */
  function RuleFor(m: Matcher, snap: Snapshot, domain: Option<Domain>): Option<RuleId> {
    if domain.None? then None else FirstRule(m, snap, domain.value.name)
  }

  function MaskOf(domain: Option<Domain>): bv8 { if domain.Some? then domain.value.blockMask else 0 }

  function Matches(m: Matcher, snap: Snapshot, domain: Option<Domain>): nat {
    if domain.None? then 0 else |Matching(m, snap.attrib, domain.value.name)|
  }

  function Evidence(appMask: bv8, domMask: bv8): MaskEvidence {
    MaskEvidence(domMask, appMask, appMask & domMask, MaskBlocks(appMask, domMask))
  }

  function ListStep(source: Source, enabled: bool, blocks: bool, ids: set<nat>, m: Matcher, snap: Snapshot,
                    domain: Option<Domain>): Step {
    Step(source, enabled, blocks, Has(ids, domain), RuleFor(m, snap, domain), Matches(m, snap, domain), None)
  }

  /** The policy in order of precedence. */
  function Steps(m: Matcher, p: Policy, blockEnabled: bool, domain: Option<Domain>): (r: seq<Step>)
    ensures |r| == 7
  {
    var custom := blockEnabled && p.useCustomList;
    [ListStep(CustomWhitelist, custom, false, p.app.white, m, Blank, domain),
     ListStep(CustomBlacklist, custom, true, p.app.black, m, Blank, domain),
     ListStep(CustomRuleWhite, custom, false, {}, m, p.app.whiteRules, domain),
     ListStep(CustomRuleBlack, custom, true, {}, m, p.app.blackRules, domain),
     ListStep(DeviceWideAuthorized, custom, false, p.device.white, m, p.device.whiteRules, domain),
     ListStep(DeviceWideBlocked, custom, true, p.device.black, m, p.device.blackRules, domain),
     Step(MaskFallback, blockEnabled, MaskBlocks(p.blockMask, MaskOf(domain)), false, None, 0,
          Some(Evidence(p.blockMask, MaskOf(domain))))]
  }

  /** The first step that hits. */
  function FirstHit(steps: seq<Step>): (k: nat)
    ensures k <= |steps|
    ensures k < |steps| ==> Hits(steps[k])
    ensures forall i | 0 <= i < k :: !Hits(steps[i])
  {
    if steps == [] then 0 else if Hits(steps[0]) then 0 else FirstHit(steps[1..]) + 1
  }

  /** The reference verdict: the first step that hits decides; with blocking off nothing does. */
  function Reference(m: Matcher, p: Policy, blockEnabled: bool, domain: Option<Domain>): Verdict {
    var steps := Steps(m, p, blockEnabled, domain);
    var k := FirstHit(steps);
    var color := if domain.Some? && blockEnabled then domain.value.color else Grey;
    if k == |steps| then Verdict(false, color, MaskFallback, None)
    else Verdict(steps[k].blocks, color, steps[k].source, Attributed(steps[k]))
  }

  /** The domain reaches a rule set whose empty regex goes astray on its name. */
  predicate Spurious(m: Matcher, p: Policy, blockEnabled: bool, domain: Option<Domain>) {
    blockEnabled && p.useCustomList && domain.Some?
    && (AppAstray(m, p, domain.value) || DeviceAstray(m, p, domain.value))
  }

  predicate AppAstray(m: Matcher, p: Policy, d: Domain) {
    && d.id !in p.app.white && d.id !in p.app.black
    && (Astray(m, p.app.whiteRules, d.name) ||
        (!Combined(m, p.app.whiteRules, d.name) && Astray(m, p.app.blackRules, d.name)))
  }

  predicate DeviceAstray(m: Matcher, p: Policy, d: Domain) {
    && !AppDecides(m, p, d) && d.id !in p.device.white
    && (Astray(m, p.device.whiteRules, d.name) ||
        (!Combined(m, p.device.whiteRules, d.name) && d.id !in p.device.black
         && Astray(m, p.device.blackRules, d.name)))
  }

  predicate AppDecides(m: Matcher, p: Policy, d: Domain) {
    d.id in p.app.white || d.id in p.app.black
    || Combined(m, p.app.whiteRules, d.name) || Combined(m, p.app.blackRules, d.name)
  }

  lemma RulesAgree(m: Matcher, snap: Snapshot, name: string)
    requires Usable(snap)
    ensures Agree(m, snap, name) <==> !Astray(m, snap, name)
  {
    CombinedIsAttributed(m, snap, name);
  }

  lemma FirstHitIs(steps: seq<Step>, k: nat)
    requires k <= |steps| && (k < |steps| ==> Hits(steps[k])) && forall i | 0 <= i < k :: !Hits(steps[i])
    ensures FirstHit(steps) == k
  {
  }

  lemma ReferenceWithoutCustom(m: Matcher, p: Policy, blockEnabled: bool, domain: Option<Domain>)
    requires !(blockEnabled && p.useCustomList && domain.Some?)
    ensures BlockedWithRule(m, p, blockEnabled, domain) == Reference(m, p, blockEnabled, domain)
  {
    FirstHitIs(Steps(m, p, blockEnabled, domain), if blockEnabled then 6 else 7);
    assert p.blockMask & 0 == 0;
  }

  /** The place of the step whose source a verdict names. */
  function PlaceOf(source: Source): nat {
    match source
    case CustomWhitelist => 0
    case CustomBlacklist => 1
    case CustomRuleWhite => 2
    case CustomRuleBlack => 3
    case DeviceWideAuthorized => 4
    case DeviceWideBlocked => 5
    case MaskFallback => 6
  }

  lemma ReferenceAt(m: Matcher, p: Policy, d: Domain, k: nat)
    requires k < 7 && var steps := Steps(m, p, true, Some(d));
               Hits(steps[k]) && forall i | 0 <= i < k :: !Hits(steps[i])
    ensures var s := Steps(m, p, true, Some(d))[k];
            Reference(m, p, true, Some(d)) == Verdict(s.blocks, d.color, s.source, Attributed(s))
  {
    FirstHitIs(Steps(m, p, true, Some(d)), k);
  }

  /** The combined regex and the attribution say the same of a name. */
  predicate Agree(m: Matcher, snap: Snapshot, name: string) {
    Combined(m, snap, name) <==> FirstRule(m, snap, name).Some?
  }

  predicate AppAgrees(m: Matcher, p: Policy, d: Domain) {
    || d.id in p.app.white || d.id in p.app.black
    || (Agree(m, p.app.whiteRules, d.name)
        && (Combined(m, p.app.whiteRules, d.name) || Agree(m, p.app.blackRules, d.name)))
  }

  predicate DeviceAgrees(m: Matcher, p: Policy, d: Domain) {
    || d.id in p.device.white
    || (Agree(m, p.device.whiteRules, d.name)
        && (Combined(m, p.device.whiteRules, d.name) || d.id in p.device.black
            || Agree(m, p.device.blackRules, d.name)))
  }

  lemma UnlessSpurious(m: Matcher, p: Policy, d: Domain)
    requires Published(p) && p.useCustomList && !Spurious(m, p, true, Some(d))
    ensures AppAgrees(m, p, d) && (AppDecides(m, p, d) || DeviceAgrees(m, p, d))
  {
    RulesAgree(m, p.app.whiteRules, d.name);
    RulesAgree(m, p.app.blackRules, d.name);
    RulesAgree(m, p.device.whiteRules, d.name);
    RulesAgree(m, p.device.blackRules, d.name);
  }

  lemma ReferenceForLists(m: Matcher, p: Policy, d: Domain)
    requires p.useCustomList && (d.id in p.app.white || d.id in p.app.black)
    ensures BlockedWithRule(m, p, true, Some(d)) == Reference(m, p, true, Some(d))
  {
    ReferenceAt(m, p, d, if d.id in p.app.white then 0 else 1);
  }

  lemma ReferenceForRules(m: Matcher, p: Policy, d: Domain)
    requires p.useCustomList && d.id !in p.app.white && d.id !in p.app.black
    requires AppAgrees(m, p, d) && AppDecides(m, p, d)
    ensures BlockedWithRule(m, p, true, Some(d)) == Reference(m, p, true, Some(d))
  {
    ReferenceAt(m, p, d, if Combined(m, p.app.whiteRules, d.name) then 2 else 3);
  }

  lemma ReferenceForApp(m: Matcher, p: Policy, d: Domain)
    requires p.useCustomList && AppAgrees(m, p, d) && AppDecides(m, p, d)
    ensures BlockedWithRule(m, p, true, Some(d)) == Reference(m, p, true, Some(d))
  {
    if d.id in p.app.white || d.id in p.app.black {
      ReferenceForLists(m, p, d);
    } else {
      ReferenceForRules(m, p, d);
    }
  }

  lemma ReferenceForDevice(m: Matcher, p: Policy, d: Domain)
    requires p.useCustomList && AppAgrees(m, p, d) && !AppDecides(m, p, d) && DeviceAgrees(m, p, d)
    ensures BlockedWithRule(m, p, true, Some(d)) == Reference(m, p, true, Some(d))
  {
    ReferenceAt(m, p, d, if Authorized(m, p.device, d) then 4 else if DeviceBlocked(m, p.device, d) then 5 else 6);
  }

  lemma SourceIs(m: Matcher, p: Policy, d: Domain, k: nat)
    requires k < 7
    ensures var steps := Steps(m, p, true, Some(d));
            && PlaceOf(Reference(m, p, true, Some(d)).source) == FirstHit(steps)
            && ((forall i | 0 <= i < k :: !Hits(steps[i])) && Hits(steps[k]) ==> FirstHit(steps) == k)
  {
    var steps := Steps(m, p, true, Some(d));
    assert Hits(steps[6]) && forall i | 0 <= i < 7 :: PlaceOf(steps[i].source) == i;
    if (forall i | 0 <= i < k :: !Hits(steps[i])) && Hits(steps[k]) {
      FirstHitIs(steps, k);
    }
  }

  /** The first rule set on which regex and attribution disagree parts the verdicts: one of them
      decides there and the other does not. */
  lemma AppParts(m: Matcher, p: Policy, d: Domain)
    requires p.useCustomList && d.id !in p.app.white && d.id !in p.app.black
    requires Agree(m, p.app.whiteRules, d.name) ==>
      !Combined(m, p.app.whiteRules, d.name) && !Agree(m, p.app.blackRules, d.name)
    ensures BlockedWithRule(m, p, true, Some(d)).source != Reference(m, p, true, Some(d)).source
  {
    SourceIs(m, p, d, if Agree(m, p.app.whiteRules, d.name) then 3 else 2);
  }

  lemma DeviceBlackParts(m: Matcher, p: Policy, d: Domain)
    requires p.useCustomList && !AppDecides(m, p, d) && AppAgrees(m, p, d) && d.id !in p.device.white
    requires Agree(m, p.device.whiteRules, d.name) && !Combined(m, p.device.whiteRules, d.name)
    requires d.id !in p.device.black && !Agree(m, p.device.blackRules, d.name)
    ensures BlockedWithRule(m, p, true, Some(d)).source != Reference(m, p, true, Some(d)).source
  {
    SourceIs(m, p, d, 5);
  }

  lemma DeviceParts(m: Matcher, p: Policy, d: Domain)
    requires p.useCustomList && !AppDecides(m, p, d) && AppAgrees(m, p, d) && d.id !in p.device.white
    requires Agree(m, p.device.whiteRules, d.name) ==>
      !Combined(m, p.device.whiteRules, d.name) && d.id !in p.device.black && !Agree(m, p.device.blackRules, d.name)
    ensures BlockedWithRule(m, p, true, Some(d)).source != Reference(m, p, true, Some(d)).source
  {
    if Agree(m, p.device.whiteRules, d.name) {
      DeviceBlackParts(m, p, d);
    } else {
      SourceIs(m, p, d, 4);
    }
  }

  lemma SpuriousDiffers(m: Matcher, p: Policy, d: Domain)
    requires Published(p) && Spurious(m, p, true, Some(d))
    ensures BlockedWithRule(m, p, true, Some(d)).source != Reference(m, p, true, Some(d)).source
  {
    RulesAgree(m, p.app.whiteRules, d.name);
    RulesAgree(m, p.app.blackRules, d.name);
    RulesAgree(m, p.device.whiteRules, d.name);
    RulesAgree(m, p.device.blackRules, d.name);
    if AppAstray(m, p, d) {
      AppParts(m, p, d);
    } else {
      DeviceParts(m, p, d);
    }
  }

  /** The plain evaluators compute the reference verdict exactly when no empty regex goes astray on the
      way. */
  lemma PlainIsReference(m: Matcher, p: Policy, blockEnabled: bool, domain: Option<Domain>)
    requires Published(p)
    ensures BlockedWithRule(m, p, blockEnabled, domain) == Reference(m, p, blockEnabled, domain)
      <==> !Spurious(m, p, blockEnabled, domain)
  {
    if !(blockEnabled && p.useCustomList && domain.Some?) {
      ReferenceWithoutCustom(m, p, blockEnabled, domain);
    } else if Spurious(m, p, blockEnabled, domain) {
      SpuriousDiffers(m, p, domain.value);
    } else {
      UnlessSpurious(m, p, domain.value);
      if AppDecides(m, p, domain.value) {
        ReferenceForApp(m, p, domain.value);
      } else {
        ReferenceForDevice(m, p, domain.value);
      }
    }
  }

  /** On every name that is not empty, and with every combined regex compiled, the plain evaluators give
      the reference verdict: the four evaluators agree on all names the program admits. */
  lemma AgreeOnAdmittedNames(m: Matcher, p: Policy, blockEnabled: bool, d: Domain)
    requires Compiled(p) && d.name != ""
    ensures BlockedWithRule(m, p, blockEnabled, Some(d)) == Reference(m, p, blockEnabled, Some(d))
  {
    AstrayWhenCompiled(m, p.app.whiteRules, d.name);
    AstrayWhenCompiled(m, p.app.blackRules, d.name);
    AstrayWhenCompiled(m, p.device.whiteRules, d.name);
    AstrayWhenCompiled(m, p.device.blackRules, d.name);
    PlainIsReference(m, p, blockEnabled, Some(d));
  }

  /** Why the empty name must not be admitted: without any rule it is allowed for an app rule that does
      not exist, where the trace blocks it by its mask. */
  lemma EmptyNameDiffers(m: Matcher)
    ensures var p := Policy(true, 1, Lists({}, {}, Blank, Blank), Lists({}, {}, Blank, Blank));
            var d := Some(Domain(0, "", Grey, 1));
            && BlockedWithRule(m, p, true, d) == Verdict(false, Grey, CustomRuleWhite, None)
            && Reference(m, p, true, d) == Verdict(true, Grey, MaskFallback, None)
  {
    var p := Policy(true, 1, Lists({}, {}, Blank, Blank), Lists({}, {}, Blank, Blank));
    var d := Some(Domain(0, "", Grey, 1));
    FirstHitIs(Steps(m, p, true, d), 6);
    assert (1 as bv8) & 1 != 0;
  }

  lemma FirstOfTwo(m: Matcher, x: string, y: string, name: string)
    requires m(x, name) && !m(y, name)
    ensures Matching(m, [Attrib(1, x), Attrib(2, y)], name) == [Attrib(1, x)]
  {
    var one, two := [Attrib(1, x)], [Attrib(1, x), Attrib(2, y)];
    assert two[..1] == one && one[..0] == [];
    assert Matching(m, one, name) == [] + one;
  }

  /** Two blocking rules that compile apart but not together: the one that matches is listed by the trace
      as the reason to block, and passed over by the plain evaluators. */
  lemma FailedCompilationDiffers(m: Matcher, x: string, y: string, name: string)
    requires name != "" && m(x, name) && !m(y, name)
    ensures var black := Snapshot([], [Attrib(1, x), Attrib(2, y)]);
            var p := Policy(true, 0, Lists({}, {}, Blank, black), Lists({}, {}, Blank, Blank));
            var d := Some(Domain(0, name, Grey, 0));
            && Published(p)
            && BlockedWithRule(m, p, true, d) == Verdict(false, Grey, MaskFallback, None)
            && Reference(m, p, true, d) == Verdict(true, Grey, CustomRuleBlack, Some(1))
  {
    FirstOfTwo(m, x, y, name);
    var black := Snapshot([], [Attrib(1, x), Attrib(2, y)]);
    var p := Policy(true, 0, Lists({}, {}, Blank, black), Lists({}, {}, Blank, Blank));
    FirstHitIs(Steps(m, p, true, Some(Domain(0, name, Grey, 0))), 3);
    assert (0 as bv8) & 0 == 0;
  }

  // ---------------------------------------------------------------- the mask

  /** List i is in the mask. */
  predicate InMask(mask: bv8, i: nat)
    requires i < 8
  {
    mask & (match i
            case 0 => 1 case 1 => 2 case 2 => 4 case 3 => 8
            case 4 => 16 case 5 => 32 case 6 => 64 case 7 => 128) != 0
  }

  /** Some list is in both masks. */
  ghost predicate Share(a: bv8, b: bv8) { exists i | 0 <= i < 8 :: InMask(a, i) && InMask(b, i) }

  lemma ShareIsOverlap(a: bv8, b: bv8)
    ensures Share(a, b) <==> a & b != 0
  {
    OverlapBits(a, b);
    if Share(a, b) {
      var i :| 0 <= i < 8 && InMask(a, i) && InMask(b, i);
    }
    assert a & 1 != 0 && b & 1 != 0 ==> InMask(a, 0) && InMask(b, 0);
    assert a & 2 != 0 && b & 2 != 0 ==> InMask(a, 1) && InMask(b, 1);
    assert a & 4 != 0 && b & 4 != 0 ==> InMask(a, 2) && InMask(b, 2);
    assert a & 8 != 0 && b & 8 != 0 ==> InMask(a, 3) && InMask(b, 3);
    assert a & 16 != 0 && b & 16 != 0 ==> InMask(a, 4) && InMask(b, 4);
    assert a & 32 != 0 && b & 32 != 0 ==> InMask(a, 5) && InMask(b, 5);
    assert a & 64 != 0 && b & 64 != 0 ==> InMask(a, 6) && InMask(b, 6);
    assert a & 128 != 0 && b & 128 != 0 ==> InMask(a, 7) && InMask(b, 7);
  }

  lemma OverlapBits(a: bv8, b: bv8)
    ensures a & b != 0 <==>
      || (a & 1 != 0 && b & 1 != 0) || (a & 2 != 0 && b & 2 != 0) || (a & 4 != 0 && b & 4 != 0)
      || (a & 8 != 0 && b & 8 != 0) || (a & 16 != 0 && b & 16 != 0) || (a & 32 != 0 && b & 32 != 0)
      || (a & 64 != 0 && b & 64 != 0) || (a & 128 != 0 && b & 128 != 0)
  {
  }

  lemma MaskIsShare(a: bv8, b: bv8)
    ensures MaskBlocks(a, b) <==> Share(a, b)
  {
    ShareIsOverlap(a, b);
  }

  /** Neither the app's nor the device's lists and rules say anything of the domain. */
  predicate Unlisted(m: Matcher, p: Policy, d: Domain) {
    && d.id !in p.app.white && d.id !in p.app.black && d.id !in p.device.white && d.id !in p.device.black
    && !Combined(m, p.app.whiteRules, d.name) && !Combined(m, p.app.blackRules, d.name)
    && !Combined(m, p.device.whiteRules, d.name) && !Combined(m, p.device.blackRules, d.name)
  }

  lemma FallsThrough(m: Matcher, p: Policy, d: Domain)
    requires !p.useCustomList || Unlisted(m, p, d)
    ensures BlockedWithRule(m, p, true, Some(d)) ==
      Verdict(MaskBlocks(p.blockMask, d.blockMask), d.color, MaskFallback, None)
  {
  }

  /** Without a custom list, or when none says anything, a domain is blocked exactly when the app blocks a
      list that the domain is on. */
  lemma MaskDecides(m: Matcher, p: Policy, d: Domain)
    requires !p.useCustomList || Unlisted(m, p, d)
    ensures var v := BlockedWithRule(m, p, true, Some(d));
      v.source == MaskFallback && v.ruleId == None && (v.blocked <==> Share(p.blockMask, d.blockMask))
  {
    FallsThrough(m, p, d);
    MaskIsShare(p.blockMask, d.blockMask);
  }

  /** The evidence of a mask stage is what both masks have in common, and it blocks exactly if that is
      something. */
  lemma EvidenceIsOverlap(m: Matcher, p: Policy, domain: Option<Domain>)
    ensures var s := Steps(m, p, true, domain)[6];
      && s.mask.Some? && s.mask.value.appMask == p.blockMask
      && s.mask.value.domMask == (if domain.Some? then domain.value.blockMask else 0)
      && (forall bit {:trigger s.mask.value.effectiveMask & bit} ::
        s.mask.value.effectiveMask & bit == s.mask.value.appMask & s.mask.value.domMask & bit)
      && (s.mask.value.blocked <==> s.mask.value.effectiveMask != 0) && s.blocks == s.mask.value.blocked
  {
  }

  // ---------------------------------------------------------------- the explain trace

  datatype Outcome = Unset | Nothing | Allow | Block
  datatype Skip = Disabled | ShortCircuited
  /** One stage of the trace; a stage is named by the source it can decide for. */
  datatype Stage = Stage(
    source: Source, enabled: bool, evaluated: bool, matched: bool, outcome: Outcome, winner: bool, skip: Option<Skip>,
    listed: bool, ruleIds: seq<RuleId>, truncated: bool, omitted: Option<nat>, mask: Option<MaskEvidence>)

  function NewStage(source: Source, enabled: bool): Stage {
    Stage(source, enabled, false, false, Unset, false, None, false, [], false, None, None)
  }

  function Head(ids: seq<RuleId>): Option<RuleId> { if ids == [] then None else Some(ids[0]) }

  function Effect(blocks: bool): Outcome { if blocks then Block else Allow }

  function Shown(n: nat): nat { if n > MaxCandidates then MaxCandidates else n }

  /** What the stage of the i-th step looks like when step k is the first that hits. */
  ghost predicate StageOk(stage: Stage, step: Step, i: nat, k: nat) {
    && stage.source == step.source && stage.enabled == step.enabled
    && (stage.winner <==> i == k)
    && (stage.evaluated <==> step.enabled && i <= k)
    && (stage.matched <==> i == k)
    && (stage.evaluated ==> stage.skip == None && stage.listed == step.listed && Head(stage.ruleIds) == step.rule)
    && (stage.evaluated ==> |stage.ruleIds| == Shown(step.matches) && stage.omitted == Omitted(step.matches))
    && (!stage.evaluated ==> stage.ruleIds == [] && stage.omitted == None)
    && stage.truncated == stage.omitted.Some? && stage.mask == (if stage.evaluated then step.mask else None)
    && (stage.evaluated ==> stage.outcome == if i == k then Effect(step.blocks) else Nothing)
    && (!step.enabled ==> stage.skip == Some(Disabled))
    && (step.enabled && k < i ==> stage.skip == Some(ShortCircuited) && stage.outcome == Nothing)
  }

  ghost predicate TraceOk(stages: seq<Stage>, steps: seq<Step>) {
    |stages| == |steps| && StagesOk(stages, steps, FirstHit(steps))
  }

  /** Of the first n steps, k is the first that hits (n itself when none does). */
  ghost predicate IsFirst(all: seq<Step>, n: nat, k: nat) {
    k <= n <= |all| && (k < n ==> Hits(all[k])) && forall i | 0 <= i < k :: !Hits(all[i])
  }

  ghost predicate StagesOk(stages: seq<Stage>, all: seq<Step>, k: nat) {
    |stages| <= |all|
    && forall i {:trigger StageOk(stages[i], all[i], i, k)} | 0 <= i < |stages| :: StageOk(stages[i], all[i], i, k)
  }

  lemma StagesSnoc(stages: seq<Stage>, all: seq<Step>, k: nat, stage: Stage, k': nat)
    requires StagesOk(stages, all, k) && |stages| < |all|
    requires k' == k || |stages| <= k <= k'
    requires StageOk(stage, all[|stages|], |stages|, k')
    ensures StagesOk(stages + [stage], all, k')
  {
    forall i | 0 <= i < |stages| ensures StageOk(stages[i], all[i], i, k') {
      assert StageOk(stages[i], all[i], i, k);
    }
  }

  /** The rules a stage lists: those that match, sorted by id and capped at 64, hence the smallest
      matching id first. */
  method Candidates(m: Matcher, rules: Snapshot, domain: Option<Domain>) returns (ids: seq<RuleId>, truncated: bool,
                    omitted: Option<nat>)
    requires Sorted(rules.attrib)
    ensures domain.Some? ==> ListedAs(Matching(m, rules.attrib, domain.value.name), None, ids)
    ensures Head(ids) == RuleFor(m, rules, domain) && |ids| == Shown(Matches(m, rules, domain))
    ensures omitted == Omitted(Matches(m, rules, domain)) && truncated == omitted.Some?
    ensures |ids| <= 64 && (truncated <==> Matches(m, rules, domain) > 64)
  {
    var name := if domain.Some? then Some(domain.value.name) else None;
    ids, truncated, omitted := MatchingExplainSnapshots(m, rules, name, None);
    ghost var found := if domain.Some? then Matching(m, rules.attrib, domain.value.name) else [];
    if domain.Some? {
      MatchingIsSorted(m, rules.attrib, domain.value.name);
    }
    ListedFirst(found, ids);
  }

  lemma ListedFirst(found: seq<Attrib>, ids: seq<RuleId>)
    requires Sorted(found) && ListedAs(found, None, ids)
    ensures Head(ids) == FirstId(found) && |ids| == Shown(|found|)
  {
    var sorted, capped :| Sorted(sorted) && multiset(sorted) == multiset(found)
      && IsCap(sorted, None, capped) && ids == Ids(capped);
    FirstOfSorted(found, sorted);
    SameElements(found, sorted);
  }

  /** A stage that was tried. */
  ghost predicate Tried(stage: Stage, step: Step) {
    && stage.source == step.source && stage.enabled && stage.evaluated && stage.skip == None
    && (stage.winner <==> Hits(step)) && (stage.matched <==> Hits(step))
    && stage.outcome == (if Hits(step) then Effect(step.blocks) else Nothing)
    && stage.listed == step.listed && Head(stage.ruleIds) == step.rule && |stage.ruleIds| == Shown(step.matches)
    && stage.omitted == Omitted(step.matches) && stage.truncated == stage.omitted.Some? && stage.mask == step.mask
  }

  lemma TriedIsOk(stage: Stage, step: Step, n: nat, k: nat)
    requires Tried(stage, step) && step.enabled && k == if Hits(step) then n else n + 1
    ensures StageOk(Closed(stage, false), step, n, k)
  {
  }

  lemma SkippedIsOk(source: Source, shortCircuited: bool, step: Step, n: nat, k: nat)
    requires source == step.source && (!step.enabled || shortCircuited)
    requires if shortCircuited then k < n else k == n + 1
    ensures StageOk(Closed(NewStage(source, step.enabled), shortCircuited), step, n, k)
  {
  }

  /** Look a domain up in the list and the rules of a stage. */
  method Try(source: Source, blocks: bool, ids: set<nat>, m: Matcher, rules: Snapshot, domain: Option<Domain>)
    returns (stage: Stage)
    requires Sorted(rules.attrib)
    ensures Tried(stage, ListStep(source, true, blocks, ids, m, rules, domain))
  {
    var ruleIds, truncated, omitted := Candidates(m, rules, domain);
    stage := Evaluated(NewStage(source, true), blocks, Has(ids, domain), ruleIds, truncated, omitted);
  }

  /** The evaluation in progress: the decision so far, whether it stands, and the trace. */
  class Evaluation {
    var shortCircuited: bool
    var blocked: bool
    var source: Source
    var ruleId: Option<RuleId>
    var stages: seq<Stage>
    ghost var hit: nat

    /** The state after the first n steps. */
    ghost predicate After(all: seq<Step>, n: nat)
      reads this
    {
      && |stages| == n && IsFirst(all, n, hit) && StagesOk(stages, all, hit)
      && (shortCircuited <==> hit < n)
      && Decided(all, n, hit, blocked, source, ruleId)
    }

    constructor ()
      ensures forall all :: After(all, 0)
    {
      shortCircuited, blocked, source, ruleId, stages, hit := false, false, MaskFallback, None, [], 0;
    }

    /** Close a stage: note why it was skipped, and let a winner stop the later ones. */
    method AppendStage(stage0: Stage, ghost all: seq<Step>, ghost k: nat)
      requires |stages| < |all| && StagesOk(stages, all, hit) && IsFirst(all, |stages| + 1, k)
      requires (shortCircuited <==> hit < |stages|) && (if shortCircuited then k == hit else |stages| <= hit <= k)
      requires StageOk(Closed(stage0, shortCircuited), all[|stages|], |stages|, k)
      requires Decided(all, |stages| + 1, k, blocked, source, ruleId)
      modifies this`stages, this`shortCircuited, this`hit
      ensures After(all, old(|stages|) + 1)
    {
      var stage := Closed(stage0, shortCircuited);
      StagesSnoc(stages, all, hit, stage, k);
      if stage.winner { shortCircuited := true; }
      stages := stages + [stage];
      hit := k;
    }

    /** A stage decided by list entries, rules or both. */
    method PolicyStage(src: Source, enabled: bool, blocks: bool, ids: set<nat>, m: Matcher, rules: Snapshot,
                       domain: Option<Domain>,
                       ghost n: nat, ghost all: seq<Step>)
      requires n < |all| && After(all, n) && Sorted(rules.attrib)
      requires all[n] == ListStep(src, enabled, blocks, ids, m, rules, domain)
      modifies this
      ensures After(all, n + 1)
    {
      ghost var k := if shortCircuited then hit else if Hits(all[n]) then n else n + 1;
      var stage := NewStage(src, enabled);
      if enabled && !shortCircuited {
        stage := Try(src, blocks, ids, m, rules, domain);
        if stage.winner {
          blocked, source, ruleId := blocks, src, if stage.listed then None else Head(stage.ruleIds);
        }
        TriedIsOk(stage, all[n], n, k);
      } else {
        SkippedIsOk(src, shortCircuited, all[n], n, k);
      }
      AppendStage(stage, all, k);
    }

    method MaskStage(enabled: bool, domMask: bv8, appMask: bv8, ghost n: nat, ghost all: seq<Step>)
      requires n < |all| && After(all, n)
      requires all[n] ==
        Step(MaskFallback, enabled, MaskBlocks(appMask, domMask), false, None, 0, Some(Evidence(appMask, domMask)))
      modifies this
      ensures After(all, n + 1)
    {
      var blocks := MaskBlocks(appMask, domMask);
      var stage := NewStage(MaskFallback, enabled);
      if enabled && !shortCircuited {
        stage := stage.(evaluated := true, matched := true, outcome := Effect(blocks), winner := true,
                        mask := Some(Evidence(appMask, domMask)));
        blocked, source, ruleId := blocks, MaskFallback, None;
      }
      AppendStage(stage, all, if shortCircuited then hit else if Hits(all[n]) then n else n + 1);
    }
  }

  /** The decision the first n steps lead to. */
  ghost predicate Decided(all: seq<Step>, n: nat, k: nat, blocked: bool, source: Source, ruleId: Option<RuleId>)
    requires k <= n <= |all|
  {
    if k < n then blocked == all[k].blocks && source == all[k].source && ruleId == Attributed(all[k])
    else !blocked && source == MaskFallback && ruleId == None
  }

  /** The four stages of the app's own lists and rules. */
  method AppStages(e: Evaluation, m: Matcher, p: Policy, blockEnabled: bool, domain: Option<Domain>,
                   ghost all: seq<Step>)
    requires Sorted(p.app.whiteRules.attrib) && Sorted(p.app.blackRules.attrib)
    requires all == Steps(m, p, blockEnabled, domain) && e.After(all, 0)
    modifies e
    ensures e.After(all, 4)
  {
    var custom := blockEnabled && p.useCustomList;
    e.PolicyStage(CustomWhitelist, custom, false, p.app.white, m, Blank, domain, 0, all);
    e.PolicyStage(CustomBlacklist, custom, true, p.app.black, m, Blank, domain, 1, all);
    e.PolicyStage(CustomRuleWhite, custom, false, {}, m, p.app.whiteRules, domain, 2, all);
    e.PolicyStage(CustomRuleBlack, custom, true, {}, m, p.app.blackRules, domain, 3, all);
  }

  /** The two device-wide stages. */
  method DeviceStages(e: Evaluation, m: Matcher, p: Policy, blockEnabled: bool, domain: Option<Domain>,
                      ghost all: seq<Step>)
    requires Sorted(p.device.whiteRules.attrib) && Sorted(p.device.blackRules.attrib)
    requires all == Steps(m, p, blockEnabled, domain) && e.After(all, 4)
    modifies e
    ensures e.After(all, 6)
  {
    var custom := blockEnabled && p.useCustomList;
    e.PolicyStage(DeviceWideAuthorized, custom, false, p.device.white, m, p.device.whiteRules, domain, 4, all);
    e.PolicyStage(DeviceWideBlocked, custom, true, p.device.black, m, p.device.blackRules, domain, 5, all);
  }

  function Evaluated(stage: Stage, blocks: bool, listed: bool, ids: seq<RuleId>, truncated: bool,
                     omitted: Option<nat>): Stage {
    var matched := listed || ids != [];
    stage.(evaluated := true, listed := listed, ruleIds := ids, truncated := truncated, omitted := omitted,
           matched := matched, outcome := if matched then Effect(blocks) else Nothing, winner := matched)
  }

  function Closed(stage: Stage, shortCircuited: bool): Stage {
    if !stage.enabled then stage.(evaluated := false, skip := Some(Disabled))
    else if shortCircuited then
      stage.(evaluated := false, matched := false, winner := false, outcome := Nothing, skip := Some(ShortCircuited))
    else stage
  }

  datatype Debug = Debug(verdict: Verdict, getips: bool, useCustomList: bool, domMask: bv8, appMask: bv8,
                         stages: seq<Stage>)

  /** The explaining evaluator: the reference verdict on every input, with a trace of all seven
      steps. */
  method EvaluateDebug(m: Matcher, p: Policy, blockEnabled: bool, domain: Option<Domain>, getBlackIPs: bool)
    returns (r: Debug)
    requires Published(p)
    ensures r.verdict == Reference(m, p, blockEnabled, domain)
    ensures TraceOk(r.stages, Steps(m, p, blockEnabled, domain))
    ensures r.getips <==> !r.verdict.blocked || getBlackIPs
    ensures r.domMask == MaskOf(domain) && r.appMask == p.blockMask && r.useCustomList == p.useCustomList
  {
    var e := new Evaluation();
    ghost var all := Steps(m, p, blockEnabled, domain);
    AppStages(e, m, p, blockEnabled, domain, all);
    DeviceStages(e, m, p, blockEnabled, domain, all);
    var domMask := MaskOf(domain);
    e.MaskStage(blockEnabled, domMask, p.blockMask, 6, all);
    FirstHitIs(all, e.hit);
    var color := if domain.Some? && blockEnabled then domain.value.color else Grey;
    r := Debug(Verdict(e.blocked, color, e.source, e.ruleId), !e.blocked || getBlackIPs,
               p.useCustomList, MaskOf(domain), p.blockMask, e.stages);
  }

  /** With blocking on, a trace has exactly one winner, the stage the verdict names; the enabled
      stages before it were tried in vain and those after it were not tried. */
  lemma TraceHasOneWinner(m: Matcher, p: Policy, domain: Option<Domain>, stages: seq<Stage>)
    requires TraceOk(stages, Steps(m, p, true, domain))
    ensures var w := PlaceOf(Reference(m, p, true, domain).source);
      && (forall i | 0 <= i < 7 :: stages[i].winner <==> i == w)
      && (forall i | 0 <= i < w :: stages[i].enabled ==> stages[i].evaluated && !stages[i].matched)
      && (forall i | w < i < 7 :: stages[i].enabled ==> !stages[i].evaluated && stages[i].skip == Some(ShortCircuited))
      && Reference(m, p, true, domain).ruleId == (if stages[w].listed then None else Head(stages[w].ruleIds))
      && stages[w].outcome == (if Reference(m, p, true, domain).blocked then Block else Allow)
  {
    var steps := Steps(m, p, true, domain);
    var k := FirstHit(steps);
    assert Hits(steps[6]);
    assert PlaceOf(steps[k].source) == k;
    forall i | 0 <= i < 7
      ensures (stages[i].winner <==> i == k)
      ensures (stages[i].enabled && i < k ==> stages[i].evaluated && !stages[i].matched)
      ensures stages[i].enabled && k < i ==> !stages[i].evaluated && stages[i].skip == Some(ShortCircuited)
    {
      assert StageOk(stages[i], steps[i], i, k);
    }
    assert StageOk(stages[k], steps[k], k, k);
  }

  /** The rule a verdict is attributed to is the smallest matching id of the rule set that decided,
      even where the trace had to be capped. */
  lemma AttributionIsSmallest(m: Matcher, p: Policy, d: Domain, id: RuleId)
    requires Published(p) && Reference(m, p, true, Some(d)).ruleId == Some(id)
    ensures var v := Reference(m, p, true, Some(d));
      && v.source in {CustomRuleWhite, CustomRuleBlack, DeviceWideAuthorized, DeviceWideBlocked}
      && var snap := RulesOf(p, v.source);
      && (exists a | a in snap.attrib :: a.ruleId == id && m(a.regex, d.name))
      && (forall a | a in snap.attrib && m(a.regex, d.name) :: id <= a.ruleId)
  {
    AttributedToRules(m, p, d, id);
    var source := Reference(m, p, true, Some(d)).source;
    PublishedIsSorted(p, source);
    FirstIsSmallest(m, RulesOf(p, source), d.name);
  }

  lemma PublishedIsSorted(p: Policy, source: Source)
    requires Published(p)
    ensures Sorted(RulesOf(p, source).attrib)
  {
  }

  lemma AttributedToRules(m: Matcher, p: Policy, d: Domain, id: RuleId)
    requires Reference(m, p, true, Some(d)).ruleId == Some(id)
    ensures var v := Reference(m, p, true, Some(d));
      && v.source in {CustomRuleWhite, CustomRuleBlack, DeviceWideAuthorized, DeviceWideBlocked}
      && FirstRule(m, RulesOf(p, v.source), d.name) == Some(id)
  {
    var k := FirstHit(Steps(m, p, true, Some(d)));
    assert k == 2 || k == 3 || k == 4 || k == 5;
  }

  function RulesOf(p: Policy, source: Source): Snapshot {
    match source
    case CustomRuleWhite => p.app.whiteRules
    case CustomRuleBlack => p.app.blackRules
    case DeviceWideAuthorized => p.device.whiteRules
    case DeviceWideBlocked => p.device.blackRules
    case _ => Blank
  }
}
