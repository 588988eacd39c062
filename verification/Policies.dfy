/**
 Policy groups (internal/compiler/orchestration.go): which strategies a target can run, and the
 expansion of each group into one outbound per member.
 */
module Policies {
  import opened Prelude
  import opened IR
  import opened Snapshot
  import opened Names
  import opened Collect
  import opened Graph

  datatype PolicyInstance = PolicyInstance(
    tag: string, resourceId: Id, strategy: Strategy, members: seq<string>, defaultTag: string, health: HealthCheck)

  datatype PolicyIssue = CapabilityUnsupported | UnmappedHealth

  /** The strategy checks, in order; controlled says the preset offers a control API. */
  function StrategyIssue(g: PolicyGroup, controlled: bool, family: CoreFamily): Option<PolicyIssue> {
    var h := g.health;
    if g.strategy.ManualSelect? && (!controlled || family.Xray?) then Some(CapabilityUnsupported)
    else if g.strategy.RoundRobin? && family.SingBox? then Some(CapabilityUnsupported)
    else if g.strategy.RoundRobin? && family.Mihomo? && !h.enabled then Some(UnmappedHealth)
    else if (g.strategy.Fixed? || g.strategy.ManualSelect?) && h.enabled then Some(UnmappedHealth)
    else if !h.enabled && (h.url != "" || h.intervalMs.Some? || h.timeoutMs.Some? || h.toleranceMs.Some?)
        then Some(UnmappedHealth)
    else if g.strategy.LatencyBest? && !h.enabled then Some(UnmappedHealth)
    else if h.enabled && !family.Mihomo? then Some(UnmappedHealth)
    else None
  }

  // ---- Members of one group ----

  ghost predicate MembersIn(m: Store, members: seq<TargetRef>) {
    && (forall k :: 0 <= k < |members| ==> MemberIn(m, members[k]))
    && forall i, j :: 0 <= i < j < |members| ==> members[i].id != members[j].id
  }

  ghost predicate MemberIn(m: Store, ref: TargetRef) {
    ref.ResourceRef? && ref.id in m && (m[ref.id].payload.Node? || m[ref.id].payload.Chain?)
  }

  function MemberPrefix(tag: string, k: nat): string { tag + "_m" + Itoa(k + 1) }

  predicate IsChain(m: Store, ref: TargetRef) { ref.ResourceRef? && ref.id in m && m[ref.id].payload.Chain? }

  predicate IsNode(m: Store, ref: TargetRef) { ref.ResourceRef? && ref.id in m && m[ref.id].payload.Node? }

  /** The tag through which member k is used: its node, or the second hop of its chain. */
  function MemberTag(m: Store, tag: string, members: seq<TargetRef>, k: nat): string
    requires k < |members|
  {
    MemberPrefix(tag, k) + if IsChain(m, members[k]) then "_h2" else "_n"
  }

  function WithMember(m: Store, tag: string, ref: TargetRef, k: nat, o: Outs): Outs {
    if IsNode(m, ref) then WithNode(o, IndependentOutbound(MemberPrefix(tag, k) + "_n", m[ref.id]))
    else if IsChain(m, ref)
        then WithChain(o, ChainOf(m, m[ref.id], MemberPrefix(tag, k) + "_h1", MemberPrefix(tag, k) + "_h2"))
    else o
  }

  /** o extended with the first k members. */
  function MemberOuts(m: Store, tag: string, members: seq<TargetRef>, o: Outs, k: nat): Outs
    requires k <= |members|
  {
    if k == 0 then o else WithMember(m, tag, members[k - 1], k - 1, MemberOuts(m, tag, members, o, k - 1))
  }

  /** memberTags after the first k members. */
  function TagsByMember(m: Store, tag: string, members: seq<TargetRef>, k: nat): map<Id, string>
    requires k <= |members|
  {
    if k == 0 then map[]
    else
      var front, ref := TagsByMember(m, tag, members, k - 1), members[k - 1];
      if IsNode(m, ref) || IsChain(m, ref) then front[ref.id := MemberTag(m, tag, members, k - 1)] else front
  }

  lemma {:induction false} TagByMember(m: Store, tag: string, members: seq<TargetRef>, k: nat, j: nat)
    requires k <= |members| && MembersIn(m, members) && j < k
    ensures members[j].id in TagsByMember(m, tag, members, k)
    ensures TagsByMember(m, tag, members, k)[members[j].id] == MemberTag(m, tag, members, j)
  {
    assert MemberIn(m, members[k - 1]) && MemberIn(m, members[j]);
    if j < k - 1 { TagByMember(m, tag, members, k - 1, j); }
  }

  // ---- Names of members ----

  lemma {:induction false} Assoc(a: string, b: string, c: string, d: string, e: string)
    ensures ((a + b + "") + c + d) + e == a + b + (c + d + e)
  {
  }

  lemma {:induction false} MemberPrints(stem: string, tag: string, k: nat)
    requires PrintsAs(GroupName(stem), tag)
    ensures PrintsAs(MemberNode(stem, k + 1), MemberPrefix(tag, k) + "_n")
    ensures PrintsAs(MemberHop(stem, k + 1, 1), MemberPrefix(tag, k) + "_h1")
    ensures PrintsAs(MemberHop(stem, k + 1, 2), MemberPrefix(tag, k) + "_h2")
  {
    HopDigits();
    assert tag == ['g', '_'] + stem + "";
    Assoc(['g', '_'], stem, "_m", Itoa(k + 1), "_n");
    Assoc(['g', '_'], stem, "_m", Itoa(k + 1), "_h1");
    Assoc(['g', '_'], stem, "_m", Itoa(k + 1), "_h2");
    assert "_m" + Itoa(k + 1) + "_h" + Itoa(1) == "_m" + Itoa(k + 1) + "_h1";
    assert "_m" + Itoa(k + 1) + "_h" + Itoa(2) == "_m" + Itoa(k + 1) + "_h2";
  }

  /** Members named so far with this stem have an index of at most k. */
  ghost predicate MembersBelow(names: NameOf, stem: string, k: nat) {
    forall t :: t in names ==> IndexAtMost(names[t], stem, k)
  }

  ghost predicate IndexAtMost(n: Name, stem: string, k: nat) {
    (n.MemberNode? || n.MemberHop?) && n.stem == stem ==> n.index <= k
  }

  lemma {:induction false} MemberStep(m: Store, stem: string, tag: string, members: seq<TargetRef>, o: Outs,
                                      names: NameOf,
                   nodes: set<string>, chains: set<string>, groups: set<string>, k: nat) returns (names': NameOf)
    requires MembersIn(m, members) && k < |members| && PrintsAs(GroupName(stem), tag) && stem in groups
    requires Tagged(MemberOuts(m, tag, members, o, k), names) && Within(names, nodes, chains, groups)
    requires MembersBelow(names, stem, k)
    ensures Tagged(MemberOuts(m, tag, members, o, k + 1), names')
    ensures Within(names', nodes, chains, groups) && MembersBelow(names', stem, k + 1)
  {
    MemberPrints(stem, tag, k);
    assert MemberIn(m, members[k]);
    var front, r := MemberOuts(m, tag, members, o, k), m[members[k].id];
    var n0, n1, n2 := MemberNode(stem, k + 1), MemberHop(stem, k + 1, 1), MemberHop(stem, k + 1, 2);
    assert forall t :: t in names ==> names[t] != n0 && names[t] != n1 && names[t] != n2;
    var prefix := MemberPrefix(tag, k);
    if r.payload.Node? {
      TaggedNode(front, names, IndependentOutbound(prefix + "_n", r), n0);
      names' := names[prefix + "_n" := n0];
    } else {
      TaggedChain(front, names, ChainOf(m, r, prefix + "_h1", prefix + "_h2"), n1, n2);
      names' := names[prefix + "_h1" := n1][prefix + "_h2" := n2];
    }
  }

  lemma {:induction false} MembersTagged(m: Store, stem: string, tag: string, members: seq<TargetRef>, o: Outs,
                                         names: NameOf,
                                         nodes: set<string>, chains: set<string>, groups: set<string>, k: nat)
    returns (names': NameOf)
    requires MembersIn(m, members) && k <= |members| && PrintsAs(GroupName(stem), tag) && stem in groups
    requires Tagged(o, names) && Within(names, nodes, chains, groups) && MembersBelow(names, stem, 0)
    ensures Tagged(MemberOuts(m, tag, members, o, k), names')
    ensures Within(names', nodes, chains, groups) && MembersBelow(names', stem, k)
  {
    names' := names;
    if k > 0 {
      names' := MembersTagged(m, stem, tag, members, o, names, nodes, chains, groups, k - 1);
      names' := MemberStep(m, stem, tag, members, o, names', nodes, chains, groups, k - 1);
    }
  }

  /** A group with a new stem can be opened: none of its member names is in use. */
  lemma {:induction false} OpenGroup(names: NameOf, nodes: set<string>, chains: set<string>, groups: set<string>,
                                     stem: string)
    requires Within(names, nodes, chains, groups) && stem !in groups
    ensures Within(names, nodes, chains, groups + {stem}) && MembersBelow(names, stem, 0)
  {
    forall t | t in names ensures NameWithin(names[t], nodes, chains, groups + {stem})
        && IndexAtMost(names[t], stem, 0) {
      assert NameWithin(names[t], nodes, chains, groups);
    }
  }

  // ---- The member list of an instance ----

  /** Tags of all members in their order. */
  function MemberTags(m: Store, tag: string, members: seq<TargetRef>): (ts: seq<string>)
    ensures |ts| == |members| && forall k :: 0 <= k < |members| ==> ts[k] == MemberTag(m, tag, members, k)
  {
    seq(|members|, k requires 0 <= k < |members| => MemberTag(m, tag, members, k))
  }

  function Without(ts: seq<string>, d: string): seq<string> {
    if ts == [] then [] else (if ts[0] == d then [] else [ts[0]]) + Without(ts[1..], d)
  }

  /** The member list: the default first, then the others in their order. */
  function DefaultFirst(ts: seq<string>, d: string): seq<string> { [d] + Without(ts, d) }

  lemma {:induction false} WithoutKeeps(ts: seq<string>, d: string)
    ensures forall t :: t in Without(ts, d) <==> t in ts && t != d
  {
    if ts != [] { WithoutKeeps(ts[1..], d); }
  }

  lemma {:induction false} WithoutDistinct(ts: seq<string>, d: string)
    requires Distinct(ts)
    ensures Distinct(Without(ts, d))
  {
    if ts != [] {
      WithoutDistinct(ts[1..], d);
      WithoutKeeps(ts[1..], d);
      assert ts[0] !in ts[1..];
    }
  }

  /** Default first, every member once, nothing else. */
  lemma {:induction false} DefaultFirstIsArrangement(ts: seq<string>, d: string)
    requires Distinct(ts) && d in ts
    ensures Distinct(DefaultFirst(ts, d)) && forall t :: t in DefaultFirst(ts, d) <==> t in ts
  {
    WithoutKeeps(ts, d);
    WithoutDistinct(ts, d);
  }

  /** Member tags of one group differ: their names have different indices. */
  lemma {:induction false} MemberTagsDistinct(m: Store, stem: string, tag: string, members: seq<TargetRef>)
    requires MembersIn(m, members) && PrintsAs(GroupName(stem), tag)
    ensures Distinct(MemberTags(m, tag, members))
  {
    var ts := MemberTags(m, tag, members);
    forall i, j | 0 <= i < j < |ts| ensures ts[i] != ts[j] {
      var x, y := MemberName(m, stem, members, i), MemberName(m, stem, members, j);
      MemberTagPrints(m, stem, tag, members, i);
      MemberTagPrints(m, stem, tag, members, j);
      if ts[i] == ts[j] { PrintInjective(x, y); }
    }
  }

  ghost function MemberName(m: Store, stem: string, members: seq<TargetRef>, k: nat): Name
    requires k < |members|
  {
    if IsChain(m, members[k]) then MemberHop(stem, k + 1, 2) else MemberNode(stem, k + 1)
  }

  lemma {:induction false} MemberTagPrints(m: Store, stem: string, tag: string, members: seq<TargetRef>, k: nat)
    requires MembersIn(m, members) && k < |members| && PrintsAs(GroupName(stem), tag)
    ensures PrintsAs(MemberName(m, stem, members, k), MemberTag(m, tag, members, k))
  {
    MemberPrints(stem, tag, k);
  }

  /** memberTags[ref.ResourceID], empty when absent. */
  function Looked(byMember: map<Id, string>, ref: TargetRef): string {
    if ref.ResourceRef? && ref.id in byMember then byMember[ref.id] else ""
  }

  function LookedAll(byMember: map<Id, string>, members: seq<TargetRef>): (ts: seq<string>)
    ensures |ts| == |members| && forall k :: 0 <= k < |members| ==> ts[k] == Looked(byMember, members[k])
  {
    seq(|members|, k requires 0 <= k < |members| => Looked(byMember, members[k]))
  }

  function Instance(m: Store, tag: string, id: Id, g: PolicyGroup): PolicyInstance {
    var byMember := TagsByMember(m, tag, g.members, |g.members|);
    var d := Looked(byMember, g.defaultMember);
    PolicyInstance(tag, id, g.strategy, DefaultFirst(LookedAll(byMember, g.members), d), d, g.health)
  }

  lemma {:induction false} LookedAreTags(m: Store, tag: string, members: seq<TargetRef>)
    requires MembersIn(m, members)
    ensures LookedAll(TagsByMember(m, tag, members, |members|), members) == MemberTags(m, tag, members)
  {
    forall k | 0 <= k < |members|
      ensures Looked(TagsByMember(m, tag, members, |members|), members[k]) == MemberTag(m, tag, members, k)
    {
      assert MemberIn(m, members[k]);
      TagByMember(m, tag, members, |members|, k);
    }
  }

  /** Every instance lists exactly its members' tags, the default's first, none twice. */
  lemma {:induction false} InstanceMembers(m: Store, stem: string, tag: string, id: Id, g: PolicyGroup)
    requires MembersIn(m, g.members) && PrintsAs(GroupName(stem), tag) && g.defaultMember in g.members
    ensures var p, ts := Instance(m, tag, id, g), MemberTags(m, tag, g.members);
            && p.defaultTag in ts && p.members[0] == p.defaultTag && p.members == DefaultFirst(ts, p.defaultTag)
            && Distinct(p.members) && (forall t :: t in p.members <==> t in ts)
    ensures exists k :: 0 <= k < |g.members| && g.members[k] == g.defaultMember
              && Instance(m, tag, id, g).defaultTag == MemberTag(m, tag, g.members, k)
  {
    var ts := MemberTags(m, tag, g.members);
    var k :| 0 <= k < |g.members| && g.members[k] == g.defaultMember;
    LookedAreTags(m, tag, g.members);
    assert ts[k] in ts;
    MemberTagsDistinct(m, stem, tag, g.members);
    DefaultFirstIsArrangement(ts, ts[k]);
  }

  // ---- Loops of the source ----

  method ExpandMembers(m: Store, tag: string, members: seq<TargetRef>, o: Outs)
    returns (o': Outs, memberTags: map<Id, string>)
    ensures o' == MemberOuts(m, tag, members, o, |members|)
    ensures memberTags == TagsByMember(m, tag, members, |members|)
  {
    o', memberTags := o, map[];
    for k := 0 to |members|
      invariant o' == MemberOuts(m, tag, members, o, k) && memberTags == TagsByMember(m, tag, members, k)
    {
      var prefix, ref := tag + "_m" + Itoa(k + 1), members[k];
      if IsNode(m, ref) {
        memberTags := memberTags[ref.id := prefix + "_n"];
        o' := WithNode(o', IndependentOutbound(prefix + "_n", m[ref.id]));
      } else if IsChain(m, ref) {
        memberTags := memberTags[ref.id := prefix + "_h2"];
        o' := WithChain(o', ChainOf(m, m[ref.id], prefix + "_h1", prefix + "_h2"));
      }
    }
  }

  lemma {:induction false} WithoutStep(out: seq<string>, ts: seq<string>, d: string, k: nat)
    requires k < |ts|
    ensures (if ts[k] != d then out + [ts[k]] else out) + Without(ts[k + 1..], d) == out + Without(ts[k..], d)
  {
    assert ts[k..][1..] == ts[k + 1..];
  }

  method ListMembers(members: seq<TargetRef>, memberTags: map<Id, string>, d: string) returns (out: seq<string>)
    ensures out == DefaultFirst(LookedAll(memberTags, members), d)
  {
    ghost var ts := LookedAll(memberTags, members);
    out := [d];
    var k := 0;
    while k < |members|
      invariant 0 <= k <= |members| && out + Without(ts[k..], d) == DefaultFirst(ts, d)
    {
      WithoutStep(out, ts, d, k);
      var t := Looked(memberTags, members[k]);
      if t != d { out := out + [t]; }
      k := k + 1;
    }
    assert ts[k..] == [];
  }

  /** One turn of the policy loop. */
  method ExpandGroup(m: Store, tag: string, id: Id, g: PolicyGroup, o: Outs) returns (o': Outs, p: PolicyInstance)
    ensures o' == MemberOuts(m, tag, g.members, o, |g.members|)
    ensures p == Instance(m, tag, id, g)
  {
    var memberTags;
    o', memberTags := ExpandMembers(m, tag, g.members, o);
    var d := Looked(memberTags, g.defaultMember);
    var members := ListMembers(g.members, memberTags, d);
    p := PolicyInstance(tag, id, g.strategy, members, d, g.health);
  }

  // ---- All groups ----

  function GroupTag(tagOf: TagMap, r: Resource): string {
    if r.meta.id in tagOf && |tagOf[r.meta.id]| > 0 then tagOf[r.meta.id][0] else ""
  }

  ghost predicate GroupsIn(m: Store, rs: seq<Resource>) {
    forall i :: 0 <= i < |rs| ==> GroupIn(m, rs[i])
  }

  ghost predicate GroupIn(m: Store, r: Resource) {
    && r.payload.Policy? && MembersIn(m, r.payload.group.members)
    && r.payload.group.defaultMember in r.payload.group.members
    && forall k :: 0 <= k < |r.payload.group.members| ==> KindFits(m, r.payload.group.members[k])
  }

  /** A member's declared kind is the kind of its resource. */
  ghost predicate KindFits(m: Store, ref: TargetRef) {
    ref.ResourceRef? && ref.id in m && (ref.kind.ChainKind? <==> m[ref.id].payload.Chain?)
  }

  function GroupMembers(r: Resource): seq<TargetRef> { if r.payload.Policy? then r.payload.group.members else [] }

  /** o extended with the members of the first i groups. */
  function GroupOuts(m: Store, tagOf: TagMap, rs: seq<Resource>, o: Outs, i: nat): Outs
    requires i <= |rs|
  {
    if i == 0 then o
    else
      var members := GroupMembers(rs[i - 1]);
      MemberOuts(m, GroupTag(tagOf, rs[i - 1]), members, GroupOuts(m, tagOf, rs, o, i - 1), |members|)
  }

  const EMPTY_GROUP := PolicyGroup(Fixed, [], DirectRef, HealthCheck(false, "", None, None, None))

  function GroupInstance(m: Store, tagOf: TagMap, r: Resource): PolicyInstance {
    Instance(m, GroupTag(tagOf, r), r.meta.id, if r.payload.Policy? then r.payload.group else EMPTY_GROUP)
  }

  lemma {:induction false} GroupLabel(m: Store, seen: set<Id>, tagOf: TagMap, stemOf: map<Id, string>,
                                      rs: seq<Resource>, i: nat)
    requires TagsKnown(m, seen, tagOf, stemOf) && KindList(m, seen, rs, PolicyGroupKind) && i < |rs|
    ensures rs[i].meta.id in stemOf && PrintsAs(GroupName(stemOf[rs[i].meta.id]), GroupTag(tagOf, rs[i]))
  {
    assert m[rs[i].meta.id] == rs[i] && rs[i].payload.Policy?;
  }

  lemma {:induction false} GroupsTagged(m: Store, seen: set<Id>, tagOf: TagMap, stemOf: map<Id, string>,
                                        rs: seq<Resource>,
                                        o: Outs, base: NameOf, nodes: set<string>, chains: set<string>, i: nat)
    returns (names: NameOf, used: set<string>)
    requires TagsKnown(m, seen, tagOf, stemOf) && KindList(m, seen, rs, PolicyGroupKind) && GroupsIn(m, rs) && i <= |rs|
    requires Tagged(o, base) && Within(base, nodes, chains, {})
    ensures Tagged(GroupOuts(m, tagOf, rs, o, i), names) && Within(names, nodes, chains, used)
    ensures StemsUsed(stemOf, rs, i, used)
  {
    if i == 0 {
      names, used := base, {};
    } else {
      names, used := GroupsTagged(m, seen, tagOf, stemOf, rs, o, base, nodes, chains, i - 1);
      StemFresh(m, seen, tagOf, stemOf, rs, PolicyGroupKind, i - 1, used);
      GroupLabel(m, seen, tagOf, stemOf, rs, i - 1);
      var stem := stemOf[rs[i - 1].meta.id];
      OpenGroup(names, nodes, chains, used, stem);
      used := used + {stem};
      assert GroupIn(m, rs[i - 1]);
      var members := GroupMembers(rs[i - 1]);
      names := MembersTagged(m, stem, GroupTag(tagOf, rs[i - 1]), members, GroupOuts(m, tagOf, rs, o, i - 1), names,
                             nodes, chains, used, |members|);
    }
  }

  predicate StrategyOK(r: Resource, controlled: bool, family: CoreFamily) {
    r.payload.Policy? && StrategyIssue(r.payload.group, controlled, family).None?
  }

  ghost predicate StrategiesUpTo(rs: seq<Resource>, i: nat, controlled: bool, family: CoreFamily)
    requires i <= |rs|
  {
    forall k :: 0 <= k < i ==> StrategyOK(rs[k], controlled, family)
  }

  /** The instances of the first i groups. */
  function Instances(m: Store, tagOf: TagMap, rs: seq<Resource>, i: nat): (ps: seq<PolicyInstance>)
    requires i <= |rs|
    ensures |ps| == i
  {
    if i == 0 then [] else Instances(m, tagOf, rs, i - 1) + [GroupInstance(m, tagOf, rs[i - 1])]
  }

  lemma {:induction false} InstanceAt(m: Store, tagOf: TagMap, rs: seq<Resource>, i: nat, k: nat)
    requires k < i <= |rs|
    ensures Instances(m, tagOf, rs, i)[k] == GroupInstance(m, tagOf, rs[k])
  {
    if k < i - 1 { InstanceAt(m, tagOf, rs, i - 1, k); }
  }

  /** The checks and the expansion of one group. */
  method ExpandNext(m: Store, tagOf: TagMap, r: Resource, o: Outs, controlled: bool, family: CoreFamily)
    returns (issue: Option<PolicyIssue>, o': Outs, p: PolicyInstance)
    requires r.payload.Policy?
    ensures issue.None? <==> StrategyOK(r, controlled, family)
    ensures issue.None? ==> p == GroupInstance(m, tagOf, r)
    ensures issue.None? ==> o' == MemberOuts(m, GroupTag(tagOf, r), GroupMembers(r), o, |GroupMembers(r)|)
  {
    issue := StrategyIssue(r.payload.group, controlled, family);
    o', p := ExpandGroup(m, GroupTag(tagOf, r), r.meta.id, r.payload.group, o);
  }

  lemma {:induction false} StrategiesNext(rs: seq<Resource>, i: nat, controlled: bool, family: CoreFamily)
    requires i < |rs|
    ensures StrategiesUpTo(rs, i + 1, controlled, family) <==>
            StrategiesUpTo(rs, i, controlled, family) && StrategyOK(rs[i], controlled, family)
    ensures StrategiesUpTo(rs, |rs|, controlled, family) ==> StrategyOK(rs[i], controlled, family)
  {
  }

  ghost predicate Expanded(m: Store, tagOf: TagMap, rs: seq<Resource>, o: Outs, i: nat, o': Outs,
                           ps: seq<PolicyInstance>)
    requires i <= |rs|
  {
    o' == GroupOuts(m, tagOf, rs, o, i) && ps == Instances(m, tagOf, rs, i)
  }

  method ExpandAt(m: Store, tagOf: TagMap, rs: seq<Resource>, ghost o: Outs, i: nat, o1: Outs, ps: seq<PolicyInstance>,
                  controlled: bool, family: CoreFamily)
    returns (issue: Option<PolicyIssue>, o2: Outs, ps': seq<PolicyInstance>)
    requires i < |rs| && rs[i].payload.Policy?
    requires Expanded(m, tagOf, rs, o, i, o1, ps) && StrategiesUpTo(rs, i, controlled, family)
    ensures issue.Some? ==> !StrategiesUpTo(rs, |rs|, controlled, family)
    ensures issue.None? ==> Expanded(m, tagOf, rs, o, i + 1, o2, ps') && StrategiesUpTo(rs, i + 1, controlled, family)
  {
    StrategiesNext(rs, i, controlled, family);
    var p;
    issue, o2, p := ExpandNext(m, tagOf, rs[i], o1, controlled, family);
    ps' := ps + [p];
  }

  /** The policy loop; it refuses as soon as one group's strategy is not available. */
  method ExpandGroups(m: Store, tagOf: TagMap, rs: seq<Resource>, o: Outs, controlled: bool, family: CoreFamily)
    returns (issue: Option<PolicyIssue>, o': Outs, ps: seq<PolicyInstance>)
    requires forall i :: 0 <= i < |rs| ==> rs[i].payload.Policy?
    ensures issue.None? <==> StrategiesUpTo(rs, |rs|, controlled, family)
    ensures issue.None? ==> Expanded(m, tagOf, rs, o, |rs|, o', ps)
  {
    issue, o', ps := None, o, [];
    var i := 0;
    while i < |rs|
      invariant 0 <= i <= |rs| && issue == None
      invariant Expanded(m, tagOf, rs, o, i, o', ps) && StrategiesUpTo(rs, i, controlled, family)
    {
      issue, o', ps := ExpandAt(m, tagOf, rs, o, i, o', ps, controlled, family);
      if issue.Some? { return; }
      i := i + 1;
    }
  }

  // ---- Counting ----

  function Size(o: Outs): nat { |o.independents| + 2 * |o.chains| }

  /** What the members of a group count for, by their declared kinds. */
  function MemberCost(members: seq<TargetRef>, k: nat): nat
    requires k <= |members|
  {
    if k == 0 then 0
    else MemberCost(members, k - 1) + if members[k - 1].ResourceRef? && members[k - 1].kind.ChainKind? then 2 else 1
  }

  function GroupCost(r: Resource): nat { MemberCost(GroupMembers(r), |GroupMembers(r)|) }

  function TotalCost(rs: seq<Resource>): nat { if rs == [] then 0 else GroupCost(rs[0]) + TotalCost(rs[1..]) }

  lemma {:induction false} TotalCostAppend(rs: seq<Resource>, r: Resource)
    ensures TotalCost(rs + [r]) == TotalCost(rs) + GroupCost(r)
  {
    if rs == [] {
      assert rs + [r] == [r];
    } else {
      assert (rs + [r])[1..] == rs[1..] + [r];
      TotalCostAppend(rs[1..], r);
    }
  }

  lemma {:induction false} TotalCostInserted(r: Resource, rs: seq<Resource>, key: Resource -> string)
    ensures TotalCost(InsertBy(r, rs, key)) == GroupCost(r) + TotalCost(rs)
  {
    if rs != [] {
      TotalCostInserted(r, rs[1..], key);
      assert ([r] + rs)[1..] == rs;
      assert ([rs[0]] + InsertBy(r, rs[1..], key))[1..] == InsertBy(r, rs[1..], key);
    }
  }

  lemma {:induction false} TotalCostSorted(rs: seq<Resource>, key: Resource -> string)
    ensures TotalCost(SortBy(rs, key)) == TotalCost(rs)
  {
    if rs != [] {
      TotalCostSorted(rs[1..], key);
      TotalCostInserted(rs[0], SortBy(rs[1..], key), key);
    }
  }

  lemma {:induction false} MemberOutsSize(m: Store, tag: string, members: seq<TargetRef>, o: Outs, k: nat)
    requires k <= |members| && MembersIn(m, members) && forall j :: 0 <= j < |members| ==> KindFits(m, members[j])
    ensures Size(MemberOuts(m, tag, members, o, k)) == Size(o) + MemberCost(members, k)
  {
    if k > 0 {
      MemberOutsSize(m, tag, members, o, k - 1);
      assert MemberIn(m, members[k - 1]) && KindFits(m, members[k - 1]);
    }
  }

  /** The count checked before building is exactly the number of outbounds built. */
  lemma {:induction false} GroupOutsSize(m: Store, tagOf: TagMap, rs: seq<Resource>, o: Outs, i: nat)
    requires i <= |rs| && GroupsIn(m, rs)
    ensures Size(GroupOuts(m, tagOf, rs, o, i)) == Size(o) + TotalCost(rs[..i])
  {
    if i > 0 {
      assert rs[..i] == rs[..i - 1] + [rs[i - 1]];
      TotalCostAppend(rs[..i - 1], rs[i - 1]);
      GroupOutsSize(m, tagOf, rs, o, i - 1);
      assert GroupIn(m, rs[i - 1]);
      var members := GroupMembers(rs[i - 1]);
      MemberOutsSize(m, GroupTag(tagOf, rs[i - 1]), members, GroupOuts(m, tagOf, rs, o, i - 1), |members|);
    }
  }

  lemma {:induction false} NodeOutsSize(tagOf: TagMap, rs: seq<Resource>, i: nat)
    requires i <= |rs|
    ensures Size(NodeOuts(tagOf, rs, i)) == i
  {
    if i > 0 { NodeOutsSize(tagOf, rs, i - 1); }
  }

  lemma {:induction false} ChainOutsSize(m: Store, tagOf: TagMap, rs: seq<Resource>, o: Outs, i: nat)
    requires i <= |rs| && forall k :: 0 <= k < |rs| ==> rs[k].payload.Chain?
    ensures Size(ChainOuts(m, tagOf, rs, o, i)) == Size(o) + 2 * i
  {
    if i > 0 { ChainOutsSize(m, tagOf, rs, o, i - 1); }
  }

  // ---- Where each outbound ends up ----

  ghost predicate Extends(o: Outs, o': Outs) { o.independents <= o'.independents && o.chains <= o'.chains }

  lemma {:induction false} MemberOutsExtend(m: Store, tag: string, members: seq<TargetRef>, o: Outs, k: nat, n: nat)
    requires k <= n <= |members|
    ensures Extends(MemberOuts(m, tag, members, o, k), MemberOuts(m, tag, members, o, n))
  {
    if k < n { MemberOutsExtend(m, tag, members, o, k, n - 1); }
  }

  lemma {:induction false} GroupOutsExtend(m: Store, tagOf: TagMap, rs: seq<Resource>, o: Outs, i: nat, n: nat)
    requires i <= n <= |rs|
    ensures Extends(GroupOuts(m, tagOf, rs, o, i), GroupOuts(m, tagOf, rs, o, n))
  {
    if i < n {
      GroupOutsExtend(m, tagOf, rs, o, i, n - 1);
      var members := GroupMembers(rs[n - 1]);
      MemberOutsExtend(m, GroupTag(tagOf, rs[n - 1]), members, GroupOuts(m, tagOf, rs, o, n - 1), 0, |members|);
    }
  }

  /** The outbound through which a reference is used, under the given tag. */
  ghost predicate UsedAs(m: Store, o: Outs, ref: TargetRef, t: string) {
    && (IsNode(m, ref) ==> IndependentOutbound(t, m[ref.id]) in o.independents)
    && (IsChain(m, ref) ==> exists t1 :: ChainOf(m, m[ref.id], t1, t) in o.chains)
  }

  lemma {:induction false} UsedLater(m: Store, o: Outs, o': Outs, ref: TargetRef, t: string)
    requires UsedAs(m, o, ref, t) && Extends(o, o')
    ensures UsedAs(m, o', ref, t)
  {
    if IsChain(m, ref) {
      var t1 :| ChainOf(m, m[ref.id], t1, t) in o.chains;
      assert ChainOf(m, m[ref.id], t1, t) in o'.chains;
    }
  }

  lemma {:induction false} MemberUsed(m: Store, tag: string, members: seq<TargetRef>, o: Outs, k: nat)
    requires k < |members|
    ensures UsedAs(m, MemberOuts(m, tag, members, o, |members|), members[k], MemberTag(m, tag, members, k))
  {
    var o' := MemberOuts(m, tag, members, o, k + 1);
    if IsNode(m, members[k]) {
      assert o'.independents[|o'.independents| - 1] ==
          IndependentOutbound(MemberTag(m, tag, members, k), m[members[k].id]);
    } else if IsChain(m, members[k]) {
      assert o'.chains[|o'.chains| - 1] ==
          ChainOf(m, m[members[k].id], MemberPrefix(tag, k) + "_h1", MemberTag(m, tag, members, k));
    }
    MemberOutsExtend(m, tag, members, o, k + 1, |members|);
    UsedLater(m, o', MemberOuts(m, tag, members, o, |members|), members[k], MemberTag(m, tag, members, k));
  }

  /** Every member of every group has its own outbound, under its member tag. */
  lemma {:induction false} GroupMemberUsed(m: Store, tagOf: TagMap, rs: seq<Resource>, o: Outs, i: nat, k: nat)
    requires i < |rs| && k < |GroupMembers(rs[i])|
    ensures UsedAs(m, GroupOuts(m, tagOf, rs, o, |rs|), GroupMembers(rs[i])[k],
                   MemberTag(m, GroupTag(tagOf, rs[i]), GroupMembers(rs[i]), k))
  {
    MemberUsed(m, GroupTag(tagOf, rs[i]), GroupMembers(rs[i]), GroupOuts(m, tagOf, rs, o, i), k);
    GroupOutsExtend(m, tagOf, rs, o, i + 1, |rs|);
    UsedLater(m, GroupOuts(m, tagOf, rs, o, i + 1), GroupOuts(m, tagOf, rs, o, |rs|), GroupMembers(rs[i])[k],
              MemberTag(m, GroupTag(tagOf, rs[i]), GroupMembers(rs[i]), k));
  }

  /** A group is well linked in a linked store. */
  lemma {:induction false} GroupLinked(m: Store, id: Id)
    requires Linked(m) && id in m && m[id].payload.Policy?
    ensures GroupIn(m, m[id])
  {
    assert LinkedAt(m, id);
    var members := m[id].payload.group.members;
    forall k | 0 <= k < |members| ensures MemberIn(m, members[k]) && KindFits(m, members[k]) {
      assert members[k] in members && MemberRef(members[k]);
      MemberLinked(members, k);
      assert Resolved(m, Link(members[k].id, members[k].kind)) && LinkedAt(m, members[k].id);
    }
    forall i, j | 0 <= i < j < |members| ensures members[i].id != members[j].id {
      assert MemberIn(m, members[i]) && MemberIn(m, members[j]);
    }
  }
}
