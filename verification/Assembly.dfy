/**
 The outbounds and policies of a prepared graph (internal/compiler/prepare.go and orchestration.go):
 everything collected is offered under one tag, and policies list their members' tags.
 */
module Assembly {
  import opened Prelude
  import opened IR
  import opened Snapshot
  import opened Labels
  import opened Collect
  import opened Graph
  import opened Policies
  import opened Tags

  // ---- What a graph must satisfy ----

  /** t is the tag through which the graph offers this resource. */
  ghost predicate StandsFor(m: Store, o: Outs, ps: seq<PolicyInstance>, id: Id, t: string) {
    && id in m && Outbound(m[id].payload)
    && (m[id].payload.Node? ==> IndependentOutbound(t, m[id]) in o.independents)
    && (m[id].payload.Chain? ==> exists t1 :: ChainOf(m, m[id], t1, t) in o.chains)
    && (m[id].payload.Policy? ==> exists p :: p in ps && p.resourceId == id && p.tag == t)
  }

  /** A reference is a builtin tag or the tag of a resource the same graph defines. */
  ghost predicate Denotes(m: Store, o: Outs, ps: seq<PolicyInstance>, ref: TargetRef, t: string) {
    match ref
    case DirectRef => t == "direct"
    case RejectRef => t == "block"
    case ResourceRef(_, id) => StandsFor(m, o, ps, id, t)
  }

  /** A policy lists the tags of its group's members, each with its own outbound: default first, none twice. */
  ghost predicate PolicyOK(m: Store, o: Outs, p: PolicyInstance) {
    && p.resourceId in m && m[p.resourceId].payload.Policy?
    && var g := m[p.resourceId].payload.group;
       var ts := MemberTags(m, p.tag, g.members);
       && p.strategy == g.strategy && p.health == g.health
       && (forall k :: 0 <= k < |g.members| ==> MemberIn(m, g.members[k]) && UsedAs(m, o, g.members[k], ts[k]))
       && (exists k :: 0 <= k < |g.members| && g.members[k] == g.defaultMember && ts[k] == p.defaultTag)
       && p.members == DefaultFirst(ts, p.defaultTag)
       && Distinct(p.members) && forall t :: t in p.members <==> t in ts
  }

  lemma {:induction false} ExitUsed(m: Store, c: Collected, tagOf: TagMap, stemOf: map<Id, string>, base: Outs,
                                    groups: seq<Resource>, final: Outs,
                 r: Resource, ref: TargetRef)
    requires Kinds(m, c) && TagsKnown(m, c.seen, tagOf, stemOf) && Rearranged(BaseOuts(m, tagOf, c), base)
    requires Rearranged(GroupOuts(m, tagOf, groups, base, |groups|), final)
    requires (r in c.nodes || r in c.chains) && ref.ResourceRef? && ref.id == r.meta.id
    ensures UsedAs(m, final, ref, ExitTag(m, tagOf, r.meta.id))
  {
    if r in c.nodes {
      NodeCovered(m, c, tagOf, stemOf, base, r);
    } else {
      ChainCovered(m, c, tagOf, stemOf, base, r);
    }
    assert m[ref.id] == r;
    assert UsedAs(m, base, ref, ExitTag(m, tagOf, r.meta.id));
    GroupOutsExtend(m, tagOf, groups, base, 0, |groups|);
    UsedLater(m, base, GroupOuts(m, tagOf, groups, base, |groups|), ref, ExitTag(m, tagOf, r.meta.id));
    UsedRearranged(m, GroupOuts(m, tagOf, groups, base, |groups|), final, ref, ExitTag(m, tagOf, r.meta.id));
  }

  lemma {:induction false} GroupStands(m: Store, seen: set<Id>, tagOf: TagMap, groups: seq<Resource>,
                                       ps: seq<PolicyInstance>, r: Resource)
    requires KindList(m, seen, groups, PolicyGroupKind) && r in groups && r.meta.id in tagOf
    requires multiset(ps) == multiset(Instances(m, tagOf, groups, |groups|))
    ensures r.payload.Policy? && m[r.meta.id] == r
    ensures exists p :: p in ps && p.resourceId == r.meta.id && p.tag == ExitTag(m, tagOf, r.meta.id)
  {
    var k :| 0 <= k < |groups| && groups[k] == r;
    var all := Instances(m, tagOf, groups, |groups|);
    InstanceAt(m, tagOf, groups, |groups|, k);
    SameElements(ps, all);
    assert all[k] in all && all[k] in ps;
    assert r.payload.Policy?;
  }

  lemma {:induction false} ListedKind(m: Store, c: Collected, r: Resource)
    requires Kinds(m, c) && (r in c.nodes || r in c.chains)
    ensures r.meta.id in m && m[r.meta.id] == r && (r.payload.Node? || r.payload.Chain?)
  {
    if r in c.nodes {
      var k :| 0 <= k < |c.nodes| && c.nodes[k] == r;
    } else {
      var k :| 0 <= k < |c.chains| && c.chains[k] == r;
    }
  }

  /** Every collected node and chain is offered under its exit tag. */
  lemma {:induction false} ExitStands(m: Store, c: Collected, tagOf: TagMap, stemOf: map<Id, string>, base: Outs,
                                      groups: seq<Resource>, final: Outs,
                   ps: seq<PolicyInstance>, r: Resource)
    requires Kinds(m, c) && TagsKnown(m, c.seen, tagOf, stemOf) && Rearranged(BaseOuts(m, tagOf, c), base)
    requires Rearranged(GroupOuts(m, tagOf, groups, base, |groups|), final)
    requires r in c.nodes || r in c.chains
    ensures StandsFor(m, final, ps, r.meta.id, ExitTag(m, tagOf, r.meta.id))
  {
    ListedKind(m, c, r);
    var ref := ResourceRef(NodeKind, r.meta.id);
    ExitUsed(m, c, tagOf, stemOf, base, groups, final, r, ref);
    assert IsNode(m, ref) || IsChain(m, ref);
  }

  lemma {:induction false} PolicyFine(m: Store, seen: set<Id>, tagOf: TagMap, stemOf: map<Id, string>, base: Outs,
                                      groups: seq<Resource>, final: Outs, i: nat)
    requires TagsKnown(m, seen, tagOf, stemOf) && KindList(m, seen, groups, PolicyGroupKind) && i < |groups|
    requires GroupIn(m, groups[i])
    requires Rearranged(GroupOuts(m, tagOf, groups, base, |groups|), final)
    ensures PolicyOK(m, final, GroupInstance(m, tagOf, groups[i]))
  {
    var r := groups[i];
    var g, tag := r.payload.group, GroupTag(tagOf, r);
    GroupLabel(m, seen, tagOf, stemOf, groups, i);
    InstanceMembers(m, stemOf[r.meta.id], tag, r.meta.id, g);
    forall k | 0 <= k < |g.members|
      ensures MemberIn(m, g.members[k]) && UsedAs(m, final, g.members[k], MemberTags(m, tag, g.members)[k])
    {
      GroupMemberUsed(m, tagOf, groups, base, i, k);
      UsedRearranged(m, GroupOuts(m, tagOf, groups, base, |groups|), final, g.members[k],
                     MemberTag(m, tag, g.members, k));
    }
  }

  /** The outbounds, policies and exit tags of everything collected. */
  ghost predicate Assembled(m: Store, c: Collected, o: Outs, ps: seq<PolicyInstance>, tags: map<Id, string>) {
    && TagsOK(o, ps) && Size(o) == OutboundCount(c) && |ps| == |c.groups|
    && (forall p :: p in ps ==> PolicyOK(m, o, p))
    && tags.Keys == c.seen && forall id :: id in c.seen ==> StandsFor(m, o, ps, id, tags[id])
  }

  /** count: nodes, two per chain, and every group member by its kind. */
  function OutboundCount(c: Collected): nat { |c.nodes| + 2 * |c.chains| + TotalCost(c.groups) }

  lemma {:induction false} MemberCostIs(members: seq<TargetRef>, k: nat)
    requires k < |members|
    ensures MemberCost(members, k + 1) ==
            MemberCost(members, k) + 1 + (if members[k].ResourceRef? && members[k].kind.ChainKind? then 1 else 0)
  {
  }

  method CountOutbounds(c: Collected) returns (count: nat)
    ensures count == OutboundCount(c)
  {
    count := |c.nodes| + 2 * |c.chains|;
    for i := 0 to |c.groups|
      invariant count == |c.nodes| + 2 * |c.chains| + TotalCost(c.groups[..i])
    {
      var members := GroupMembers(c.groups[i]);
      assert c.groups[..i + 1] == c.groups[..i] + [c.groups[i]];
      TotalCostAppend(c.groups[..i], c.groups[i]);
      ghost var before := count;
      for k := 0 to |members|
        invariant count == before + MemberCost(members, k)
      {
        MemberCostIs(members, k);
        count := count + 1;
        if members[k].ResourceRef? && members[k].kind.ChainKind? { count := count + 1; }
      }
    }
    assert c.groups[..|c.groups|] == c.groups;
  }

  /** graph.Independents and graph.Chains before the policies. */
  method BuildBase(m: Store, c: Collected, tagOf: TagMap) returns (base: Outs)
    requires Kinds(m, c)
    ensures Rearranged(BaseOuts(m, tagOf, c), base)
  {
    assert forall k :: 0 <= k < |c.chains| ==> c.chains[k].payload.Chain?;
    var o := BuildNodes(c.nodes, tagOf);
    o := BuildChains(m, c.chains, tagOf, o);
    base := Outs(SortBy(o.independents, IndependentTag), SortBy(o.chains, ChainKey));
  }

  lemma {:induction false} SizeRearranged(o: Outs, o': Outs)
    requires Rearranged(o, o')
    ensures Size(o) == Size(o')
  {
    SameElements(o.independents, o'.independents);
    SameElements(o.chains, o'.chains);
  }

  lemma {:induction false} BaseSize(m: Store, c: Collected, tagOf: TagMap)
    requires forall k :: 0 <= k < |c.chains| ==> c.chains[k].payload.Chain?
    ensures Size(BaseOuts(m, tagOf, c)) == |c.nodes| + 2 * |c.chains|
  {
    NodeOutsSize(tagOf, c.nodes, |c.nodes|);
    ChainOutsSize(m, tagOf, c.chains, NodeOuts(tagOf, c.nodes, |c.nodes|), |c.chains|);
  }

  lemma {:induction false} FullSize(m: Store, tagOf: TagMap, groups: seq<Resource>, base: Outs)
    requires GroupsIn(m, groups)
    ensures Size(GroupOuts(m, tagOf, groups, base, |groups|)) == Size(base) + TotalCost(groups)
  {
    GroupOutsSize(m, tagOf, groups, base, |groups|);
    assert groups[..|groups|] == groups;
  }

  lemma {:induction false} FinalSize(c: Collected, groups: seq<Resource>, first: Outs, base: Outs,
                                     full: Outs, final: Outs)
    requires Rearranged(first, base) && Size(first) == |c.nodes| + 2 * |c.chains|
    requires Rearranged(full, final) && Size(full) == Size(base) + TotalCost(groups)
    requires groups == SortBy(c.groups, ResourceKey)
    ensures Size(final) == OutboundCount(c)
  {
    TotalCostSorted(c.groups, ResourceKey);
    SizeRearranged(first, base);
    SizeRearranged(full, final);
  }

  lemma {:induction false} CountKept(m: Store, c: Collected, tagOf: TagMap, base: Outs,
                                     groups: seq<Resource>, final: Outs)
    requires Rearranged(BaseOuts(m, tagOf, c), base) && Rearranged(GroupOuts(m, tagOf, groups, base, |groups|), final)
    requires groups == SortBy(c.groups, ResourceKey) && forall k :: 0 <= k < |c.chains| ==> c.chains[k].payload.Chain?
    requires Size(GroupOuts(m, tagOf, groups, base, |groups|)) == Size(base) + TotalCost(groups)
    ensures Size(final) == OutboundCount(c)
  {
    BaseSize(m, c, tagOf);
    FinalSize(c, groups, BaseOuts(m, tagOf, c), base, GroupOuts(m, tagOf, groups, base, |groups|), final);
  }

  ghost predicate GroupsUsable(groups: seq<Resource>, controlled: bool, family: CoreFamily) {
    forall r :: r in groups ==> StrategyOK(r, controlled, family)
  }

  lemma {:induction false} UsableSorted(groups: seq<Resource>, sorted: seq<Resource>, controlled: bool,
                                        family: CoreFamily)
    requires multiset(groups) == multiset(sorted)
    ensures StrategiesUpTo(sorted, |sorted|, controlled, family) <==> GroupsUsable(groups, controlled, family)
  {
    SameElements(groups, sorted);
    if StrategiesUpTo(sorted, |sorted|, controlled, family) {
      forall r | r in groups ensures StrategyOK(r, controlled, family) { assert r in sorted; }
    }
    if GroupsUsable(groups, controlled, family) {
      forall k | 0 <= k < |sorted| ensures StrategyOK(sorted[k], controlled, family) { assert sorted[k] in sorted; }
    }
  }

  lemma {:induction false} GroupsLinked(m: Store, seen: set<Id>, groups: seq<Resource>)
    requires Linked(m) && KindList(m, seen, groups, PolicyGroupKind)
    ensures GroupsIn(m, groups)
  {
    forall i | 0 <= i < |groups| ensures GroupIn(m, groups[i]) {
      assert m[groups[i].meta.id] == groups[i] && groups[i].payload.Policy?;
      GroupLinked(m, groups[i].meta.id);
    }
  }

  lemma {:induction false} PoliciesFine(m: Store, seen: set<Id>, tagOf: TagMap, stemOf: map<Id, string>, base: Outs,
                                        groups: seq<Resource>, final: Outs,
                     ps: seq<PolicyInstance>)
    requires TagsKnown(m, seen, tagOf, stemOf) && KindList(m, seen, groups, PolicyGroupKind) && GroupsIn(m, groups)
    requires Rearranged(GroupOuts(m, tagOf, groups, base, |groups|), final)
    requires multiset(ps) == multiset(Instances(m, tagOf, groups, |groups|))
    ensures |ps| == |groups| && forall p :: p in ps ==> PolicyOK(m, final, p)
  {
    var all := Instances(m, tagOf, groups, |groups|);
    SameElements(ps, all);
    forall k | 0 <= k < |all| ensures PolicyOK(m, final, all[k]) {
      InstanceAt(m, tagOf, groups, |groups|, k);
      PolicyFine(m, seen, tagOf, stemOf, base, groups, final, k);
    }
    AllAre(ps, all, p => PolicyOK(m, final, p));
  }

  lemma {:induction false} AllAre<T>(ps: seq<T>, all: seq<T>, ok: T ~> bool)
    requires (forall x :: x in ps ==> x in all) && forall k :: 0 <= k < |all| ==> ok.requires(all[k]) && ok(all[k])
    ensures forall x :: x in ps ==> ok.requires(x) && ok(x)
  {
    forall x | x in ps ensures ok.requires(x) && ok(x) { var k :| 0 <= k < |all| && all[k] == x; }
  }

  lemma {:induction false} AllStand(m: Store, c: Collected, tagOf: TagMap, stemOf: map<Id, string>, base: Outs,
                                    groups: seq<Resource>, final: Outs,
                 ps: seq<PolicyInstance>, r: Resource)
    requires Kinds(m, c) && TagsKnown(m, c.seen, tagOf, stemOf) && Rearranged(BaseOuts(m, tagOf, c), base)
    requires Rearranged(GroupOuts(m, tagOf, groups, base, |groups|), final)
    requires KindList(m, c.seen, groups, PolicyGroupKind)
    requires multiset(ps) == multiset(Instances(m, tagOf, groups, |groups|))
    requires r.meta.id in c.seen && (r in c.nodes || r in c.chains || r in groups)
    ensures StandsFor(m, final, ps, r.meta.id, ExitTag(m, tagOf, r.meta.id))
  {
    if r in groups {
      GroupStands(m, c.seen, tagOf, groups, ps, r);
    } else {
      ExitStands(m, c, tagOf, stemOf, base, groups, final, ps, r);
    }
  }

  lemma {:induction false} GroupsSorted(m: Store, c: Collected, groups: seq<Resource>)
    requires CollectedOK(m, c) && multiset(groups) == multiset(c.groups)
    ensures KindList(m, c.seen, groups, PolicyGroupKind) && forall i :: 0 <= i < |groups| ==> groups[i].payload.Policy?
  {
    KindListOf(m, c.seen, c.groups, groups, PolicyGroupKind);
  }

  lemma {:induction false} AssembledBy(m: Store, c: Collected, tagOf: TagMap, stemOf: map<Id, string>, base: Outs,
                                       groups: seq<Resource>, final: Outs,
                    ps: seq<PolicyInstance>, tags: map<Id, string>)
    requires Linked(m) && CollectedOK(m, c) && Kinds(m, c) && TagsKnown(m, c.seen, tagOf, stemOf)
    requires Rearranged(BaseOuts(m, tagOf, c), base) && Rearranged(GroupOuts(m, tagOf, groups, base, |groups|), final)
    requires groups == SortBy(c.groups, ResourceKey)
    requires multiset(ps) == multiset(Instances(m, tagOf, groups, |groups|))
    requires tags.Keys == c.seen && Exits(m, c.seen, tagOf, tags)
    ensures Assembled(m, c, final, ps, tags)
  {
    GroupsSorted(m, c, groups);
    GroupsLinked(m, c.seen, groups);
    TagsAllOK(m, c, tagOf, stemOf, base, groups, final, ps);
    ChainsAre(m, c);
    FullSize(m, tagOf, groups, base);
    CountKept(m, c, tagOf, base, groups, final);
    AllPoliciesAndTags(m, c, tagOf, stemOf, base, groups, final, ps, tags);
  }

  lemma {:induction false} ChainsAre(m: Store, c: Collected)
    requires Kinds(m, c)
    ensures forall k :: 0 <= k < |c.chains| ==> c.chains[k].payload.Chain?
  {
  }

  lemma {:induction false} AllPoliciesAndTags(m: Store, c: Collected, tagOf: TagMap,
                                              stemOf: map<Id, string>, base: Outs,
                                              groups: seq<Resource>, final: Outs, ps: seq<PolicyInstance>,
                                              tags: map<Id, string>)
    requires Linked(m) && CollectedOK(m, c) && Kinds(m, c) && TagsKnown(m, c.seen, tagOf, stemOf)
    requires KindList(m, c.seen, groups, PolicyGroupKind) && GroupsIn(m, groups)
    requires Rearranged(BaseOuts(m, tagOf, c), base) && Rearranged(GroupOuts(m, tagOf, groups, base, |groups|), final)
    requires multiset(groups) == multiset(c.groups) && multiset(ps) == multiset(Instances(m, tagOf, groups, |groups|))
    requires tags.Keys == c.seen && Exits(m, c.seen, tagOf, tags)
    ensures |ps| == |c.groups| && forall p :: p in ps ==> PolicyOK(m, final, p)
    ensures forall id :: id in c.seen ==> StandsFor(m, final, ps, id, tags[id])
  {
    PoliciesFine(m, c.seen, tagOf, stemOf, base, groups, final, ps);
    SameElements(c.groups, groups);
    forall id | id in c.seen ensures StandsFor(m, final, ps, id, tags[id]) {
      assert LinkedAt(m, id);
      AllStand(m, c, tagOf, stemOf, base, groups, final, ps, m[id]);
    }
  }

  /** Both final sorts. */
  method Arrange(o: Outs, ps: seq<PolicyInstance>) returns (o': Outs, ps': seq<PolicyInstance>)
    ensures Rearranged(o, o') && multiset(ps) == multiset(ps')
  {
    ps' := SortBy(ps, PolicyTag);
    o' := Outs(SortBy(o.independents, IndependentTag), SortBy(o.chains, FirstHopTag));
  }

  lemma {:induction false} CollectedLinked(m: Store, c: Collected)
    requires Linked(m) && CollectedOK(m, c)
    ensures Kinds(m, c) && forall id :: id in c.seen ==> id in m && m[id].meta.id == id
  {
    KindsOf(m, c);
    forall id | id in c.seen ensures id in m && m[id].meta.id == id { assert LinkedAt(m, id); }
  }

  /** Outbounds, policies and tags of the collected resources; refused when a group's strategy is unavailable. */
  method Assemble(m: Store, c: Collected, tagOf: TagMap, ghost stemOf: map<Id, string>, controlled: bool,
                  family: CoreFamily)
    returns (issue: Option<PolicyIssue>, o: Outs, ps: seq<PolicyInstance>, tags: map<Id, string>)
    requires Linked(m) && CollectedOK(m, c) && TagsKnown(m, c.seen, tagOf, stemOf)
    ensures issue.None? <==> GroupsUsable(c.groups, controlled, family)
    ensures issue.None? ==> Assembled(m, c, o, ps, tags)
  {
    CollectedLinked(m, c);
    var base := BuildBase(m, c, tagOf);
    var groups := SortBy(c.groups, ResourceKey);
    GroupsSorted(m, c, groups);
    UsableSorted(c.groups, groups, controlled, family);
    tags := FillTags(m, c, tagOf, stemOf, base, groups);
    var built, instances;
    issue, built, instances := ExpandGroups(m, tagOf, groups, base, controlled, family);
    o, ps := Arrange(built, instances);
    if issue.None? { AssembledBy(m, c, tagOf, stemOf, base, groups, o, ps, tags); }
  }
}
