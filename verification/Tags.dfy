/**
 The tags of a prepared graph (internal/compiler/prepare.go and orchestration.go): sorting, the
 map from resources to exit tags, and that no tag is empty, reserved or used twice.
 */
module Tags {
  import opened Prelude
  import opened IR
  import opened Snapshot
  import opened Labels
  import opened Names
  import opened Collect
  import opened Graph
  import opened Policies

  // ---- Sorting keeps everything that matters ----

  function ChainKey(c: ChainInstance): string { c.resourceId }
  function PolicyTag(p: PolicyInstance): string { p.tag }

  ghost predicate Rearranged(o: Outs, o': Outs) {
    multiset(o.independents) == multiset(o'.independents) && multiset(o.chains) == multiset(o'.chains)
  }

  lemma {:induction false} DistinctRearranged(o: Outs, o': Outs)
    requires DistinctOuts(o) && Rearranged(o, o')
    ensures DistinctOuts(o')
  {
    SameElements(o.independents, o'.independents);
    SameElements(o.chains, o'.chains);
    forall i, j | 0 <= i < j < |o'.independents| ensures o'.independents[i].tag != o'.independents[j].tag {
      var a, b := PairPermuted(o'.independents, o.independents, i, j);
    }
    forall i, j | 0 <= i < j < |o'.chains|
      ensures o'.chains[i].tagH1 != o'.chains[j].tagH1 && o'.chains[i].tagH2 != o'.chains[j].tagH2
    {
      var a, b := PairPermuted(o'.chains, o.chains, i, j);
    }
    HopsApart(o, o');
  }

  lemma {:induction false} HopsApart(o: Outs, o': Outs)
    requires DistinctOuts(o)
    requires (forall x :: x in o'.independents ==> x in o.independents) && forall c :: c in o'.chains ==> c in o.chains
    ensures forall i, j :: 0 <= i < |o'.chains| && 0 <= j < |o'.chains| ==> o'.chains[i].tagH1 != o'.chains[j].tagH2
    ensures forall i, j :: 0 <= i < |o'.independents| && 0 <= j < |o'.chains| ==>
              o'.independents[i].tag != o'.chains[j].tagH1 && o'.independents[i].tag != o'.chains[j].tagH2
  {
    forall i, j | 0 <= i < |o'.chains| && 0 <= j < |o'.chains| ensures o'.chains[i].tagH1 != o'.chains[j].tagH2 {
      assert o'.chains[i] in o'.chains && o'.chains[j] in o'.chains;
      var a, b :| 0 <= a < |o.chains| && o.chains[a] == o'.chains[i] && 0 <= b < |o.chains|
          && o.chains[b] == o'.chains[j];
    }
    forall i, j | 0 <= i < |o'.independents| && 0 <= j < |o'.chains|
      ensures o'.independents[i].tag != o'.chains[j].tagH1 && o'.independents[i].tag != o'.chains[j].tagH2
    {
      assert o'.independents[i] in o'.independents && o'.chains[j] in o'.chains;
      var a, b :| 0 <= a < |o.independents| && o.independents[a] == o'.independents[i] && 0 <= b < |o.chains|
          && o.chains[b] == o'.chains[j];
    }
  }

  lemma {:induction false} TaggedRearranged(o: Outs, o': Outs, names: NameOf)
    requires Tagged(o, names) && Rearranged(o, o')
    ensures Tagged(o', names)
  {
    DistinctRearranged(o, o');
    SameElements(o.independents, o'.independents);
    SameElements(o.chains, o'.chains);
    forall i | 0 <= i < |o'.independents| ensures o'.independents[i].tag in names {
      assert o'.independents[i] in o'.independents && o'.independents[i] in o.independents;
    }
    forall i | 0 <= i < |o'.chains| ensures o'.chains[i].tagH1 in names && o'.chains[i].tagH2 in names {
      assert o'.chains[i] in o'.chains && o'.chains[i] in o.chains;
    }
  }

  lemma {:induction false} UsedRearranged(m: Store, o: Outs, o': Outs, ref: TargetRef, t: string)
    requires UsedAs(m, o, ref, t) && Rearranged(o, o')
    ensures UsedAs(m, o', ref, t)
  {
    SameElements(o.independents, o'.independents);
    SameElements(o.chains, o'.chains);
    if IsChain(m, ref) {
      var t1 :| ChainOf(m, m[ref.id], t1, t) in o.chains;
      assert ChainOf(m, m[ref.id], t1, t) in o'.chains;
    }
  }

  lemma {:induction false} KindListOf(m: Store, seen: set<Id>, rs: seq<Resource>, rs': seq<Resource>, kind: Kind)
    requires Listed(m, rs, seen) && (forall r :: r in rs ==> KindOf(r.payload) == kind) && multiset(rs) == multiset(rs')
    ensures KindList(m, seen, rs', kind)
  {
    SameElements(rs, rs');
    forall i, j | 0 <= i < j < |rs'|
        ensures rs'[i].meta.id != rs'[j].meta.id { var a, b := PairPermuted(rs', rs, i, j); }
    forall i | 0 <= i < |rs'| ensures rs'[i] in rs { assert rs'[i] in rs'; }
  }

  // ---- Exit tags: which tag stands for a resource ----

  /** A node's tag, a chain's second hop, a group's tag. */
  function ExitTag(m: Store, tagOf: TagMap, id: Id): string {
    if id !in m || id !in tagOf then ""
    else if m[id].payload.Chain? then (if |tagOf[id]| > 1 then tagOf[id][1] else "")
    else if |tagOf[id]| > 0 then tagOf[id][0] else ""
  }

  lemma {:induction false} NodeOutsAre(tagOf: TagMap, rs: seq<Resource>, i: nat)
    requires i <= |rs|
    ensures var o := NodeOuts(tagOf, rs, i);
            o.chains == [] && |o.independents| == i && forall k :: 0 <= k < i ==>
                o.independents[k] == NodeOut(tagOf, rs[k])
  {
    if i > 0 { NodeOutsAre(tagOf, rs, i - 1); }
  }

  lemma {:induction false} ChainOutsAre(m: Store, tagOf: TagMap, rs: seq<Resource>, o: Outs, i: nat)
    requires i <= |rs| && o.chains == [] && forall k :: 0 <= k < |rs| ==> rs[k].payload.Chain?
    ensures var o' := ChainOuts(m, tagOf, rs, o, i);
            o'.independents == o.independents && |o'.chains| == i && forall k :: 0 <= k < i ==>
                o'.chains[k] == ChainOut(m, tagOf, rs[k])
  {
    if i > 0 { ChainOutsAre(m, tagOf, rs, o, i - 1); }
  }

  function BaseOuts(m: Store, tagOf: TagMap, c: Collected): Outs {
    ChainOuts(m, tagOf, c.chains, NodeOuts(tagOf, c.nodes, |c.nodes|), |c.chains|)
  }

  /** The outbound k of the nodes carries node k under its exit tag. */
  lemma {:induction false} NodeExit(m: Store, seen: set<Id>, tagOf: TagMap, stemOf: map<Id, string>,
                                    rs: seq<Resource>, k: nat)
    requires TagsKnown(m, seen, tagOf, stemOf) && KindList(m, seen, rs, NodeKind) && k < |rs|
    ensures NodeOut(tagOf, rs[k]) == IndependentOutbound(ExitTag(m, tagOf, rs[k].meta.id), rs[k])
  {
    assert rs[k].payload.Node?;
  }

  lemma {:induction false} ChainExit(m: Store, seen: set<Id>, tagOf: TagMap, stemOf: map<Id, string>,
                                     rs: seq<Resource>, k: nat)
    requires TagsKnown(m, seen, tagOf, stemOf) && KindList(m, seen, rs, ChainKind) && k < |rs|
    ensures rs[k].payload.Chain?
    ensures exists t1 :: ChainOut(m, tagOf, rs[k]) == ChainOf(m, rs[k], t1, ExitTag(m, tagOf, rs[k].meta.id))
  {
    assert rs[k].payload.Chain?;
    var t := tagOf[rs[k].meta.id];
    assert ChainOut(m, tagOf, rs[k]) == ChainOf(m, rs[k], t[0], ExitTag(m, tagOf, rs[k].meta.id));
  }

  ghost predicate Kinds(m: Store, c: Collected) {
    KindList(m, c.seen, c.nodes, NodeKind) && KindList(m, c.seen, c.chains, ChainKind)
        && KindList(m, c.seen, c.groups, PolicyGroupKind)
  }

  lemma {:induction false} KindsOf(m: Store, c: Collected)
    requires CollectedOK(m, c)
    ensures Kinds(m, c)
  {
    KindListOf(m, c.seen, c.nodes, c.nodes, NodeKind);
    KindListOf(m, c.seen, c.chains, c.chains, ChainKind);
    KindListOf(m, c.seen, c.groups, c.groups, PolicyGroupKind);
  }

  lemma {:induction false} BaseOutsAre(m: Store, tagOf: TagMap, c: Collected)
    requires Kinds(m, c)
    ensures var o := BaseOuts(m, tagOf, c);
            && |o.independents| == |c.nodes|
                && (forall k :: 0 <= k < |c.nodes| ==> o.independents[k] == NodeOut(tagOf, c.nodes[k]))
            && |o.chains| == |c.chains|
            && forall k :: 0 <= k < |c.chains| ==>
                c.chains[k].payload.Chain? && o.chains[k] == ChainOut(m, tagOf, c.chains[k])
  {
    NodeOutsAre(tagOf, c.nodes, |c.nodes|);
    assert forall k :: 0 <= k < |c.chains| ==> c.chains[k].payload.Chain?;
    ChainOutsAre(m, tagOf, c.chains, NodeOuts(tagOf, c.nodes, |c.nodes|), |c.chains|);
  }

  lemma {:induction false} NodeListed(m: Store, tagOf: TagMap, stemOf: map<Id, string>, c: Collected, r: Resource)
    requires Kinds(m, c) && TagsKnown(m, c.seen, tagOf, stemOf) && r in c.nodes
    ensures IndependentOutbound(ExitTag(m, tagOf, r.meta.id), r) in BaseOuts(m, tagOf, c).independents
  {
    BaseOutsAre(m, tagOf, c);
    var k :| 0 <= k < |c.nodes| && c.nodes[k] == r;
    NodeExit(m, c.seen, tagOf, stemOf, c.nodes, k);
    assert BaseOuts(m, tagOf, c).independents[k] in BaseOuts(m, tagOf, c).independents;
  }

  lemma {:induction false} ChainListed(m: Store, tagOf: TagMap, stemOf: map<Id, string>, c: Collected, r: Resource)
    requires Kinds(m, c) && TagsKnown(m, c.seen, tagOf, stemOf) && r in c.chains
    ensures r.payload.Chain?
    ensures exists t1 :: ChainOf(m, r, t1, ExitTag(m, tagOf, r.meta.id)) in BaseOuts(m, tagOf, c).chains
  {
    BaseOutsAre(m, tagOf, c);
    var k :| 0 <= k < |c.chains| && c.chains[k] == r;
    ChainExit(m, c.seen, tagOf, stemOf, c.chains, k);
    assert BaseOuts(m, tagOf, c).chains[k] in BaseOuts(m, tagOf, c).chains;
  }

  lemma {:induction false} OnlyNodes(m: Store, tagOf: TagMap, stemOf: map<Id, string>, c: Collected,
                                     x: IndependentOutbound)
    requires Kinds(m, c) && TagsKnown(m, c.seen, tagOf, stemOf) && x in BaseOuts(m, tagOf, c).independents
    ensures x.resource.meta.id in c.seen && x.tag == ExitTag(m, tagOf, x.resource.meta.id)
  {
    BaseOutsAre(m, tagOf, c);
    var k :| 0 <= k < |c.nodes| && BaseOuts(m, tagOf, c).independents[k] == x;
    NodeExit(m, c.seen, tagOf, stemOf, c.nodes, k);
  }

  lemma {:induction false} OnlyChains(m: Store, tagOf: TagMap, stemOf: map<Id, string>, c: Collected, x: ChainInstance)
    requires Kinds(m, c) && TagsKnown(m, c.seen, tagOf, stemOf) && x in BaseOuts(m, tagOf, c).chains
    ensures x.resourceId in c.seen && x.tagH2 == ExitTag(m, tagOf, x.resourceId)
  {
    BaseOutsAre(m, tagOf, c);
    var k :| 0 <= k < |c.chains| && BaseOuts(m, tagOf, c).chains[k] == x;
    ChainExit(m, c.seen, tagOf, stemOf, c.chains, k);
  }

  // ---- The tags map ----

  /** Only exit tags, and only of collected resources. */
  ghost predicate Exits(m: Store, seen: set<Id>, tagOf: TagMap, tags: map<Id, string>) {
    forall id :: id in tags ==> id in seen && tags[id] == ExitTag(m, tagOf, id)
  }

  method TagNodes(m: Store, ghost seen: set<Id>, ghost tagOf: TagMap, xs: seq<IndependentOutbound>,
                  tags: map<Id, string>)
    returns (tags': map<Id, string>)
    requires Exits(m, seen, tagOf, tags)
    requires forall x :: x in xs ==> x.resource.meta.id in seen && x.tag == ExitTag(m, tagOf, x.resource.meta.id)
    ensures Exits(m, seen, tagOf, tags') && tags.Keys <= tags'.Keys && forall x :: x in xs ==>
            x.resource.meta.id in tags'
  {
    tags' := tags;
    for i := 0 to |xs|
      invariant Exits(m, seen, tagOf, tags') && tags.Keys <= tags'.Keys
      invariant forall k :: 0 <= k < i ==> xs[k].resource.meta.id in tags'
    {
      assert xs[i] in xs;
      tags' := tags'[xs[i].resource.meta.id := xs[i].tag];
    }
  }

  method TagChains(m: Store, ghost seen: set<Id>, ghost tagOf: TagMap, xs: seq<ChainInstance>, tags: map<Id, string>)
    returns (tags': map<Id, string>)
    requires Exits(m, seen, tagOf, tags)
    requires forall x :: x in xs ==> x.resourceId in seen && x.tagH2 == ExitTag(m, tagOf, x.resourceId)
    ensures Exits(m, seen, tagOf, tags') && tags.Keys <= tags'.Keys && forall x :: x in xs ==> x.resourceId in tags'
  {
    tags' := tags;
    for i := 0 to |xs|
      invariant Exits(m, seen, tagOf, tags') && tags.Keys <= tags'.Keys
      invariant forall k :: 0 <= k < i ==> xs[k].resourceId in tags'
    {
      assert xs[i] in xs;
      tags' := tags'[xs[i].resourceId := xs[i].tagH2];
    }
  }

  method TagGroups(m: Store, ghost seen: set<Id>, tagOf: TagMap, rs: seq<Resource>, tags: map<Id, string>)
    returns (tags': map<Id, string>)
    requires Exits(m, seen, tagOf, tags) && KindList(m, seen, rs, PolicyGroupKind)
    ensures Exits(m, seen, tagOf, tags') && tags.Keys <= tags'.Keys && forall r :: r in rs ==> r.meta.id in tags'
  {
    tags' := tags;
    for i := 0 to |rs|
      invariant Exits(m, seen, tagOf, tags') && tags.Keys <= tags'.Keys
      invariant forall k :: 0 <= k < i ==> rs[k].meta.id in tags'
    {
      assert rs[i].payload.Policy?;
      tags' := tags'[rs[i].meta.id := GroupTag(tagOf, rs[i])];
    }
  }

  lemma {:induction false} NodeCovered(m: Store, c: Collected, tagOf: TagMap, stemOf: map<Id, string>,
                                       base: Outs, r: Resource)
    requires Kinds(m, c) && TagsKnown(m, c.seen, tagOf, stemOf) && Rearranged(BaseOuts(m, tagOf, c), base)
    requires r in c.nodes
    ensures IndependentOutbound(ExitTag(m, tagOf, r.meta.id), r) in base.independents
  {
    NodeListed(m, tagOf, stemOf, c, r);
    SameElements(BaseOuts(m, tagOf, c).independents, base.independents);
  }

  lemma {:induction false} ChainCovered(m: Store, c: Collected, tagOf: TagMap, stemOf: map<Id, string>,
                                        base: Outs, r: Resource)
    requires Kinds(m, c) && TagsKnown(m, c.seen, tagOf, stemOf) && Rearranged(BaseOuts(m, tagOf, c), base)
    requires r in c.chains
    ensures r.payload.Chain? && exists t1 :: ChainOf(m, r, t1, ExitTag(m, tagOf, r.meta.id)) in base.chains
  {
    ChainListed(m, tagOf, stemOf, c, r);
    SameElements(BaseOuts(m, tagOf, c).chains, base.chains);
    var t1 :| ChainOf(m, r, t1, ExitTag(m, tagOf, r.meta.id)) in BaseOuts(m, tagOf, c).chains;
    assert ChainOf(m, r, t1, ExitTag(m, tagOf, r.meta.id)) in base.chains;
  }

  lemma {:induction false} Covered(m: Store, c: Collected, tagOf: TagMap, stemOf: map<Id, string>, base: Outs,
                                   r: Resource, tags: map<Id, string>)
    requires Kinds(m, c) && TagsKnown(m, c.seen, tagOf, stemOf) && Rearranged(BaseOuts(m, tagOf, c), base)
    requires r in c.nodes || r in c.chains
    requires forall x :: x in base.independents ==> x.resource.meta.id in tags
    requires forall x :: x in base.chains ==> x.resourceId in tags
    ensures r.meta.id in tags
  {
    if r in c.nodes {
      NodeCovered(m, c, tagOf, stemOf, base, r);
    } else {
      ChainCovered(m, c, tagOf, stemOf, base, r);
    }
  }

  /** tags: exactly the collected resources, each under its exit tag. */
  method FillTags(m: Store, ghost c: Collected, tagOf: TagMap, ghost stemOf: map<Id, string>, base: Outs,
                  groups: seq<Resource>)
    returns (tags: map<Id, string>)
    requires CollectedOK(m, c) && Kinds(m, c) && TagsKnown(m, c.seen, tagOf, stemOf)
    requires forall id :: id in c.seen ==> id in m && m[id].meta.id == id
    requires Rearranged(BaseOuts(m, tagOf, c), base) && multiset(groups) == multiset(c.groups)
    ensures tags.Keys == c.seen && Exits(m, c.seen, tagOf, tags)
  {
    BaseExits(m, c, tagOf, stemOf, base);
    KindListOf(m, c.seen, c.groups, groups, PolicyGroupKind);
    tags := TagNodes(m, c.seen, tagOf, base.independents, map[]);
    tags := TagChains(m, c.seen, tagOf, base.chains, tags);
    tags := TagGroups(m, c.seen, tagOf, groups, tags);
    SameElements(c.groups, groups);
    forall id | id in c.seen ensures id in tags {
      if m[id] in c.nodes || m[id] in c.chains { Covered(m, c, tagOf, stemOf, base, m[id], tags); }
    }
  }

  lemma {:induction false} BaseExits(m: Store, c: Collected, tagOf: TagMap, stemOf: map<Id, string>, base: Outs)
    requires Kinds(m, c) && TagsKnown(m, c.seen, tagOf, stemOf) && Rearranged(BaseOuts(m, tagOf, c), base)
    ensures forall x :: x in base.independents ==>
            x.resource.meta.id in c.seen && x.tag == ExitTag(m, tagOf, x.resource.meta.id)
    ensures forall x :: x in base.chains ==> x.resourceId in c.seen && x.tagH2 == ExitTag(m, tagOf, x.resourceId)
  {
    SameElements(BaseOuts(m, tagOf, c).independents, base.independents);
    SameElements(BaseOuts(m, tagOf, c).chains, base.chains);
    forall x | x in base.independents ensures x.resource.meta.id in c.seen
        && x.tag == ExitTag(m, tagOf, x.resource.meta.id) {
      OnlyNodes(m, tagOf, stemOf, c, x);
    }
    forall x | x in base.chains ensures x.resourceId in c.seen && x.tagH2 == ExitTag(m, tagOf, x.resourceId) {
      OnlyChains(m, tagOf, stemOf, c, x);
    }
  }

  // ---- All tags differ ----

  lemma {:induction false} BaseTagged(m: Store, c: Collected, tagOf: TagMap, stemOf: map<Id, string>)
    returns (names: NameOf, nodes: set<string>, chains: set<string>)
    requires Kinds(m, c) && TagsKnown(m, c.seen, tagOf, stemOf)
    ensures Tagged(BaseOuts(m, tagOf, c), names) && Within(names, nodes, chains, {})
  {
    names, nodes := NodesTagged(m, c.seen, c.nodes, tagOf, stemOf, |c.nodes|);
    names, chains := ChainsTagged(m, c.seen, c.chains, tagOf, stemOf, NodeOuts(tagOf, c.nodes, |c.nodes|), names,
                                  nodes, |c.chains|);
  }

  /** Outbounds after all groups are expanded: every tag the printed form of its own name, none a group's. */
  lemma {:induction false} AllTagged(m: Store, c: Collected, tagOf: TagMap, stemOf: map<Id, string>, base: Outs,
                                     groups: seq<Resource>, final: Outs)
    returns (names: NameOf)
    requires Kinds(m, c) && TagsKnown(m, c.seen, tagOf, stemOf) && Rearranged(BaseOuts(m, tagOf, c), base)
    requires KindList(m, c.seen, groups, PolicyGroupKind) && GroupsIn(m, groups)
    requires Rearranged(GroupOuts(m, tagOf, groups, base, |groups|), final)
    ensures Tagged(final, names) && forall t :: t in names ==> !names[t].GroupName?
  {
    var nodes, chains, used;
    names, nodes, chains := BaseTagged(m, c, tagOf, stemOf);
    TaggedRearranged(BaseOuts(m, tagOf, c), base, names);
    names, used := GroupsTagged(m, c.seen, tagOf, stemOf, groups, base, names, nodes, chains, |groups|);
    TaggedRearranged(GroupOuts(m, tagOf, groups, base, |groups|), final, names);
    forall t | t in names ensures !names[t].GroupName? { assert NameWithin(names[t], nodes, chains, used); }
  }

  predicate Usable(t: string) { t != "" && !IsReservedTag(t) }

  /** No tag of the graph is empty, reserved or used twice. */
  ghost predicate TagsOK(o: Outs, ps: seq<PolicyInstance>) {
    && DistinctOuts(o)
    && (forall i, j :: 0 <= i < j < |ps| ==> ps[i].tag != ps[j].tag)
    && (forall p :: p in ps ==> Unused(o, p.tag) && Usable(p.tag))
    && (forall x :: x in o.independents ==> Usable(x.tag))
    && forall x :: x in o.chains ==> Usable(x.tagH1) && Usable(x.tagH2)
  }

  lemma {:induction false} UsableName(n: Name, t: string)
    requires PrintsAs(n, t)
    ensures Usable(t)
  {
    PrintNotReserved(n);
  }

  lemma {:induction false} OutTagsUsable(o: Outs, names: NameOf)
    requires Tagged(o, names)
    ensures forall x :: x in o.independents ==> Usable(x.tag)
    ensures forall x :: x in o.chains ==> Usable(x.tagH1) && Usable(x.tagH2)
  {
    forall t | t in names ensures Usable(t) { UsableName(names[t], t); }
  }

  lemma {:induction false} GroupTagUnused(o: Outs, names: NameOf, stem: string, t: string)
    requires Tagged(o, names) && (forall u :: u in names ==> !names[u].GroupName?) && PrintsAs(GroupName(stem), t)
    ensures Unused(o, t)
  {
    FreshTag(names, GroupName(stem), t);
  }

  lemma {:induction false} GroupTagsDiffer(m: Store, seen: set<Id>, tagOf: TagMap, stemOf: map<Id, string>,
                                           rs: seq<Resource>, i: nat, j: nat)
    requires TagsKnown(m, seen, tagOf, stemOf) && KindList(m, seen, rs, PolicyGroupKind) && i < j < |rs|
    ensures GroupTag(tagOf, rs[i]) != GroupTag(tagOf, rs[j])
  {
    GroupLabel(m, seen, tagOf, stemOf, rs, i);
    GroupLabel(m, seen, tagOf, stemOf, rs, j);
    assert Apart(m, stemOf, rs[i].meta.id, rs[j].meta.id);
    var x, y := GroupName(stemOf[rs[i].meta.id]), GroupName(stemOf[rs[j].meta.id]);
    if GroupTag(tagOf, rs[i]) == GroupTag(tagOf, rs[j]) { PrintInjective(x, y); }
  }

  lemma {:induction false} PolicyTagOK(m: Store, seen: set<Id>, tagOf: TagMap, stemOf: map<Id, string>,
                                       groups: seq<Resource>, final: Outs, names: NameOf,
                    p: PolicyInstance)
    requires TagsKnown(m, seen, tagOf, stemOf) && KindList(m, seen, groups, PolicyGroupKind)
    requires Tagged(final, names) && (forall t :: t in names ==> !names[t].GroupName?)
    requires p in Instances(m, tagOf, groups, |groups|)
    ensures Unused(final, p.tag) && Usable(p.tag)
  {
    var k :| 0 <= k < |groups| && Instances(m, tagOf, groups, |groups|)[k] == p;
    InstanceAt(m, tagOf, groups, |groups|, k);
    GroupLabel(m, seen, tagOf, stemOf, groups, k);
    GroupTagUnused(final, names, stemOf[groups[k].meta.id], p.tag);
    UsableName(GroupName(stemOf[groups[k].meta.id]), p.tag);
  }

  lemma {:induction false} PolicyTagsDiffer(m: Store, seen: set<Id>, tagOf: TagMap, stemOf: map<Id, string>,
                                            groups: seq<Resource>,
                         ps: seq<PolicyInstance>, i: nat, j: nat)
    requires TagsKnown(m, seen, tagOf, stemOf) && KindList(m, seen, groups, PolicyGroupKind)
    requires multiset(ps) == multiset(Instances(m, tagOf, groups, |groups|)) && i < j < |ps|
    ensures ps[i].tag != ps[j].tag
  {
    var a, b := PairPermuted(ps, Instances(m, tagOf, groups, |groups|), i, j);
    InstanceAt(m, tagOf, groups, |groups|, a);
    InstanceAt(m, tagOf, groups, |groups|, b);
    GroupTagsDiffer(m, seen, tagOf, stemOf, groups, if a < b then a else b, if a < b then b else a);
  }

  lemma {:induction false} TagsAllOK(m: Store, c: Collected, tagOf: TagMap, stemOf: map<Id, string>, base: Outs,
                                     groups: seq<Resource>,
                  final: Outs, ps: seq<PolicyInstance>)
    requires Kinds(m, c) && TagsKnown(m, c.seen, tagOf, stemOf) && Rearranged(BaseOuts(m, tagOf, c), base)
    requires KindList(m, c.seen, groups, PolicyGroupKind) && GroupsIn(m, groups)
    requires Rearranged(GroupOuts(m, tagOf, groups, base, |groups|), final)
    requires multiset(ps) == multiset(Instances(m, tagOf, groups, |groups|))
    ensures TagsOK(final, ps)
  {
    var names := AllTagged(m, c, tagOf, stemOf, base, groups, final);
    OutTagsUsable(final, names);
    SameElements(ps, Instances(m, tagOf, groups, |groups|));
    forall p | p in ps ensures Unused(final, p.tag) && Usable(p.tag) {
      PolicyTagOK(m, c.seen, tagOf, stemOf, groups, final, names, p);
    }
    forall i, j | 0 <= i < j < |ps| ensures ps[i].tag != ps[j].tag {
      PolicyTagsDiffer(m, c.seen, tagOf, stemOf, groups, ps, i, j);
    }
  }
}
