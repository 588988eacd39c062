/**
 The first half of Compiler.Prepare (internal/compiler/prepare.go): applying the target's policy
 overrides, and collecting the nodes, chains and groups that need labels.
 */
module Collect {
  import opened Prelude
  import opened IR
  import opened Snapshot
  import opened Labels

  // ---- The store with overrides applied ----

  function Overridden(r: Resource, target: Target): Resource {
    if r.meta.id in target.overrides && r.payload.Policy?
    then r.(payload := Policy(MergedGroup(r.payload.group, target.overrides[r.meta.id])))
    else r
  }

  function Merged(store: Store, target: Target): Store {
    map id | id in store :: Overridden(store[id], target)
  }

  /** What the later passes rely on: typed, linked, valid payloads under their own ids. */
  ghost predicate Linked(m: Store) {
    forall id :: id in m ==> LinkedAt(m, id)
  }

  ghost predicate LinkedAt(m: Store, id: Id)
    requires id in m
  {
    var r := m[id];
    && r.meta.id == id && KindOf(r.payload) == r.meta.kind
    && (forall l :: l in Links(r.payload) ==> Resolved(m, l))
    && (r.payload.Chain? ==> |r.payload.hops| == 2)
    && (r.payload.Policy? ==> ValidGroup(r.payload.group))
    && (r.payload.Routing? ==> ValidRouting(r.payload.routing))
    && (r.payload.DNS? ==> ValidDNS(r.payload.dns))
  }

  lemma {:induction false} OverriddenKeeps(r: Resource, target: Target)
    ensures Overridden(r, target).meta == r.meta && Links(Overridden(r, target).payload) == Links(r.payload)
    ensures KindOf(Overridden(r, target).payload) == KindOf(r.payload)
    ensures !r.payload.Policy? ==> Overridden(r, target) == r
  {
  }

  /** An accepted snapshot stays linked after the overrides of any of its targets. */
  lemma {:induction false} MergedLinked(schema: Schema, spec: Spec, target: Target)
    requires Accepted(schema, spec) && target in spec.targets
    ensures Linked(Merged(StoreOf(spec.resources), target))
  {
    var store := StoreOf(spec.resources);
    var m := Merged(store, target);
    StoreHolds(spec.resources);
    forall id | id in m ensures LinkedAt(m, id) {
      var r := store[id];
      OverriddenKeeps(r, target);
      assert ValidResource(schema, r) && PayloadLinked(spec, store, r.payload);
      forall l | l in Links(m[id].payload) ensures Resolved(m, l) {
        assert Resolved(store, l);
        OverriddenKeeps(store[l.id], target);
      }
      if id in target.overrides { assert OverrideClosed(schema, spec, store, target, id); }
    }
  }

  lemma {:induction false} AcceptedMerges(schema: Schema, spec: Spec, target: Target, r: Resource)
    requires Accepted(schema, spec) && target in spec.targets && r in spec.resources && r.meta.id in target.overrides
    ensures r.payload.Policy? && Mergeable(schema, r, target.overrides[r.meta.id])
  {
    StoreHolds(spec.resources);
    assert OverrideClosed(schema, spec, StoreOf(spec.resources), target, r.meta.id);
  }

  ghost predicate AllMerge(schema: Schema, rs: seq<Resource>, target: Target) {
    forall i :: 0 <= i < |rs| && rs[i].meta.id in target.overrides ==>
        Mergeable(schema, rs[i], target.overrides[rs[i].meta.id])
  }

  /** In an accepted snapshot every override of a pinned target merges. */
  lemma {:induction false} AcceptedAllMerge(schema: Schema, spec: Spec, target: Target)
    requires Accepted(schema, spec) && target in spec.targets
    ensures AllMerge(schema, spec.resources, target)
  {
    forall i | 0 <= i < |spec.resources| && spec.resources[i].meta.id in target.overrides
      ensures Mergeable(schema, spec.resources[i], target.overrides[spec.resources[i].meta.id])
    {
      AcceptedMerges(schema, spec, target, spec.resources[i]);
    }
  }

  lemma {:induction false} MergedStep(rs: seq<Resource>, i: nat, target: Target)
    requires i < |rs|
    ensures Merged(StoreOf(rs[..i + 1]), target) ==
            Merged(StoreOf(rs[..i]), target)[rs[i].meta.id := Overridden(rs[i], target)]
  {
    assert rs[..i + 1][..i] == rs[..i];
  }

  /** MergePolicyOverride on one resource. */
  method ApplyOverride(schema: Schema, r: Resource, target: Target) returns (out: Option<Resource>)
    ensures out.None? <==> r.meta.id in target.overrides && !Mergeable(schema, r, target.overrides[r.meta.id])
    ensures out.Some? ==> out.value == Overridden(r, target)
  {
    if r.meta.id !in target.overrides { return Some(r); }
    var override := target.overrides[r.meta.id];
    if !Mergeable(schema, r, override) { return None; }
    return Some(r.(payload := Policy(MergedGroup(r.payload.group, override))));
  }

  /** The resource loop: fails exactly when some override does not merge. */
  method MergeOverrides(schema: Schema, rs: seq<Resource>, target: Target) returns (r: Option<Store>)
    ensures r.Some? <==> AllMerge(schema, rs, target)
    ensures r.Some? ==> r.value == Merged(StoreOf(rs), target)
  {
    var m: Store := map[];
    var i := 0;
    while i < |rs|
      invariant 0 <= i <= |rs| && m == Merged(StoreOf(rs[..i]), target)
      invariant forall k :: 0 <= k < i && rs[k].meta.id in target.overrides ==>
              Mergeable(schema, rs[k], target.overrides[rs[k].meta.id])
    {
      MergedStep(rs, i, target);
      var resource := ApplyOverride(schema, rs[i], target);
      if resource.None? { return None; }
      m := m[rs[i].meta.id := resource.value];
      i := i + 1;
    }
    assert rs[..|rs|] == rs;
    return Some(m);
  }

  // ---- Outbound references ----

  function Actions(rules: seq<RoutingRule>): seq<TargetRef> {
    if rules == [] then [] else [rules[0].action] + Actions(rules[1..])
  }

  function Outbounds(resolvers: seq<Resolver>): seq<TargetRef> {
    if resolvers == [] then []
    else (if resolvers[0].outbound.Some? then [resolvers[0].outbound.value] else []) + Outbounds(resolvers[1..])
  }

  /** The references that must become tags: routing actions and final, resolver outbounds. */
  function TargetRefs(payload: Payload): seq<TargetRef> {
    match payload
    case Routing(p) => [p.final] + Actions(p.rules)
    case DNS(p) => Outbounds(p.resolvers)
    case _ => []
  }

  predicate Outbound(payload: Payload) { payload.Node? || payload.Chain? || payload.Policy? }

  lemma {:induction false} ActionsLinked(rules: seq<RoutingRule>, ref: TargetRef)
    requires ref in Actions(rules) && ref.ResourceRef?
    ensures Link(ref.id, ref.kind) in RoutingRuleLinks(rules) && exists r :: r in rules && r.action == ref
  {
    if ref == rules[0].action {
      assert rules[0] in rules;
      assert Link(ref.id, ref.kind) in RefLinks(ref);
    } else {
      ActionsLinked(rules[1..], ref);
    }
  }

  lemma {:induction false} OutboundsLinked(resolvers: seq<Resolver>, ref: TargetRef)
    requires ref in Outbounds(resolvers) && ref.ResourceRef?
    ensures Link(ref.id, ref.kind) in ResolverLinks(resolvers)
    ensures exists r :: r in resolvers && r.outbound == Some(ref)
  {
    if resolvers[0].outbound == Some(ref) {
      assert resolvers[0] in resolvers;
      assert Link(ref.id, ref.kind) in RefLinks(ref);
    } else {
      OutboundsLinked(resolvers[1..], ref);
    }
  }

  /** Every such reference resolves to a node, a chain or a group of the same store. */
  lemma {:induction false} TargetRefResolved(m: Store, id: Id, ref: TargetRef)
    requires Linked(m) && id in m && ref in TargetRefs(m[id].payload) && ref.ResourceRef?
    ensures ref.id in m && Outbound(m[ref.id].payload)
  {
    assert LinkedAt(m, id);
    match m[id].payload {
      case Routing(p) =>
        if ref in Actions(p.rules) { ActionsLinked(p.rules, ref); }
        assert OutboundRef(ref);
        if ref == p.final { assert Link(ref.id, ref.kind) in RefLinks(p.final); }
        assert Link(ref.id, ref.kind) in Links(m[id].payload);
      case DNS(p) =>
        OutboundsLinked(p.resolvers, ref);
        assert Link(ref.id, ref.kind) in Links(m[id].payload);
    }
    assert Resolved(m, Link(ref.id, ref.kind)) && LinkedAt(m, ref.id);
  }

  // ---- Collection ----

  datatype Collected = Collected(
    nodes: seq<Resource>, chains: seq<Resource>, groups: seq<Resource>, items: seq<Item>, seen: set<Id>)

  function ItemOf(r: Resource): Item {
    if r.payload.Chain? then ChainItem(r.meta.id, r.meta.revision)
    else if r.payload.Policy? then PolicyItem(r.meta.id, r.meta.revision)
    else NodeItem(r.meta.id, r.meta.revision)
  }

  /** Resources of the store, no id twice, all seen. */
  ghost predicate Listed(m: Store, rs: seq<Resource>, seen: set<Id>) {
    && (forall i, j :: 0 <= i < j < |rs| ==> rs[i].meta.id != rs[j].meta.id)
    && forall r :: r in rs ==> r.meta.id in seen && r.meta.id in m && m[r.meta.id] == r
  }

  ghost predicate CollectedOK(m: Store, c: Collected) {
    && Listed(m, c.nodes, c.seen) && Listed(m, c.chains, c.seen) && Listed(m, c.groups, c.seen)
    && (forall r :: r in c.nodes ==> r.payload.Node? && ItemOf(r) in c.items)
    && (forall r :: r in c.chains ==> r.payload.Chain? && ItemOf(r) in c.items)
    && (forall r :: r in c.groups ==> r.payload.Policy? && ItemOf(r) in c.items)
    && forall id :: id in c.seen ==> id in m && (m[id] in c.nodes || m[id] in c.chains || m[id] in c.groups)
  }

  lemma {:induction false} ListedAppend(m: Store, rs: seq<Resource>, seen: set<Id>, id: Id)
    requires Listed(m, rs, seen) && id in m && m[id].meta.id == id && id !in seen
    ensures Listed(m, rs + [m[id]], seen + {id})
  {
    forall i | 0 <= i < |rs| ensures rs[i].meta.id != id { assert rs[i] in rs; }
  }

  /** The collection after one id: a new node, chain or group joins its list with its label item. */
  function Added(m: Store, c: Collected, id: Id): Collected {
    if id !in m || !Outbound(m[id].payload) || id in c.seen then c
    else
      var r := m[id];
      Collected(if r.payload.Node? then c.nodes + [r] else c.nodes,
                if r.payload.Chain? then c.chains + [r] else c.chains,
                if r.payload.Policy? then c.groups + [r] else c.groups,
                c.items + [ItemOf(r)], c.seen + {id})
  }

  function AddedAll(m: Store, c: Collected, ids: seq<Id>): Collected {
    if ids == [] then c else Added(m, AddedAll(m, c, ids[..|ids| - 1]), ids[|ids| - 1])
  }

  /** The store is filled under its resources' ids. */
  ghost predicate Keyed(m: Store) { forall id :: id in m ==> m[id].meta.id == id }

  /** addResource: lists a new node, chain or group once, with its label item; other payloads are refused. */
  method AddResource(m: Store, c: Collected, id: Id) returns (ok: bool, c': Collected)
    requires CollectedOK(m, c) && Keyed(m)
    ensures ok <==> id in m && Outbound(m[id].payload)
    ensures ok ==> CollectedOK(m, c') && c'.seen == c.seen + {id}
    ensures c' == Added(m, c, id)
  {
    ok, c' := true, c;
    if id !in m || !Outbound(m[id].payload) { ok := false; return; }
    var r := m[id];
    if id in c.seen { assert c.seen + {id} == c.seen; return; }
    if r.payload.Node? {
      ListedAppend(m, c.nodes, c.seen, id);
      c' := c.(nodes := c.nodes + [r], items := c.items + [NodeItem(id, r.meta.revision)], seen := c.seen + {id});
    } else if r.payload.Chain? {
      ListedAppend(m, c.chains, c.seen, id);
      c' := c.(chains := c.chains + [r], items := c.items + [ChainItem(id, r.meta.revision)], seen := c.seen + {id});
    } else {
      ListedAppend(m, c.groups, c.seen, id);
      c' := c.(groups := c.groups + [r], items := c.items + [PolicyItem(id, r.meta.revision)], seen := c.seen + {id});
    }
    AddedOK(m, c, c', id);
  }

  lemma {:induction false} AddedOK(m: Store, c: Collected, c': Collected, id: Id)
    requires CollectedOK(m, c) && id in m && m[id].meta.id == id && id !in c.seen && Outbound(m[id].payload)
    requires c'.seen == c.seen + {id} && c'.items == c.items + [ItemOf(m[id])]
    requires c'.nodes == c.nodes + (if m[id].payload.Node? then [m[id]] else [])
    requires c'.chains == c.chains + (if m[id].payload.Chain? then [m[id]] else [])
    requires c'.groups == c.groups + (if m[id].payload.Policy? then [m[id]] else [])
    ensures CollectedOK(m, c')
  {
    if m[id].payload.Node? {
      ListedAppend(m, c.nodes, c.seen, id);
    } else if m[id].payload.Chain? {
      ListedAppend(m, c.chains, c.seen, id);
    } else {
      ListedAppend(m, c.groups, c.seen, id);
    }
  }

  function RefIds(refs: seq<TargetRef>): seq<Id> {
    if refs == [] then [] else (if refs[0].ResourceRef? then [refs[0].id] else []) + RefIds(refs[1..])
  }

  /** The references of every routing and DNS profile of the snapshot, resource by resource. */
  function AllRefIds(m: Store, rs: seq<Resource>): seq<Id> {
    if rs == [] then []
    else (if rs[0].meta.id in m then RefIds(TargetRefs(m[rs[0].meta.id].payload)) else []) + AllRefIds(m, rs[1..])
  }

  lemma {:induction false} RefIdsHas(refs: seq<TargetRef>, ref: TargetRef)
    requires ref in refs && ref.ResourceRef?
    ensures ref.id in RefIds(refs)
  {
    if ref != refs[0] { RefIdsHas(refs[1..], ref); }
  }

  lemma {:induction false} RefIdsFrom(refs: seq<TargetRef>, id: Id) returns (ref: TargetRef)
    requires id in RefIds(refs)
    ensures ref in refs && ref.ResourceRef? && ref.id == id
  {
    if refs[0].ResourceRef? && refs[0].id == id {
      ref := refs[0];
    } else {
      ref := RefIdsFrom(refs[1..], id);
    }
  }

  lemma {:induction false} AllRefIdsHas(m: Store, rs: seq<Resource>, r: Resource, ref: TargetRef)
    requires r in rs && r.meta.id in m && ref in TargetRefs(m[r.meta.id].payload) && ref.ResourceRef?
    ensures ref.id in AllRefIds(m, rs)
  {
    if r == rs[0] {
      RefIdsHas(TargetRefs(m[r.meta.id].payload), ref);
    } else {
      AllRefIdsHas(m, rs[1..], r, ref);
    }
  }

  lemma {:induction false} AllRefIdsOutbound(m: Store, rs: seq<Resource>, id: Id)
    requires Linked(m) && id in AllRefIds(m, rs)
    ensures id in m && Outbound(m[id].payload)
  {
    if rs[0].meta.id in m && id in RefIds(TargetRefs(m[rs[0].meta.id].payload)) {
      var ref := RefIdsFrom(TargetRefs(m[rs[0].meta.id].payload), id);
      TargetRefResolved(m, rs[0].meta.id, ref);
    } else {
      AllRefIdsOutbound(m, rs[1..], id);
    }
  }

  function MemberId(r: FrozenRef): Id { r.id }

  ghost predicate AllOutbound(m: Store, ids: seq<Id>) {
    forall i :: 0 <= i < |ids| ==> ids[i] in m && Outbound(m[ids[i]].payload)
  }

  /** Adds a list of resources, stopping at the first that is refused. */
  method AddAll(m: Store, c: Collected, ids: seq<Id>) returns (ok: bool, c': Collected)
    requires CollectedOK(m, c) && Keyed(m)
    ensures ok <==> AllOutbound(m, ids)
    ensures ok ==> CollectedOK(m, c') && c'.seen == c.seen + ToSet(ids) && c' == AddedAll(m, c, ids)
  {
    ok, c' := true, c;
    var i := 0;
    while i < |ids|
      invariant 0 <= i <= |ids| && ok && CollectedOK(m, c') && AllOutbound(m, ids[..i])
      invariant c'.seen == c.seen + ToSet(ids[..i]) && c' == AddedAll(m, c, ids[..i])
    {
      ok, c' := AddResource(m, c', ids[i]);
      if !ok { return; }
      AddStep(m, c, ids, i);
      i := i + 1;
    }
    assert ids[..|ids|] == ids;
  }

  lemma {:induction false} AddStep(m: Store, c: Collected, ids: seq<Id>, i: nat)
    requires i < |ids|
    ensures ToSet(ids[..i + 1]) == ToSet(ids[..i]) + {ids[i]}
    ensures AddedAll(m, c, ids[..i + 1]) == Added(m, AddedAll(m, c, ids[..i]), ids[i])
    ensures AllOutbound(m, ids[..i + 1]) <==> AllOutbound(m, ids[..i]) && ids[i] in m && Outbound(m[ids[i]].payload)
  {
    var next := ids[..i + 1];
    assert next == ids[..i] + [ids[i]] && next[..i] == ids[..i] && next[i] == ids[i];
    assert forall k :: 0 <= k < i ==> next[k] == ids[..i][k];
  }

  /** Everything that needs a label, in the order of the source. */
  function Collection(m: Store, rs: seq<Resource>, members: seq<FrozenRef>): Collected {
    AddedAll(m, AddedAll(m, Collected([], [], [], [], {}), Map(MemberId, members)), AllRefIds(m, rs))
  }

  /** Members first, then every routing and DNS reference: all are listed, or the first that cannot be is refused. */
  method CollectAll(m: Store, rs: seq<Resource>, members: seq<FrozenRef>) returns (ok: bool, c: Collected)
    requires Keyed(m)
    ensures ok <==> AllOutbound(m, Map(MemberId, members)) && AllOutbound(m, AllRefIds(m, rs))
    ensures ok ==> CollectedOK(m, c) && c.seen == ToSet(Map(MemberId, members)) + ToSet(AllRefIds(m, rs))
    ensures ok ==> c == Collection(m, rs, members)
  {
    ok, c := AddAll(m, Collected([], [], [], [], {}), Map(MemberId, members));
    if ok { ok, c := AddAll(m, c, AllRefIds(m, rs)); }
  }

  /** In a linked store no reference is refused. */
  lemma {:induction false} LinkedRefsOutbound(m: Store, rs: seq<Resource>)
    requires Linked(m)
    ensures Keyed(m) && AllOutbound(m, AllRefIds(m, rs))
  {
    forall id | id in m ensures m[id].meta.id == id { assert LinkedAt(m, id); }
    var ids := AllRefIds(m, rs);
    forall i | 0 <= i < |ids| ensures ids[i] in m && Outbound(m[ids[i]].payload) { AllRefIdsOutbound(m, rs, ids[i]); }
  }

  lemma {:induction false} OutboundKind(m: Store, id: Id)
    requires id in m && KindOf(m[id].payload) == m[id].meta.kind
    requires m[id].meta.kind in {NodeKind, ChainKind, PolicyGroupKind}
    ensures Outbound(m[id].payload)
  {
  }

  lemma {:induction false} ResolvedMember(schema: Schema, spec: Spec, r: FrozenRef)
    requires FrozenShape(schema, spec) && RootsOK(spec, StoreOf(spec.resources)) && r in spec.members
    ensures r.id in StoreOf(spec.resources)
    ensures StoreOf(spec.resources)[r.id].meta.kind in {NodeKind, ChainKind, PolicyGroupKind}
  {
    assert Resolves(StoreOf(spec.resources), r);
  }

  /** The members of an accepted snapshot are nodes, chains or groups of the merged store. */
  lemma {:induction false} MembersOutbound(schema: Schema, spec: Spec, target: Target, m: Store, r: FrozenRef)
    requires FrozenShape(schema, spec) && RootsOK(spec, StoreOf(spec.resources)) && r in spec.members
    requires m == Merged(StoreOf(spec.resources), target) && Linked(m)
    ensures r.id in m && m[r.id].meta.id == r.id && Outbound(m[r.id].payload)
  {
    ResolvedMember(schema, spec, r);
    OverriddenKeeps(StoreOf(spec.resources)[r.id], target);
    assert LinkedAt(m, r.id);
    OutboundKind(m, r.id);
  }
}
