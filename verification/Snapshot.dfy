/**
 The frozen snapshot (internal/ir/frozen.go): validation of an exact dependency closure with a
 growing worklist, and canonical ordering.
 */
module Snapshot {
  import opened Prelude
  import opened IR

  const MAX_FROZEN_RESOURCES := 2000

  datatype Spec = Spec(
    header: Header, resources: seq<Resource>, members: seq<FrozenRef>, targets: seq<Target>,
    routingProfile: Option<FrozenRef>, dnsProfile: Option<FrozenRef>)

  datatype Code =
    | InputLimitExceeded | InvalidElement | SchemaViolation | DuplicateResource | ScopeMismatch | ResourceDisabled
    | DuplicateTarget | InvalidValue | ReferenceMissing | ReferenceKind | ReferenceRevision | ReferenceEpoch
    | UnreachableResource | InvalidOverride

  /** A diagnostic; its field path is not modelled. */
  datatype Issue = Issue(code: Code, id: Id)

  type Store = map<Id, Resource>
  type Edges = map<Id, seq<Id>>

  // ---- Reachability along resolved edges ----

  ghost predicate Edge(edges: Edges, a: Id, b: Id) { a in edges && b in edges[a] }

  ghost predicate IsPath(edges: Edges, p: seq<Id>) {
    |p| > 0 && forall i :: 0 <= i < |p| - 1 ==> Edge(edges, p[i], p[i + 1])
  }

  ghost predicate Reaches(edges: Edges, roots: set<Id>, id: Id) {
    exists p :: IsPath(edges, p) && p[0] in roots && p[|p| - 1] == id
  }

  lemma {:induction false} ReachesStep(edges: Edges, roots: set<Id>, a: Id, b: Id)
    requires Reaches(edges, roots, a) && Edge(edges, a, b)
    ensures Reaches(edges, roots, b)
  {
    var p :| IsPath(edges, p) && p[0] in roots && p[|p| - 1] == a;
    assert IsPath(edges, p + [b]) && (p + [b])[0] in roots && (p + [b])[|p|] == b;
  }

  lemma {:induction false} ReachesRoot(edges: Edges, roots: set<Id>, id: Id)
    requires id in roots
    ensures Reaches(edges, roots, id)
  {
    assert IsPath(edges, [id]) && [id][0] in roots && [id][|[id]| - 1] == id;
  }

  lemma {:induction false} ClosedHolds(edges: Edges, roots: set<Id>, closed: set<Id>, id: Id)
    requires forall r :: r in roots ==> r in closed
    requires forall a, b :: a in closed && Edge(edges, a, b) ==> b in closed
    requires Reaches(edges, roots, id)
    ensures id in closed
  {
    var p :| IsPath(edges, p) && p[0] in roots && p[|p| - 1] == id;
    var i := 0;
    while i < |p| - 1
      invariant 0 <= i < |p| && p[i] in closed
    {
      assert Edge(edges, p[i], p[i + 1]);
      i := i + 1;
    }
  }

  /** A finite set that holds the roots and the target of every edge. */
  ghost predicate Covers(all: set<Id>, edges: Edges, roots: set<Id>) {
    roots <= all && forall a, b :: Edge(edges, a, b) ==> b in all
  }

  lemma {:induction false} CoverExists(edges: Edges, roots: set<Id>) returns (all: set<Id>)
    ensures Covers(all, edges, roots)
  {
    all := roots + set a, b | a in edges && b in edges[a] :: b;
  }

  /** Everything marked is queued and reached from the roots. */
  ghost predicate Marked(edges: Edges, roots: set<Id>, queue: seq<Id>, reachable: set<Id>) {
    && (forall id :: id in queue <==> id in reachable)
    && forall id :: id in reachable ==> Reaches(edges, roots, id)
  }

  ghost predicate Followed(edges: Edges, a: Id, marked: set<Id>) {
    forall b :: Edge(edges, a, b) ==> b in marked
  }

  lemma {:induction false} FollowedNext(edges: Edges, queue: seq<Id>, reachable: set<Id>, i: nat, queue': seq<Id>,
                                        reachable': set<Id>)
    requires i < |queue| && queue <= queue' && reachable <= reachable'
    requires forall j :: 0 <= j < i ==> Followed(edges, queue[j], reachable)
    requires Followed(edges, queue[i], reachable')
    ensures forall j :: 0 <= j < i + 1 ==> Followed(edges, queue'[j], reachable')
  {
    forall j | 0 <= j < i + 1 ensures Followed(edges, queue'[j], reachable') {
      assert queue'[j] == queue[j];
      if j < i { assert Followed(edges, queue[j], reachable); }
    }
  }

  /** Work left to mark plus work queued: marking keeps it, taking an id from the queue lowers it. */
  ghost function Outstanding(all: set<Id>, queue: seq<Id>, reachable: set<Id>): nat { |all - reachable| + |queue| }

  /** Marking moves one id from the unmarked mentions to the queue. */
  lemma {:induction false} MarkOne(edges: Edges, roots: set<Id>, all: set<Id>, queue: seq<Id>, reachable: set<Id>,
                                   from: Id, id: Id)
    requires Marked(edges, roots, queue, reachable) && Covers(all, edges, roots)
    requires from in reachable && Edge(edges, from, id) && id !in reachable
    ensures Marked(edges, roots, queue + [id], reachable + {id})
    ensures Outstanding(all, queue + [id], reachable + {id}) == Outstanding(all, queue, reachable)
  {
    ReachesStep(edges, roots, from, id);
    assert all - (reachable + {id}) == (all - reachable) - {id};
  }

  /** The edges of one id, each marked and queued when first seen. */
  method Enqueue(edges: Edges, ghost roots: set<Id>, ghost all: set<Id>, from: Id, queue: seq<Id>, reachable: set<Id>)
    returns (queue': seq<Id>, reachable': set<Id>)
    requires Marked(edges, roots, queue, reachable) && Covers(all, edges, roots) && from in reachable
    ensures Marked(edges, roots, queue', reachable') && queue <= queue' && reachable <= reachable'
    ensures Followed(edges, from, reachable')
    ensures Outstanding(all, queue', reachable') == Outstanding(all, queue, reachable)
  {
    queue', reachable' := queue, reachable;
    if from !in edges { return; }
    var next := edges[from];
    var k := 0;
    while k < |next|
      invariant 0 <= k <= |next|
      invariant Marked(edges, roots, queue', reachable') && queue <= queue' && reachable <= reachable'
      invariant forall j :: 0 <= j < k ==> next[j] in reachable'
      invariant Outstanding(all, queue', reachable') == Outstanding(all, queue, reachable)
    {
      var id := next[k];
      if id !in reachable' {
        MarkOne(edges, roots, all, queue', reachable', from, id);
        reachable' := reachable' + {id};
        queue' := queue' + [id];
      }
      k := k + 1;
    }
  }

  lemma {:induction false} MarkedRoots(edges: Edges, roots: seq<Id>)
    ensures Marked(edges, ToSet(roots), roots, ToSet(roots))
  {
    forall id | id in roots ensures Reaches(edges, ToSet(roots), id) { ReachesRoot(edges, ToSet(roots), id); }
  }

  /** The growing-queue loop terminates and marks exactly what the roots reach. */
  method Closure(edges: Edges, roots: seq<Id>) returns (reachable: set<Id>)
    ensures forall id :: id in reachable <==> Reaches(edges, ToSet(roots), id)
  {
    ghost var start := ToSet(roots);
    ghost var all := CoverExists(edges, start);
    var queue := roots;
    reachable := ToSet(roots);
    MarkedRoots(edges, roots);
    var i := 0;
    while i < |queue|
      invariant 0 <= i <= |queue| && start <= reachable
      invariant Marked(edges, start, queue, reachable)
      invariant forall j :: 0 <= j < i ==> Followed(edges, queue[j], reachable)
      decreases Outstanding(all, queue, reachable) - i
    {
      var queue', reachable' := Enqueue(edges, start, all, queue[i], queue, reachable);
      FollowedNext(edges, queue, reachable, i, queue', reachable');
      queue, reachable, i := queue', reachable', i + 1;
    }
    MarkedAll(edges, start, queue, reachable);
  }

  lemma {:induction false} MarkedAll(edges: Edges, roots: set<Id>, queue: seq<Id>, reachable: set<Id>)
    requires Marked(edges, roots, queue, reachable) && roots <= reachable
    requires forall j :: 0 <= j < |queue| ==> Followed(edges, queue[j], reachable)
    ensures forall id :: id in reachable <==> Reaches(edges, roots, id)
  {
    forall a, b | a in reachable && Edge(edges, a, b) ensures b in reachable {
      assert a in queue;
      var j :| 0 <= j < |queue| && queue[j] == a;
      assert Followed(edges, queue[j], reachable);
    }
    forall id | Reaches(edges, roots, id) ensures id in reachable {
      ClosedHolds(edges, roots, reachable, id);
    }
  }

  // ---- What an accepted snapshot is ----

  /** The id-to-resource map; a later duplicate replaces an earlier one. */
  function StoreOf(rs: seq<Resource>): Store {
    if rs == [] then map[] else StoreOf(rs[..|rs| - 1])[rs[|rs| - 1].meta.id := rs[|rs| - 1]]
  }

  ghost predicate DistinctIds(rs: seq<Resource>) {
    forall i, j :: 0 <= i < j < |rs| ==> rs[i].meta.id != rs[j].meta.id
  }

  predicate Resolves(m: Store, ref: FrozenRef) {
    && ref.id in m && m[ref.id].meta.kind == ref.kind
    && m[ref.id].meta.revision == ref.revision && m[ref.id].meta.epoch == ref.epoch
  }

  predicate Resolved(m: Store, l: Link) { l.id in m && m[l.id].meta.kind == l.kind }

  predicate EmbeddedPreset(m: Store, t: Target) { t.presetId in m && m[t.presetId].meta.kind == ClientPresetKind }

  predicate PresetAgrees(m: Store, t: Target) {
    t.presetId in m ==>
      && m[t.presetId].payload.ClientPreset? && m[t.presetId].meta.kind == ClientPresetKind
      && m[t.presetId].meta.revision == t.presetRevision
      && m[t.presetId].payload.family == t.family && m[t.presetId].payload.format == t.format
  }

  function ResolvedIds(m: Store, links: seq<Link>): seq<Id> {
    if links == [] then []
    else (if Resolved(m, links[0]) then [links[0].id] else []) + ResolvedIds(m, links[1..])
  }

  function EdgesOf(m: Store): Edges {
    map id | id in m :: ResolvedIds(m, Links(m[id].payload))
  }

  ghost function Roots(spec: Spec, m: Store): set<Id> {
    set id | id in m && (
      || (spec.routingProfile.Some? && spec.routingProfile.value.id == id)
      || (spec.dnsProfile.Some? && spec.dnsProfile.value.id == id)
      || (exists t :: t in spec.targets && t.presetId == id && EmbeddedPreset(m, t))
      || (exists r :: r in spec.members && r.id == id))
  }

  /** Reached from a member, the routing or DNS profile or an embedded preset. */
  ghost predicate InClosure(spec: Spec, id: Id) {
    var m := StoreOf(spec.resources);
    Reaches(EdgesOf(m), Roots(spec, m), id)
  }

  predicate DomainOnly(m: Store, id: Id) {
    id in m && m[id].payload.RuleSet? ==> forall e :: e in m[id].payload.entries ==> e.DomainEntry?
  }

  predicate PayloadLinked(spec: Spec, m: Store, payload: Payload) {
    && (forall l :: l in Links(payload) ==> Resolved(m, l))
    && (payload.Routing? && payload.routing.mode.ResolveForIPRules? ==> spec.dnsProfile.Some?)
    && (payload.DNS? ==> forall rule :: rule in payload.dns.rules ==> forall id :: id in rule.ruleSetIds ==>
        DomainOnly(m, id))
  }

  predicate FrozenShape(schema: Schema, spec: Spec) {
    && schema.header(spec.header)
    && 1 <= |spec.resources| <= MAX_FROZEN_RESOURCES && 1 <= |spec.members| <= 2000 && 1 <= |spec.targets|
    && (forall r :: r in spec.members ==> r.kind in {NodeKind, ChainKind, PolicyGroupKind})
    && (spec.routingProfile.Some? ==> spec.routingProfile.value.kind == RoutingProfileKind)
    && (spec.dnsProfile.Some? ==> spec.dnsProfile.value.kind == DNSProfileKind)
  }

  ghost predicate ElementsOK(schema: Schema, spec: Spec) {
    && (forall r :: r in spec.resources ==> ValidResource(schema, r))
    && (forall t :: t in spec.targets ==> ValidTarget(schema, t))
    && FrozenShape(schema, spec)
  }

  ghost predicate IndexOK(spec: Spec) {
    && DistinctIds(spec.resources)
    && forall r :: r in spec.resources ==> r.meta.scope == spec.header.scopeId && r.meta.enabled
  }

  ghost predicate DistinctKeys(targets: seq<Target>) {
    forall i, j :: 0 <= i < j < |targets| ==> targets[i].key != targets[j].key
  }

  predicate SameBuild(t: Target, u: Target) {
    t.buildId == u.buildId ==> t.family == u.family && t.buildSHA256 == u.buildSHA256
  }

  ghost predicate TargetsOK(spec: Spec) {
    && DistinctKeys(spec.targets)
    && forall t, u :: t in spec.targets && u in spec.targets ==> SameBuild(t, u)
  }

  ghost predicate RootsOK(spec: Spec, m: Store) {
    && (spec.routingProfile.Some? ==> Resolves(m, spec.routingProfile.value))
    && (spec.dnsProfile.Some? ==> Resolves(m, spec.dnsProfile.value))
    && (forall t :: t in spec.targets ==> PresetAgrees(m, t))
    && (forall i, j :: 0 <= i < j < |spec.members| ==> spec.members[i].id != spec.members[j].id)
    && forall r :: r in spec.members ==> Resolves(m, r)
  }

  ghost predicate LinksOK(spec: Spec, m: Store) {
    forall r :: r in spec.resources ==> PayloadLinked(spec, m, r.payload)
  }

  ghost predicate OverridesOK(schema: Schema, spec: Spec, m: Store) {
    forall t, id :: t in spec.targets && id in t.overrides ==> OverrideClosed(schema, spec, m, t, id)
  }

  ghost predicate OverrideClosed(schema: Schema, spec: Spec, m: Store, t: Target, id: Id)
    requires id in t.overrides
  {
    && id in m && m[id].meta.kind == PolicyGroupKind && InClosure(spec, id)
    && Mergeable(schema, m[id], t.overrides[id])
  }

  /** The snapshot is its own dependency closure, and every typed edge resolves. */
  ghost predicate Accepted(schema: Schema, spec: Spec) {
    var m := StoreOf(spec.resources);
    && ElementsOK(schema, spec) && IndexOK(spec) && TargetsOK(spec) && RootsOK(spec, m) && LinksOK(spec, m)
    && OverridesOK(schema, spec, m)
    && forall r :: r in spec.resources ==> InClosure(spec, r.meta.id)
  }

  // ---- The store ----

  lemma {:induction false} StoreHolds(rs: seq<Resource>)
    ensures forall id :: id in StoreOf(rs) ==> StoreOf(rs)[id] in rs && StoreOf(rs)[id].meta.id == id
    ensures forall r :: r in rs ==> r.meta.id in StoreOf(rs)
    ensures DistinctIds(rs) ==> forall r :: r in rs ==> StoreOf(rs)[r.meta.id] == r
  {
    if rs != [] {
      var front := rs[..|rs| - 1];
      StoreHolds(front);
      assert rs == front + [rs[|rs| - 1]];
      if DistinctIds(rs) {
        forall r | r in front ensures r.meta.id != rs[|rs| - 1].meta.id {
          var i :| 0 <= i < |front| && front[i] == r;
          assert rs[i] == r;
        }
      }
    }
  }

  // ---- Validate, pass by pass ----

  predicate InScope(spec: Spec, r: Resource) { r.meta.scope == spec.header.scopeId && r.meta.enabled }

  ghost predicate IndexedUpTo(spec: Spec, i: nat)
    requires i <= |spec.resources|
  {
    DistinctIds(spec.resources[..i]) && forall k :: 0 <= k < i ==> InScope(spec, spec.resources[k])
  }

  lemma {:induction false} DistinctNext(rs: seq<Resource>, i: nat)
    requires i < |rs|
    ensures DistinctIds(rs[..i + 1]) <==> DistinctIds(rs[..i]) && rs[i].meta.id !in StoreOf(rs[..i])
  {
    StoredBefore(rs[..i], rs[i].meta.id);
    DistinctAppend(rs[..i], rs[i]);
    assert rs[..i + 1] == rs[..i] + [rs[i]];
  }

  lemma {:induction false} StoredBefore(rs: seq<Resource>, id: Id)
    ensures id in StoreOf(rs) <==> exists k :: 0 <= k < |rs| && rs[k].meta.id == id
  {
    StoreHolds(rs);
    if id in StoreOf(rs) {
      var k :| 0 <= k < |rs| && rs[k] == StoreOf(rs)[id];
      assert rs[k].meta.id == id;
    }
    if k :| 0 <= k < |rs| && rs[k].meta.id == id { assert rs[k] in rs; }
  }

  lemma {:induction false} DistinctAppend(rs: seq<Resource>, r: Resource)
    ensures DistinctIds(rs + [r]) <==> DistinctIds(rs) && !exists k :: 0 <= k < |rs| && rs[k].meta.id == r.meta.id
  {
    var more := rs + [r];
    assert forall k :: 0 <= k < |rs| ==> more[k] == rs[k];
    assert more[|rs|] == r;
    if DistinctIds(more) {
      forall i, j | 0 <= i < j < |rs|
          ensures rs[i].meta.id != rs[j].meta.id { assert more[i].meta.id != more[j].meta.id; }
    }
  }

  lemma {:induction false} IndexStep(spec: Spec, i: nat)
    requires i < |spec.resources|
    ensures var rs := spec.resources;
            && StoreOf(rs[..i + 1]) == StoreOf(rs[..i])[rs[i].meta.id := rs[i]]
            && (IndexedUpTo(spec, i + 1) <==>
                IndexedUpTo(spec, i) && rs[i].meta.id !in StoreOf(rs[..i]) && InScope(spec, rs[i]))
  {
    var rs := spec.resources;
    DistinctNext(rs, i);
    assert rs[..i + 1][..i] == rs[..i];
  }

  method Index(spec: Spec) returns (m: Store, issues: seq<Issue>)
    ensures m == StoreOf(spec.resources)
    ensures issues == [] <==> IndexOK(spec)
  {
    m, issues := map[], [];
    var i := 0;
    while i < |spec.resources|
      invariant 0 <= i <= |spec.resources| && m == StoreOf(spec.resources[..i])
      invariant issues == [] <==> IndexedUpTo(spec, i)
    {
      var r := spec.resources[i];
      IndexStep(spec, i);
      if r.meta.id in m { issues := issues + [Issue(DuplicateResource, r.meta.id)]; }
      if r.meta.scope != spec.header.scopeId { issues := issues + [Issue(ScopeMismatch, r.meta.id)]; }
      if !r.meta.enabled { issues := issues + [Issue(ResourceDisabled, r.meta.id)]; }
      m := m[r.meta.id := r];
      i := i + 1;
    }
    assert spec.resources[..|spec.resources|] == spec.resources;
  }

  /** builds after a prefix of targets: the last target of each build. */
  function BuildsOf(ts: seq<Target>): map<Id, Target> {
    if ts == [] then map[] else BuildsOf(ts[..|ts| - 1])[ts[|ts| - 1].buildId := ts[|ts| - 1]]
  }

  lemma {:induction false} BuildsHold(ts: seq<Target>)
    ensures forall id :: id in BuildsOf(ts) ==> BuildsOf(ts)[id] in ts && BuildsOf(ts)[id].buildId == id
    ensures forall t :: t in ts ==> t.buildId in BuildsOf(ts)
  {
    if ts != [] {
      BuildsHold(ts[..|ts| - 1]);
      assert ts == ts[..|ts| - 1] + [ts[|ts| - 1]];
    }
  }

  ghost predicate KeysUpTo(ts: seq<Target>, i: nat)
    requires i <= |ts|
  {
    forall j, k :: 0 <= j < k < i ==> ts[j].key != ts[k].key
  }

  ghost predicate BuildsUpTo(ts: seq<Target>, i: nat)
    requires i <= |ts|
  {
    forall j, k :: 0 <= j < i && 0 <= k < i ==> SameBuild(ts[j], ts[k])
  }

  /** Comparing each target with the latest one of its build is enough: agreement is transitive. */
  lemma {:induction false} BuildStep(ts: seq<Target>, i: nat)
    requires i < |ts|
    ensures BuildsOf(ts[..i + 1]) == BuildsOf(ts[..i])[ts[i].buildId := ts[i]]
    ensures BuildsUpTo(ts, i + 1) <==>
            BuildsUpTo(ts, i)
                && (ts[i].buildId in BuildsOf(ts[..i]) ==> SameBuild(BuildsOf(ts[..i])[ts[i].buildId], ts[i]))
  {
    assert ts[..i + 1][..i] == ts[..i];
    BuildsHold(ts[..i]);
    if ts[i].buildId in BuildsOf(ts[..i]) {
      var n :| 0 <= n < i && ts[n] == BuildsOf(ts[..i])[ts[i].buildId];
      BuildThrough(ts, i, n);
    } else {
      assert forall k :: 0 <= k < i ==> ts[k] in ts[..i];
    }
  }

  /** Agreeing with one earlier target of the build is agreeing with all. */
  lemma {:induction false} BuildThrough(ts: seq<Target>, i: nat, n: nat)
    requires n < i < |ts| && ts[n].buildId == ts[i].buildId
    ensures BuildsUpTo(ts, i + 1) <==> BuildsUpTo(ts, i) && SameBuild(ts[n], ts[i])
  {
    if BuildsUpTo(ts, i) && SameBuild(ts[n], ts[i]) {
      forall k | 0 <= k < i ensures SameBuild(ts[k], ts[i]) && SameBuild(ts[i], ts[k]) {
        assert SameBuild(ts[k], ts[n]);
      }
    }
  }

  ghost function KeysOf(ts: seq<Target>, i: nat): set<string>
    requires i <= |ts|
  {
    set k | 0 <= k < i :: ts[k].key
  }

  lemma {:induction false} KeyStep(ts: seq<Target>, i: nat)
    requires i < |ts|
    ensures KeysOf(ts, i + 1) == KeysOf(ts, i) + {ts[i].key}
    ensures KeysUpTo(ts, i + 1) <==> KeysUpTo(ts, i) && ts[i].key !in KeysOf(ts, i)
  {
  }

  lemma {:induction false} TargetsAll(spec: Spec)
    ensures KeysUpTo(spec.targets, |spec.targets|) && BuildsUpTo(spec.targets, |spec.targets|) <==> TargetsOK(spec)
  {
    var ts := spec.targets;
    if TargetsOK(spec) {
      forall j, k | 0 <= j < |ts| && 0 <= k < |ts|
          ensures SameBuild(ts[j], ts[k]) { assert ts[j] in ts && ts[k] in ts; }
    }
  }

  method CheckTargets(spec: Spec) returns (issues: seq<Issue>)
    ensures issues == [] <==> TargetsOK(spec)
  {
    var ts := spec.targets;
    var seen: set<string>, builds: map<Id, Target> := {}, map[];
    issues := [];
    var i := 0;
    while i < |ts|
      invariant 0 <= i <= |ts| && builds == BuildsOf(ts[..i]) && seen == KeysOf(ts, i)
      invariant issues == [] <==> KeysUpTo(ts, i) && BuildsUpTo(ts, i)
    {
      BuildStep(ts, i);
      KeyStep(ts, i);
      if ts[i].key in seen { issues := issues + [Issue(DuplicateTarget, "")]; }
      if ts[i].buildId in builds
          && !SameBuild(builds[ts[i].buildId], ts[i]) { issues := issues + [Issue(InvalidValue, "")]; }
      seen := seen + {ts[i].key};
      builds := builds[ts[i].buildId := ts[i]];
      i := i + 1;
    }
    TargetsAll(spec);
  }

  /** checkRoot: a root must exist and agree in kind, revision and epoch. */
  method CheckRoot(m: Store, ref: FrozenRef) returns (roots: seq<Id>, issues: seq<Issue>)
    ensures roots == if ref.id in m then [ref.id] else []
    ensures issues == [] <==> Resolves(m, ref)
  {
    if ref.id !in m { return [], [Issue(ReferenceMissing, ref.id)]; }
    var meta := m[ref.id].meta;
    roots, issues := [ref.id], [];
    if ref.kind != meta.kind { issues := issues + [Issue(ReferenceKind, ref.id)]; }
    if ref.revision != meta.revision { issues := issues + [Issue(ReferenceRevision, ref.id)]; }
    if ref.epoch != meta.epoch { issues := issues + [Issue(ReferenceEpoch, ref.id)]; }
  }

  method CheckPresets(m: Store, ts: seq<Target>) returns (roots: seq<Id>, issues: seq<Issue>)
    requires forall id :: id in m ==> KindOf(m[id].payload) == m[id].meta.kind
    ensures forall id :: id in roots <==> exists t :: t in ts && t.presetId == id && EmbeddedPreset(m, t)
    ensures issues == [] <==> forall t :: t in ts ==> PresetAgrees(m, t)
  {
    roots, issues := [], [];
    var i := 0;
    while i < |ts|
      invariant 0 <= i <= |ts|
      invariant forall id :: id in roots <==> exists k :: 0 <= k < i && ts[k].presetId == id && EmbeddedPreset(m, ts[k])
      invariant issues == [] <==> forall k :: 0 <= k < i ==> PresetAgrees(m, ts[k])
    {
      var t := ts[i];
      if t.presetId in m {
        var r := m[t.presetId];
        if r.meta.kind != ClientPresetKind {
          issues := issues + [Issue(ReferenceKind, t.presetId)];
        } else {
          roots := roots + [t.presetId];
          if r.meta.revision != t.presetRevision { issues := issues + [Issue(ReferenceRevision, t.presetId)]; }
          if r.payload.family != t.family { issues := issues + [Issue(InvalidValue, t.presetId)]; }
          if r.payload.format != t.format { issues := issues + [Issue(InvalidValue, t.presetId)]; }
        }
      }
      i := i + 1;
    }
  }

  ghost predicate MembersUpTo(m: Store, refs: seq<FrozenRef>, i: nat)
    requires i <= |refs|
  {
    && (forall j, k :: 0 <= j < k < i ==> refs[j].id != refs[k].id)
    && forall k :: 0 <= k < i ==> Resolves(m, refs[k])
  }

  ghost function MemberIds(refs: seq<FrozenRef>, i: nat): set<Id>
    requires i <= |refs|
  {
    set k | 0 <= k < i :: refs[k].id
  }

  lemma {:induction false} MembersStep(m: Store, refs: seq<FrozenRef>, i: nat)
    requires i < |refs|
    ensures MemberIds(refs, i + 1) == MemberIds(refs, i) + {refs[i].id}
    ensures MembersUpTo(m, refs, i + 1) <==>
            MembersUpTo(m, refs, i) && refs[i].id !in MemberIds(refs, i) && Resolves(m, refs[i])
  {
  }

  method CheckMembers(m: Store, refs: seq<FrozenRef>) returns (roots: seq<Id>, issues: seq<Issue>)
    ensures forall id :: id in roots <==> id in m && id in MemberIds(refs, |refs|)
    ensures issues == [] <==> MembersUpTo(m, refs, |refs|)
  {
    roots, issues := [], [];
    var seen: set<Id> := {};
    var i := 0;
    while i < |refs|
      invariant 0 <= i <= |refs| && seen == MemberIds(refs, i)
      invariant forall id :: id in roots <==> id in m && id in seen
      invariant issues == [] <==> MembersUpTo(m, refs, i)
    {
      MembersStep(m, refs, i);
      if refs[i].id in seen { issues := issues + [Issue(DuplicateResource, refs[i].id)]; }
      var root, found := CheckRoot(m, refs[i]);
      seen := seen + {refs[i].id};
      roots, issues := roots + root, issues + found;
      i := i + 1;
    }
  }

  /** All roots in the order routing, DNS, embedded presets, members. */
  method CheckRoots(spec: Spec, m: Store) returns (roots: seq<Id>, issues: seq<Issue>)
    requires forall id :: id in m ==> KindOf(m[id].payload) == m[id].meta.kind
    ensures ToSet(roots) == Roots(spec, m)
    ensures issues == [] <==> RootsOK(spec, m)
  {
    roots, issues := [], [];
    if spec.routingProfile.Some? {
      roots, issues := CheckRoot(m, spec.routingProfile.value);
    }
    if spec.dnsProfile.Some? {
      var r, f := CheckRoot(m, spec.dnsProfile.value);
      roots, issues := roots + r, issues + f;
    }
    var presets, presetIssues := CheckPresets(m, spec.targets);
    var members, memberIssues := CheckMembers(m, spec.members);
    assert forall id :: id in MemberIds(spec.members, |spec.members|) <==> exists r :: r in spec.members && r.id == id;
    roots, issues := roots + presets + members, issues + presetIssues + memberIssues;
  }

  lemma {:induction false} ResolvedStep(m: Store, links: seq<Link>, k: nat)
    requires k < |links|
    ensures ResolvedIds(m, links[k..]) == (if Resolved(m, links[k]) then [links[k].id] else [])
            + ResolvedIds(m, links[k + 1..])
  {
    assert links[k..][1..] == links[k + 1..];
  }

  /** check: one typed edge list; unresolved edges are reported and left out. */
  method CheckEdges(m: Store, owner: Id, links: seq<Link>) returns (ids: seq<Id>, issues: seq<Issue>)
    ensures ids == ResolvedIds(m, links)
    ensures issues == [] <==> forall l :: l in links ==> Resolved(m, l)
  {
    ids, issues := [], [];
    var k := 0;
    while k < |links|
      invariant 0 <= k <= |links|
      invariant ids + ResolvedIds(m, links[k..]) == ResolvedIds(m, links)
      invariant issues == [] <==> forall j :: 0 <= j < k ==> Resolved(m, links[j])
    {
      var l := links[k];
      ResolvedStep(m, links, k);
      if l.id !in m {
        issues := issues + [Issue(ReferenceMissing, owner)];
      } else if m[l.id].meta.kind != l.kind {
        issues := issues + [Issue(ReferenceKind, owner)];
      } else {
        ids := ids + [l.id];
      }
      k := k + 1;
    }
  }

  method CheckPayload(spec: Spec, m: Store, r: Resource) returns (ids: seq<Id>, issues: seq<Issue>)
    ensures ids == ResolvedIds(m, Links(r.payload))
    ensures issues == [] <==> PayloadLinked(spec, m, r.payload)
  {
    ids, issues := CheckEdges(m, r.meta.id, Links(r.payload));
    if r.payload.Routing? && r.payload.routing.mode.ResolveForIPRules? && spec.dnsProfile.None? {
      issues := issues + [Issue(ReferenceMissing, r.meta.id)];
    }
    if r.payload.DNS? {
      var rules := r.payload.dns.rules;
      var bad := exists rule :: rule in rules && exists id :: id in rule.ruleSetIds && !DomainOnly(m, id);
      if bad { issues := issues + [Issue(ReferenceKind, r.meta.id)]; }
    }
  }

  /** edges after a prefix of the resources, when ids do not repeat. */
  ghost predicate EdgesUpTo(m: Store, rs: seq<Resource>, i: nat, edges: Edges)
    requires i <= |rs|
  {
    && edges.Keys == (set k | 0 <= k < i :: rs[k].meta.id)
    && forall k :: 0 <= k < i ==> EdgesAt(m, rs[k], edges)
  }

  ghost predicate EdgesAt(m: Store, r: Resource, edges: Edges) {
    r.meta.id in edges && edges[r.meta.id] == ResolvedIds(m, Links(r.payload))
  }

  lemma {:induction false} EdgesComplete(m: Store, rs: seq<Resource>, edges: Edges)
    requires m == StoreOf(rs) && DistinctIds(rs) && EdgesUpTo(m, rs, |rs|, edges)
    ensures edges == EdgesOf(m)
  {
    StoreHolds(rs);
    forall id | id in edges || id in m ensures id in edges && id in m && edges[id] == EdgesOf(m)[id] {
      if id in m { assert m[id] in rs; }
      var k :| 0 <= k < |rs| && rs[k].meta.id == id;
      assert rs[k] in rs && EdgesAt(m, rs[k], edges);
    }
  }

  lemma {:induction false} EdgesStep(m: Store, rs: seq<Resource>, i: nat, edges: Edges)
    requires i < |rs| && DistinctIds(rs) && EdgesUpTo(m, rs, i, edges)
    ensures rs[i].meta.id !in edges
    ensures EdgesUpTo(m, rs, i + 1, edges[rs[i].meta.id := ResolvedIds(m, Links(rs[i].payload))])
  {
    var edges' := edges[rs[i].meta.id := ResolvedIds(m, Links(rs[i].payload))];
    forall k | 0 <= k < i + 1 ensures EdgesAt(m, rs[k], edges') {
      if k < i { assert EdgesAt(m, rs[k], edges) && rs[k].meta.id != rs[i].meta.id; }
    }
  }

  ghost predicate LinkedUpTo(spec: Spec, m: Store, i: nat)
    requires i <= |spec.resources|
  {
    forall k :: 0 <= k < i ==> PayloadLinked(spec, m, spec.resources[k].payload)
  }

  lemma {:induction false} LinkedNext(spec: Spec, m: Store, i: nat)
    requires i < |spec.resources|
    ensures LinkedUpTo(spec, m, i + 1) <==> LinkedUpTo(spec, m, i) && PayloadLinked(spec, m, spec.resources[i].payload)
  {
  }

  lemma {:induction false} LinkedAll(spec: Spec, m: Store)
    ensures LinkedUpTo(spec, m, |spec.resources|) <==> LinksOK(spec, m)
  {
    if LinksOK(spec, m) {
      forall k | 0 <= k < |spec.resources| ensures PayloadLinked(spec, m, spec.resources[k].payload) {
        assert spec.resources[k] in spec.resources;
      }
    }
  }

  lemma {:induction false} EdgesNext(m: Store, rs: seq<Resource>, i: nat, edges: Edges)
    requires i < |rs| && DistinctIds(rs) && EdgesUpTo(m, rs, i, edges)
    ensures var earlier := if rs[i].meta.id in edges then edges[rs[i].meta.id] else [];
            EdgesUpTo(m, rs, i + 1, edges[rs[i].meta.id := earlier + ResolvedIds(m, Links(rs[i].payload))])
  {
    EdgesStep(m, rs, i, edges);
    assert [] + ResolvedIds(m, Links(rs[i].payload)) == ResolvedIds(m, Links(rs[i].payload));
  }

  lemma {:induction false} EdgesGrow(m: Store, rs: seq<Resource>, i: nat, before: Edges, edges: Edges)
    requires i < |rs| && (DistinctIds(rs) ==> EdgesUpTo(m, rs, i, before))
    requires var id := rs[i].meta.id;
             edges == before[id := (if id in before then before[id] else []) + ResolvedIds(m, Links(rs[i].payload))]
    ensures DistinctIds(rs) ==> EdgesUpTo(m, rs, i + 1, edges)
  {
    if DistinctIds(rs) { EdgesNext(m, rs, i, before); }
  }

  /** The edges and the issues of one resource more. */
  method CheckNext(spec: Spec, m: Store, i: nat, edges: Edges, issues: seq<Issue>)
    returns (edges': Edges, issues': seq<Issue>)
    requires i < |spec.resources| && (DistinctIds(spec.resources) ==> EdgesUpTo(m, spec.resources, i, edges))
    requires issues == [] <==> LinkedUpTo(spec, m, i)
    ensures DistinctIds(spec.resources) ==> EdgesUpTo(m, spec.resources, i + 1, edges')
    ensures issues' == [] <==> LinkedUpTo(spec, m, i + 1)
  {
    var ids, found := CheckPayload(spec, m, spec.resources[i]);
    LinkedNext(spec, m, i);
    var id := spec.resources[i].meta.id;
    edges' := edges[id := (if id in edges then edges[id] else []) + ids];
    EdgesGrow(m, spec.resources, i, edges, edges');
    issues' := issues + found;
  }

  method CheckLinks(spec: Spec, m: Store) returns (edges: Edges, issues: seq<Issue>)
    requires m == StoreOf(spec.resources)
    ensures DistinctIds(spec.resources) ==> edges == EdgesOf(m)
    ensures issues == [] <==> LinksOK(spec, m)
  {
    edges, issues := map[], [];
    for i := 0 to |spec.resources|
      invariant DistinctIds(spec.resources) ==> EdgesUpTo(m, spec.resources, i, edges)
      invariant issues == [] <==> LinkedUpTo(spec, m, i)
    {
      edges, issues := CheckNext(spec, m, i, edges, issues);
    }
    LinkedAll(spec, m);
    if DistinctIds(spec.resources) { EdgesComplete(m, spec.resources, edges); }
  }

  predicate OverrideOK(schema: Schema, m: Store, reachable: set<Id>, t: Target, id: Id)
    requires id in t.overrides
  {
    id in m && m[id].meta.kind == PolicyGroupKind && id in reachable && Mergeable(schema, m[id], t.overrides[id])
  }

  method CheckOverrides(schema: Schema, m: Store, reachable: set<Id>, t: Target) returns (issues: seq<Issue>)
    ensures issues == [] <==> forall id :: id in t.overrides ==> OverrideOK(schema, m, reachable, t, id)
  {
    issues := [];
    var todo := t.overrides.Keys;
    while todo != {}
      invariant todo <= t.overrides.Keys
      invariant issues == [] <==> forall id :: id in t.overrides && id !in todo ==>
              OverrideOK(schema, m, reachable, t, id)
    {
      var id :| id in todo;
      if id !in m {
        issues := issues + [Issue(ReferenceMissing, id)];
      } else if m[id].meta.kind != PolicyGroupKind {
        issues := issues + [Issue(ReferenceKind, id)];
      } else if id !in reachable {
        issues := issues + [Issue(UnreachableResource, id)];
      } else if !Mergeable(schema, m[id], t.overrides[id]) {
        issues := issues + [Issue(InvalidOverride, id)];
      }
      todo := todo - {id};
    }
  }

  method CheckAllOverrides(schema: Schema, m: Store, reachable: set<Id>, ts: seq<Target>) returns (issues: seq<Issue>)
    ensures issues == [] <==> forall t, id :: t in ts && id in t.overrides ==> OverrideOK(schema, m, reachable, t, id)
  {
    issues := [];
    var i := 0;
    while i < |ts|
      invariant 0 <= i <= |ts|
      invariant issues == [] <==> forall k, id :: 0 <= k < i && id in ts[k].overrides ==>
              OverrideOK(schema, m, reachable, ts[k], id)
    {
      var found := CheckOverrides(schema, m, reachable, ts[i]);
      issues := issues + found;
      i := i + 1;
    }
  }

  method CheckReached(rs: seq<Resource>, reachable: set<Id>) returns (issues: seq<Issue>)
    ensures issues == [] <==> forall r :: r in rs ==> r.meta.id in reachable
  {
    issues := [];
    var i := 0;
    while i < |rs|
      invariant 0 <= i <= |rs|
      invariant issues == [] <==> forall k :: 0 <= k < i ==> rs[k].meta.id in reachable
    {
      if rs[i].meta.id !in reachable { issues := issues + [Issue(UnreachableResource, rs[i].meta.id)]; }
      i := i + 1;
    }
  }

  lemma {:induction false} GraphVerdict(schema: Schema, spec: Spec, m: Store, edges: Edges, reachable: set<Id>)
    requires ElementsOK(schema, spec) && m == StoreOf(spec.resources)
    requires IndexOK(spec) ==> edges == EdgesOf(m)
    requires forall id :: id in reachable <==> Reaches(edges, Roots(spec, m), id)
    ensures Accepted(schema, spec) <==>
            && IndexOK(spec) && TargetsOK(spec) && RootsOK(spec, m) && LinksOK(spec, m)
            && (forall t, id :: t in spec.targets && id in t.overrides ==> OverrideOK(schema, m, reachable, t, id))
            && (forall r :: r in spec.resources ==> r.meta.id in reachable)
  {
    if IndexOK(spec) {
      forall id ensures id in reachable <==> InClosure(spec, id) {}
      forall t, id | t in spec.targets && id in t.overrides
        ensures OverrideClosed(schema, spec, m, t, id) <==> OverrideOK(schema, m, reachable, t, id) {}
    }
  }

  /** The passes after element validation. */
  method CheckGraph(schema: Schema, spec: Spec) returns (issues: seq<Issue>)
    requires ElementsOK(schema, spec)
    ensures issues == [] <==> Accepted(schema, spec)
  {
    var m, index := Index(spec);
    StoreHolds(spec.resources);
    var targets := CheckTargets(spec);
    var roots, rootIssues := CheckRoots(spec, m);
    var edges, links := CheckLinks(spec, m);
    var reachable := Closure(edges, roots);
    var overrides := CheckAllOverrides(schema, m, reachable, spec.targets);
    var unreached := CheckReached(spec.resources, reachable);
    GraphVerdict(schema, spec, m, edges, reachable);
    issues := index + targets + rootIssues + links + overrides + unreached;
  }

  /** FrozenInputSpec.Validate: no diagnostics exactly for an accepted snapshot. */
  method Validate(schema: Schema, spec: Spec) returns (issues: seq<Issue>)
    ensures issues == [] <==> Accepted(schema, spec)
  {
    if |spec.resources| > MAX_FROZEN_RESOURCES { return [Issue(InputLimitExceeded, "")]; }
    for i := 0 to |spec.resources|
      invariant forall k :: 0 <= k < i ==> ValidResource(schema, spec.resources[k])
    {
      if !ValidResource(schema, spec.resources[i]) { return [Issue(InvalidElement, spec.resources[i].meta.id)]; }
    }
    for i := 0 to |spec.targets|
      invariant forall k :: 0 <= k < i ==> ValidTarget(schema, spec.targets[k])
    {
      if !ValidTarget(schema, spec.targets[i]) { return [Issue(InvalidElement, "")]; }
    }
    if !FrozenShape(schema, spec) { return [Issue(SchemaViolation, "")]; }
    issues := CheckGraph(schema, spec);
  }

  // ---- What acceptance means ----

  lemma {:induction false} ResolvedIdsAre(m: Store, links: seq<Link>, id: Id)
    ensures id in ResolvedIds(m, links) <==> exists l :: l in links && Resolved(m, l) && l.id == id
  {
    if links != [] {
      ResolvedIdsAre(m, links[1..], id);
      assert forall l :: l in links <==> l == links[0] || l in links[1..];
    }
  }

  lemma {:induction false} ClosureInside(spec: Spec, id: Id)
    requires InClosure(spec, id)
    ensures id in StoreOf(spec.resources)
  {
    var m := StoreOf(spec.resources);
    forall a, b | a in m.Keys && Edge(EdgesOf(m), a, b)
        ensures b in m.Keys { ResolvedIdsAre(m, Links(m[a].payload), b); }
    ClosedHolds(EdgesOf(m), Roots(spec, m), m.Keys, id);
  }

  /** An accepted snapshot lists exactly its closure, each id once, and every typed reference is one of its edges. */
  lemma {:induction false} AcceptedIsClosure(schema: Schema, spec: Spec)
    requires Accepted(schema, spec)
    ensures DistinctIds(spec.resources)
    ensures forall id :: InClosure(spec, id) <==> exists r :: r in spec.resources && r.meta.id == id
    ensures forall r, l :: r in spec.resources && l in Links(r.payload) ==>
              Resolved(StoreOf(spec.resources), l) && Edge(EdgesOf(StoreOf(spec.resources)), r.meta.id, l.id)
  {
    var m := StoreOf(spec.resources);
    StoreHolds(spec.resources);
    forall id | InClosure(spec, id) ensures exists r :: r in spec.resources && r.meta.id == id {
      ClosureInside(spec, id);
      assert m[id] in spec.resources;
    }
    forall r, l | r in spec.resources && l in Links(r.payload) ensures Resolved(m, l)
        && Edge(EdgesOf(m), r.meta.id, l.id) {
      assert PayloadLinked(spec, m, r.payload);
      ResolvedIdsAre(m, Links(r.payload), l.id);
    }
  }
}
