/**
 Freezing (NewFrozenInput in internal/ir/frozen.go): an accepted snapshot is put into canonical
 order. Resources, members, targets and tags are sets: their given order leaves no trace.
 */
module Freeze {
  import opened Prelude
  import opened IR
  import opened Snapshot

  function MemberKey(r: FrozenRef): string { r.id }
  function TargetKey(t: Target): string { t.key }
  function TagKey(tag: string): string { tag }

  function SortTags(r: Resource): Resource { r.(meta := r.meta.(tags := SortBy(r.meta.tags, TagKey))) }

  function Canonical(spec: Spec): Spec {
    spec.(resources := Map(SortTags, SortBy(spec.resources, ResourceKey)),
          members := SortBy(spec.members, MemberKey),
          targets := SortBy(spec.targets, TargetKey))
  }

  /** The loop that sorts the tags of every resource. */
  method SortAllTags(rs: seq<Resource>) returns (out: seq<Resource>)
    ensures out == Map(SortTags, rs)
  {
    out := rs;
    var i := 0;
    while i < |out|
      invariant 0 <= i <= |out| == |rs|
      invariant forall k :: 0 <= k < |rs| ==> out[k] == if k < i then SortTags(rs[k]) else rs[k]
    {
      out := out[i := SortTags(out[i])];
      i := i + 1;
    }
  }

  /** NewFrozenInput: refuses exactly what Validate refuses, else returns the canonical snapshot. */
  method NewFrozenInput(schema: Schema, spec: Spec) returns (r: Result<Spec, seq<Issue>>)
    ensures r.Ok? <==> Accepted(schema, spec)
    ensures r.Ok? ==> r.value == Canonical(spec)
  {
    if |spec.resources| > MAX_FROZEN_RESOURCES { return Err([Issue(InputLimitExceeded, "")]); }
    var issues := Validate(schema, spec);
    if issues != [] { return Err(issues); }
    var resources := SortAllTags(SortBy(spec.resources, ResourceKey));
    return Ok(spec.(resources := resources,
                    members := SortBy(spec.members, MemberKey), targets := SortBy(spec.targets, TargetKey)));
  }

  // ---- Specs that differ only in order ----

  /** Equal up to the order of tags. */
  ghost predicate Alike(r: Resource, s: Resource) { SortTags(r) == SortTags(s) }

  /** The two specs have the same resources (tags as sets), members and targets, in any order. */
  ghost predicate SameUpToOrder(a: Spec, b: Spec) {
    && a.header == b.header && a.routingProfile == b.routingProfile && a.dnsProfile == b.dnsProfile
    && multiset(Map(SortTags, a.resources)) == multiset(Map(SortTags, b.resources))
    && multiset(a.members) == multiset(b.members) && multiset(a.targets) == multiset(b.targets)
  }

  /** Resources alike agree in everything but tag order. */
  lemma {:induction false} AlikeMeans(r: Resource, s: Resource)
    requires Alike(r, s)
    ensures r.payload == s.payload && Untagged(r) == Untagged(s) && multiset(r.meta.tags) == multiset(s.meta.tags)
  {
    assert Untagged(SortTags(r)) == Untagged(r) && Untagged(SortTags(s)) == Untagged(s);
    assert SortTags(r).meta.tags == SortBy(r.meta.tags, TagKey) && SortTags(s).meta.tags == SortBy(s.meta.tags, TagKey);
  }

  lemma {:induction false} Counterpart(a: Spec, b: Spec, r: Resource) returns (s: Resource)
    requires SameUpToOrder(a, b) && r in a.resources
    ensures s in b.resources && Alike(r, s)
  {
    var x, y := Map(SortTags, a.resources), Map(SortTags, b.resources);
    var i :| 0 <= i < |a.resources| && a.resources[i] == r;
    assert x[i] == SortTags(r) && x[i] in x;
    SameElements(x, y);
    assert x[i] in y;
    var j :| 0 <= j < |y| && y[j] == x[i];
    s := b.resources[j];
  }

  lemma {:induction false} Symmetric(a: Spec, b: Spec)
    requires SameUpToOrder(a, b)
    ensures SameUpToOrder(b, a)
  {
  }

  ghost predicate StoresAlike(m: Store, n: Store) {
    m.Keys == n.Keys && forall id :: id in m ==> Alike(m[id], n[id])
  }

  lemma {:induction false} KeepsId(rs: seq<Resource>, i: nat)
    requires i < |rs|
    ensures Map(SortTags, rs)[i] == SortTags(rs[i]) && Map(SortTags, rs)[i].meta.id == rs[i].meta.id
  {
    assert SortTags(rs[i]).meta.id == rs[i].meta.id;
  }

  lemma {:induction false} PermutedIds(a: Spec, b: Spec)
    requires SameUpToOrder(a, b) && DistinctIds(a.resources)
    ensures DistinctIds(b.resources)
  {
    var x, y := Map(SortTags, a.resources), Map(SortTags, b.resources);
    forall i, j | 0 <= i < j < |b.resources| ensures b.resources[i].meta.id != b.resources[j].meta.id {
      var p, q := PairPermuted(y, x, i, j);
      KeepsId(a.resources, p);
      KeepsId(a.resources, q);
      KeepsId(b.resources, i);
      KeepsId(b.resources, j);
    }
  }

  lemma {:induction false} PermutedStores(a: Spec, b: Spec)
    requires SameUpToOrder(a, b) && DistinctIds(a.resources) && DistinctIds(b.resources)
    ensures StoresAlike(StoreOf(a.resources), StoreOf(b.resources))
  {
    var m, n := StoreOf(a.resources), StoreOf(b.resources);
    StoreHolds(a.resources);
    StoreHolds(b.resources);
    forall id | id in m ensures id in n && Alike(m[id], n[id]) {
      var s := Counterpart(a, b, m[id]);
      AlikeMeans(m[id], s);
      assert Untagged(s).meta.id == Untagged(m[id]).meta.id;
    }
    Symmetric(a, b);
    forall id | id in n ensures id in m {
      var s := Counterpart(b, a, n[id]);
      AlikeMeans(n[id], s);
      assert Untagged(s).meta.id == Untagged(n[id]).meta.id;
    }
  }

  lemma {:induction false} StoresAlikeMeans(m: Store, n: Store, id: Id)
    requires StoresAlike(m, n) && id in m
    ensures m[id].payload == n[id].payload && Untagged(m[id]) == Untagged(n[id])
    ensures m[id].meta.(tags := []) == n[id].meta.(tags := [])
  {
    AlikeMeans(m[id], n[id]);
  }

  lemma {:induction false} AlikeResolved(m: Store, n: Store, l: Link)
    requires StoresAlike(m, n)
    ensures Resolved(m, l) <==> Resolved(n, l)
  {
    if l.id in m { StoresAlikeMeans(m, n, l.id); }
  }

  lemma {:induction false} AlikeResolvedIds(m: Store, n: Store, links: seq<Link>)
    requires StoresAlike(m, n)
    ensures ResolvedIds(m, links) == ResolvedIds(n, links)
  {
    if links != [] {
      AlikeResolved(m, n, links[0]);
      AlikeResolvedIds(m, n, links[1..]);
    }
  }

  lemma {:induction false} AlikeEdges(m: Store, n: Store)
    requires StoresAlike(m, n)
    ensures EdgesOf(m) == EdgesOf(n)
  {
    forall id | id in m ensures EdgesOf(m)[id] == EdgesOf(n)[id] {
      StoresAlikeMeans(m, n, id);
      AlikeResolvedIds(m, n, Links(m[id].payload));
    }
  }

  lemma {:induction false} AlikePreset(m: Store, n: Store, t: Target)
    requires StoresAlike(m, n)
    ensures EmbeddedPreset(m, t) <==> EmbeddedPreset(n, t)
    ensures PresetAgrees(m, t) <==> PresetAgrees(n, t)
  {
    if t.presetId in m { StoresAlikeMeans(m, n, t.presetId); }
  }

  lemma {:induction false} AlikeRoots(a: Spec, b: Spec, m: Store, n: Store)
    requires SameUpToOrder(a, b) && StoresAlike(m, n)
    ensures Roots(a, m) == Roots(b, n)
  {
    SameElements(a.members, b.members);
    SameElements(a.targets, b.targets);
    forall t ensures EmbeddedPreset(m, t) <==> EmbeddedPreset(n, t) { AlikePreset(m, n, t); }
    forall id ensures id in Roots(a, m) <==> id in Roots(b, n) {}
  }

  /** Reordered specs have the same closure. */
  lemma {:induction false} AlikeClosure(a: Spec, b: Spec)
    requires SameUpToOrder(a, b) && StoresAlike(StoreOf(a.resources), StoreOf(b.resources))
    ensures forall id :: InClosure(a, id) <==> InClosure(b, id)
  {
    AlikeEdges(StoreOf(a.resources), StoreOf(b.resources));
    AlikeRoots(a, b, StoreOf(a.resources), StoreOf(b.resources));
  }

  lemma {:induction false} AlikeValid(schema: Schema, r: Resource, s: Resource)
    requires Alike(r, s) && ValidResource(schema, r)
    ensures ValidResource(schema, s)
  {
    AlikeMeans(r, s);
    assert s.meta.kind == Untagged(s).meta.kind == Untagged(r).meta.kind == r.meta.kind;
  }

  lemma {:induction false} ElementsKept(schema: Schema, a: Spec, b: Spec)
    requires SameUpToOrder(a, b) && ElementsOK(schema, a)
    ensures ElementsOK(schema, b)
  {
    Symmetric(a, b);
    forall s | s in b.resources ensures ValidResource(schema, s) {
      var r := Counterpart(b, a, s);
      AlikeValid(schema, r, s);
    }
    SameElements(a.members, b.members);
    SameElements(a.targets, b.targets);
    SameElements(Map(SortTags, a.resources), Map(SortTags, b.resources));
  }

  lemma {:induction false} IndexKept(a: Spec, b: Spec)
    requires SameUpToOrder(a, b) && IndexOK(a)
    ensures IndexOK(b)
  {
    PermutedIds(a, b);
    Symmetric(a, b);
    forall s | s in b.resources ensures s.meta.scope == b.header.scopeId && s.meta.enabled {
      var r := Counterpart(b, a, s);
      AlikeMeans(s, r);
      assert Untagged(s).meta.scope == Untagged(r).meta.scope && Untagged(s).meta.enabled == Untagged(r).meta.enabled;
    }
  }

  lemma {:induction false} TargetsKept(a: Spec, b: Spec)
    requires SameUpToOrder(a, b) && TargetsOK(a)
    ensures TargetsOK(b)
  {
    SameElements(a.targets, b.targets);
    forall i, j | 0 <= i < j < |b.targets| ensures b.targets[i].key != b.targets[j].key {
      var p, q := PairPermuted(b.targets, a.targets, i, j);
      assert p < q ==> a.targets[p].key != a.targets[q].key;
    }
  }

  lemma {:induction false} AlikeResolves(m: Store, n: Store, ref: FrozenRef)
    requires StoresAlike(m, n)
    ensures Resolves(m, ref) <==> Resolves(n, ref)
  {
    if ref.id in m { StoresAlikeMeans(m, n, ref.id); }
  }

  lemma {:induction false} RootsKept(a: Spec, b: Spec, m: Store, n: Store)
    requires SameUpToOrder(a, b) && StoresAlike(m, n) && RootsOK(a, m)
    ensures RootsOK(b, n)
  {
    SameElements(a.members, b.members);
    SameElements(a.targets, b.targets);
    forall ref ensures Resolves(m, ref) <==> Resolves(n, ref) { AlikeResolves(m, n, ref); }
    forall t ensures PresetAgrees(m, t) <==> PresetAgrees(n, t) { AlikePreset(m, n, t); }
    forall i, j | 0 <= i < j < |b.members| ensures b.members[i].id != b.members[j].id {
      var p, q := PairPermuted(b.members, a.members, i, j);
      assert p < q ==> a.members[p].id != a.members[q].id;
    }
  }

  lemma {:induction false} AlikeDomainOnly(m: Store, n: Store, id: Id)
    requires StoresAlike(m, n)
    ensures DomainOnly(m, id) <==> DomainOnly(n, id)
  {
    if id in m { StoresAlikeMeans(m, n, id); }
  }

  lemma {:induction false} LinksKept(a: Spec, b: Spec, m: Store, n: Store)
    requires SameUpToOrder(a, b) && StoresAlike(m, n) && LinksOK(a, m)
    ensures LinksOK(b, n)
  {
    Symmetric(a, b);
    forall l ensures Resolved(m, l) <==> Resolved(n, l) { AlikeResolved(m, n, l); }
    forall id ensures DomainOnly(m, id) <==> DomainOnly(n, id) { AlikeDomainOnly(m, n, id); }
    forall s | s in b.resources ensures PayloadLinked(b, n, s.payload) {
      var r := Counterpart(b, a, s);
      AlikeMeans(s, r);
      assert PayloadLinked(a, m, r.payload);
    }
  }

  lemma {:induction false} OverridesKept(schema: Schema, a: Spec, b: Spec, m: Store, n: Store)
    requires SameUpToOrder(a, b) && StoresAlike(m, n) && OverridesOK(schema, a, m)
    requires forall id :: InClosure(a, id) <==> InClosure(b, id)
    ensures OverridesOK(schema, b, n)
  {
    SameElements(a.targets, b.targets);
    forall t, id | t in b.targets && id in t.overrides ensures OverrideClosed(schema, b, n, t, id) {
      assert OverrideClosed(schema, a, m, t, id);
      StoresAlikeMeans(m, n, id);
      AlikeValid(schema, m[id], n[id]);
    }
  }

  lemma {:induction false} ReachedKept(a: Spec, b: Spec)
    requires SameUpToOrder(a, b) && forall id :: InClosure(a, id) <==> InClosure(b, id)
    requires forall r :: r in a.resources ==> InClosure(a, r.meta.id)
    ensures forall s :: s in b.resources ==> InClosure(b, s.meta.id)
  {
    Symmetric(a, b);
    forall s | s in b.resources ensures InClosure(b, s.meta.id) {
      var r := Counterpart(b, a, s);
      AlikeMeans(s, r);
      assert Untagged(s).meta.id == Untagged(r).meta.id;
    }
  }

  lemma {:induction false} AcceptanceKept(schema: Schema, a: Spec, b: Spec)
    requires SameUpToOrder(a, b) && Accepted(schema, a)
    ensures Accepted(schema, b)
  {
    var m, n := StoreOf(a.resources), StoreOf(b.resources);
    ElementsKept(schema, a, b);
    IndexKept(a, b);
    PermutedStores(a, b);
    AlikeClosure(a, b);
    TargetsKept(a, b);
    RootsKept(a, b, m, n);
    LinksKept(a, b, m, n);
    OverridesKept(schema, a, b, m, n);
    ReachedKept(a, b);
  }

  // ---- Canonical order ----

  lemma {:induction false} MapSorted(rs: seq<Resource>)
    requires SortedBy(rs, ResourceKey)
    ensures SortedBy(Map(SortTags, rs), ResourceKey)
  {
    var out := Map(SortTags, rs);
    forall i, j | 0 <= i < j < |out| ensures StrLe(ResourceKey(out[i]), ResourceKey(out[j])) {
      assert ResourceKey(out[i]) == ResourceKey(rs[i]) && ResourceKey(out[j]) == ResourceKey(rs[j]);
    }
  }

  lemma {:induction false} IdsDetermine(rs: seq<Resource>)
    requires DistinctIds(rs)
    ensures KeyDetermines(Map(SortTags, rs), ResourceKey)
  {
    var out := Map(SortTags, rs);
    forall x, y | x in out && y in out && ResourceKey(x) == ResourceKey(y) ensures x == y {
      var i :| 0 <= i < |out| && out[i] == x;
      var j :| 0 <= j < |out| && out[j] == y;
      KeepsId(rs, i);
      KeepsId(rs, j);
    }
  }

  /** Sorting resources and then their tags is the one sorted arrangement of the tag-sorted resources. */
  lemma {:induction false} CanonicalResources(rs: seq<Resource>)
    requires DistinctIds(rs)
    ensures var out := Map(SortTags, SortBy(rs, ResourceKey));
            && SortedBy(out, ResourceKey) && multiset(out) == multiset(Map(SortTags, rs))
                && KeyDetermines(out, ResourceKey)
  {
    SortBySorted(rs, ResourceKey);
    MapSorted(SortBy(rs, ResourceKey));
    MapPermuted(SortTags, SortBy(rs, ResourceKey), rs);
    IdsDetermine(rs);
    KeyDeterminesPermuted(Map(SortTags, rs), Map(SortTags, SortBy(rs, ResourceKey)), ResourceKey);
  }

  lemma {:induction false} MembersDetermine(refs: seq<FrozenRef>)
    requires forall i, j :: 0 <= i < j < |refs| ==> refs[i].id != refs[j].id
    ensures KeyDetermines(refs, MemberKey)
  {
    forall x, y | x in refs && y in refs && MemberKey(x) == MemberKey(y) ensures x == y {
      var i :| 0 <= i < |refs| && refs[i] == x;
      var j :| 0 <= j < |refs| && refs[j] == y;
    }
  }

  lemma {:induction false} TargetsDetermine(ts: seq<Target>)
    requires DistinctKeys(ts)
    ensures KeyDetermines(ts, TargetKey)
  {
    forall x, y | x in ts && y in ts && TargetKey(x) == TargetKey(y) ensures x == y {
      var i :| 0 <= i < |ts| && ts[i] == x;
      var j :| 0 <= j < |ts| && ts[j] == y;
    }
  }

  /** Two specs that differ only in order are both refused or both freeze to the identical snapshot. */
  lemma {:induction false} FreezeIgnoresOrder(schema: Schema, a: Spec, b: Spec)
    requires SameUpToOrder(a, b)
    ensures Accepted(schema, a) <==> Accepted(schema, b)
    ensures Accepted(schema, a) ==> Canonical(a) == Canonical(b)
  {
    Symmetric(a, b);
    if Accepted(schema, b) { AcceptanceKept(schema, b, a); }
    if Accepted(schema, a) {
      AcceptanceKept(schema, a, b);
      CanonicalResources(a.resources);
      CanonicalResources(b.resources);
      SortedUnique(Canonical(a).resources, Canonical(b).resources, ResourceKey);
      MembersDetermine(a.members);
      SortByCanonical(a.members, b.members, MemberKey);
      TargetsDetermine(a.targets);
      SortByCanonical(a.targets, b.targets, TargetKey);
    }
  }

  lemma {:induction false} SortTagsTwice(r: Resource)
    ensures SortTags(SortTags(r)) == SortTags(r)
  {
    SortByCanonical(SortBy(r.meta.tags, TagKey), r.meta.tags, TagKey);
  }

  lemma {:induction false} CanonicalIsReordering(spec: Spec)
    ensures SameUpToOrder(spec, Canonical(spec))
  {
    var sorted := SortBy(spec.resources, ResourceKey);
    MapPermuted(SortTags, sorted, spec.resources);
    forall i | 0 <= i < |sorted|
        ensures SortTags(SortTags(sorted[i])) == SortTags(sorted[i]) { SortTagsTwice(sorted[i]); }
    assert Map(SortTags, Map(SortTags, sorted)) == Map(SortTags, sorted);
  }

  /** Freezing keeps acceptance, and freezing a frozen snapshot changes nothing. */
  lemma {:induction false} FreezeIdempotent(schema: Schema, spec: Spec)
    requires Accepted(schema, spec)
    ensures Accepted(schema, Canonical(spec)) && Canonical(Canonical(spec)) == Canonical(spec)
  {
    CanonicalIsReordering(spec);
    FreezeIgnoresOrder(schema, spec, Canonical(spec));
  }
}
