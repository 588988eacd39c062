/**
 Dependency expansion (internal/depgraph/depgraph.go): a three-colour depth-first walk with a
 resource budget, which records a dependency-first order and diagnostics.

 A resource carries the outcome of the reference extractor: None when extraction fails.
 */
module DepGraph {
  import opened Prelude

  type Id = string
  type Kind = string

  datatype Reference = Reference(target: Id, expected: Kind, path: string)

  datatype Resource = Resource(kind: Kind, scope: string, enabled: bool, refs: Option<seq<Reference>>)

  datatype Code =
    | DependencyExcluded | DependencyCycle | ReferenceMissing | ScopeMismatch
    | ResourceDisabled | LimitExceeded | RefsFailed | ReferenceKind

  datatype Diagnostic = Diagnostic(code: Code, id: Id, via: string)

  /** The fixed inputs of one expansion; scope "" means "take the first resource's scope". */
  datatype Input = Input(resources: map<Id, Resource>, exclude: set<Id>, max: int, scope: string)

  datatype Mark = Visiting | Done

  datatype State = State(seen: map<Id, Mark>, scope: string, order: seq<Id>, diags: seq<Diagnostic>)

  const DEFAULT_MAX_RESOURCES := 2000

  function EffectiveMax(max: int): int { if max == 0 then DEFAULT_MAX_RESOURCES else max }

  function Report(st: State, code: Code, id: Id, via: string): State {
    st.(diags := st.diags + [Diagnostic(code, id, via)])
  }

  // ---- The walk as a function of its state ----

  ghost function Walk(g: Input, st: State, id: Id, path: seq<Id>, via: string): (r: State)
    ensures st.seen.Keys <= r.seen.Keys && st.diags <= r.diags
    decreases g.resources.Keys - st.seen.Keys, 0
  {
    if id in g.exclude then Report(st, DependencyExcluded, id, via)
    else if id in st.seen && st.seen[id].Visiting? then Report(st, DependencyCycle, id, via)
    else if id in st.seen then st
    else if id !in g.resources then Report(st, ReferenceMissing, id, via)
    else
      var resource := g.resources[id];
      var st := st.(scope := if st.scope == "" then resource.scope else st.scope);
      if resource.scope != st.scope then Report(st, ScopeMismatch, id, via)
      else if !resource.enabled then Report(st, ResourceDisabled, id, via)
      else if |st.order| + |path| >= EffectiveMax(g.max) then Report(st, LimitExceeded, id, via)
      else if resource.refs.None? then Report(st, RefsFailed, id, via).(seen := st.seen[id := Done])
      else
        var entered := st.(seen := st.seen[id := Visiting]);
        assert id in g.resources.Keys - st.seen.Keys && id !in g.resources.Keys - entered.seen.Keys;
        var left := WalkRefs(g, entered, resource.refs.value, path + [id]);
        left.(seen := left.seen[id := Done], order := left.order + [id])
  }

  ghost function WalkRefs(g: Input, st: State, refs: seq<Reference>, path: seq<Id>): (r: State)
    ensures st.seen.Keys <= r.seen.Keys && st.diags <= r.diags
    decreases g.resources.Keys - st.seen.Keys, 1 + |refs|
  {
    if refs == [] then st
    else
      var first := FollowRef(g, st, refs[0], path);
      WalkRefs(g, first, refs[1..], path)
  }

  ghost function FollowRef(g: Input, st: State, ref: Reference, path: seq<Id>): (r: State)
    ensures st.seen.Keys <= r.seen.Keys && st.diags <= r.diags
    decreases g.resources.Keys - st.seen.Keys, 1
  {
    if ref.target in g.resources && g.resources[ref.target].kind != ref.expected
    then Report(st, ReferenceKind, ref.target, ref.path)
    else Walk(g, st, ref.target, path, ref.path)
  }

  ghost function WalkRoots(g: Input, st: State, roots: seq<Id>, from: nat): State
    requires from <= |roots|
    decreases |roots| - from
  {
    if from == |roots| then st
    else WalkRoots(g, Walk(g, st, roots[from], [], "/roots/" + Itoa(from)), roots, from + 1)
  }

  ghost function Expanded(g: Input, roots: seq<Id>): State {
    WalkRoots(g, State(map[], g.scope, [], []), roots, 0)
  }

  // ---- Reachability ----

  ghost predicate Edge(g: Input, a: Id, b: Id) {
    a in g.resources && g.resources[a].refs.Some? && exists k ::
        0 <= k < |g.resources[a].refs.value| && g.resources[a].refs.value[k].target == b
  }

  ghost predicate IsPath(g: Input, p: seq<Id>) {
    |p| > 0 && forall i :: 0 <= i < |p| - 1 ==> Edge(g, p[i], p[i + 1])
  }

  ghost predicate PathTo(g: Input, roots: seq<Id>, id: Id, p: seq<Id>) {
    IsPath(g, p) && p[0] in roots && p[|p| - 1] == id
  }

  ghost predicate Reachable(g: Input, roots: seq<Id>, id: Id) {
    exists p :: PathTo(g, roots, id, p)
  }

  lemma {:induction false} ReachStep(g: Input, roots: seq<Id>, a: Id, b: Id)
    requires Reachable(g, roots, a) && Edge(g, a, b)
    ensures Reachable(g, roots, b)
  {
    var p :| PathTo(g, roots, a, p);
    assert PathTo(g, roots, b, p + [b]);
  }

  lemma {:induction false} RootReachable(g: Input, roots: seq<Id>, id: Id)
    requires id in roots
    ensures Reachable(g, roots, id)
  {
    assert PathTo(g, roots, id, [id]);
  }

  /** A set that holds the roots and is closed under edges holds everything reachable. */
  lemma {:induction false} ClosedHoldsReachable(g: Input, roots: seq<Id>, closed: seq<Id>, id: Id)
    requires forall r :: r in roots ==> r in closed
    requires forall a, b :: a in closed && Edge(g, a, b) ==> b in closed
    requires Reachable(g, roots, id)
    ensures id in closed
  {
    var p :| PathTo(g, roots, id, p);
    var i := 0;
    while i < |p| - 1
      invariant 0 <= i < |p| && p[i] in closed
    {
      assert Edge(g, p[i], p[i + 1]);
      i := i + 1;
    }
  }

  // ---- Every run: marks, order, budget ----

  /** Holds in every state of every run, with path the chain of resources being visited. */
  ghost predicate Inv(g: Input, roots: seq<Id>, st: State, path: seq<Id>) {
    && Distinct(path) && Distinct(st.order)
    && (forall id :: id in path <==> id in st.seen && st.seen[id].Visiting?)
    && (forall id :: id in st.order ==> id in st.seen && st.seen[id].Done?)
    && (forall id :: id in st.seen ==> id in g.resources && Reachable(g, roots, id))
    && (|st.order| + |path| > 0 ==> |st.order| + |path| <= EffectiveMax(g.max))
  }

  /** The walk descends into id: every check before the reference loop passes. */
  ghost predicate Enters(g: Input, st: State, id: Id, path: seq<Id>) {
    && id !in g.exclude && id !in st.seen && id in g.resources
    && g.resources[id].scope == (if st.scope == "" then g.resources[id].scope else st.scope)
    && g.resources[id].enabled && |st.order| + |path| < EffectiveMax(g.max) && g.resources[id].refs.Some?
  }

  ghost function Entered(g: Input, st: State, id: Id): (r: State)
    requires id in g.resources && id !in st.seen
    ensures g.resources.Keys - r.seen.Keys < g.resources.Keys - st.seen.Keys
  {
    var r := st.(scope := if st.scope == "" then g.resources[id].scope else st.scope, seen := st.seen[id := Visiting]);
    assert id in g.resources.Keys - st.seen.Keys && id !in g.resources.Keys - r.seen.Keys;
    r
  }

  lemma {:induction false} WalkInv(g: Input, roots: seq<Id>, st: State, id: Id, path: seq<Id>, via: string)
    requires Inv(g, roots, st, path) && Reachable(g, roots, id)
    ensures Inv(g, roots, Walk(g, st, id, path, via), path)
    decreases g.resources.Keys - st.seen.Keys, 0
  {
    if Enters(g, st, id, path) {
      WalkRefsInv(g, roots, Entered(g, st, id), id, 0, path + [id]);
    }
  }

  lemma {:induction false} WalkRefsInv(g: Input, roots: seq<Id>, st: State, id: Id, from: nat, path: seq<Id>)
    requires id in g.resources && g.resources[id].refs.Some? && from <= |g.resources[id].refs.value|
    requires Inv(g, roots, st, path) && Reachable(g, roots, id)
    ensures Inv(g, roots, WalkRefs(g, st, g.resources[id].refs.value[from..], path), path)
    decreases g.resources.Keys - st.seen.Keys, 1 + |g.resources[id].refs.value| - from
  {
    var refs := g.resources[id].refs.value;
    if from < |refs| {
      FollowRefInv(g, roots, st, id, from, path);
      assert refs[from..][1..] == refs[from + 1..];
      WalkRefsInv(g, roots, FollowRef(g, st, refs[from], path), id, from + 1, path);
    }
  }

  lemma {:induction false} FollowRefInv(g: Input, roots: seq<Id>, st: State, id: Id, k: nat, path: seq<Id>)
    requires id in g.resources && g.resources[id].refs.Some? && k < |g.resources[id].refs.value|
    requires Inv(g, roots, st, path) && Reachable(g, roots, id)
    ensures Reachable(g, roots, g.resources[id].refs.value[k].target)
    ensures Inv(g, roots, FollowRef(g, st, g.resources[id].refs.value[k], path), path)
    decreases g.resources.Keys - st.seen.Keys, 1
  {
    var ref := g.resources[id].refs.value[k];
    assert Edge(g, id, ref.target);
    ReachStep(g, roots, id, ref.target);
    if !(ref.target in g.resources && g.resources[ref.target].kind != ref.expected) {
      WalkInv(g, roots, st, ref.target, path, ref.path);
    }
  }

  // ---- Runs without diagnostics ----

  /** Resource id passes every check that does not depend on the walk. */
  ghost predicate Sound(g: Input, id: Id) {
    && id in g.resources && id !in g.exclude && g.resources[id].enabled && g.resources[id].refs.Some?
    && forall k :: 0 <= k < |g.resources[id].refs.value| ==> RightKind(g, g.resources[id].refs.value[k])
  }

  ghost predicate RightKind(g: Input, ref: Reference) {
    ref.target in g.resources ==> g.resources[ref.target].kind == ref.expected
  }

  ghost predicate DependenciesIn(g: Input, id: Id, before: seq<Id>) {
    forall d :: Edge(g, id, d) ==> d in before
  }

  /** While nothing was reported: the order holds everything finished, dependencies first. */
  ghost predicate Clean(g: Input, st: State) {
    && st.diags == []
    && (forall id :: id in st.seen && st.seen[id].Done? ==> id in st.order)
    && (forall i :: 0 <= i < |st.order| ==> Sound(g, st.order[i]) && DependenciesIn(g, st.order[i], st.order[..i]))
  }

  /** Finishing id after all its dependencies keeps the order dependency-first. */
  lemma {:induction false} FinishClean(g: Input, left: State, id: Id)
    requires Clean(g, left) && Sound(g, id) && DependenciesIn(g, id, left.order)
    requires id in left.seen
    ensures Clean(g, left.(seen := left.seen[id := Done], order := left.order + [id]))
  {
    var order := left.order + [id];
    forall i | 0 <= i < |order| ensures Sound(g, order[i]) && DependenciesIn(g, order[i], order[..i]) {
      assert order[..i] == left.order[..i];
      if i == |left.order| { assert left.order[..i] == left.order; }
    }
  }

  lemma {:induction false} WalkClean(g: Input, roots: seq<Id>, st: State, id: Id, path: seq<Id>, via: string)
    requires Inv(g, roots, st, path) && Clean(g, st) && Reachable(g, roots, id)
    requires Walk(g, st, id, path, via).diags == []
    ensures Clean(g, Walk(g, st, id, path, via))
    ensures id in Walk(g, st, id, path, via).order && st.order <= Walk(g, st, id, path, via).order
    decreases g.resources.Keys - st.seen.Keys, 0
  {
    if id !in st.seen {
      assert Enters(g, st, id, path);
      var entered := Entered(g, st, id);
      var refs := g.resources[id].refs.value;
      assert refs[0..] == refs;
      var left := WalkRefs(g, entered, refs, path + [id]);
      assert Walk(g, st, id, path, via) == left.(seen := left.seen[id := Done], order := left.order + [id]);
      WalkRefsClean(g, roots, entered, id, 0, path + [id]);
      FinishClean(g, left, id);
    }
  }

  lemma {:induction false} WalkRefsClean(g: Input, roots: seq<Id>, st: State, id: Id, from: nat, path: seq<Id>)
    requires id in g.resources && g.resources[id].refs.Some? && from <= |g.resources[id].refs.value|
    requires Inv(g, roots, st, path) && Clean(g, st) && Reachable(g, roots, id)
    requires WalkRefs(g, st, g.resources[id].refs.value[from..], path).diags == []
    ensures var refs, r := g.resources[id].refs.value, WalkRefs(g, st, g.resources[id].refs.value[from..], path);
            && Clean(g, r) && st.order <= r.order
            && forall k :: from <= k < |refs| ==> RightKind(g, refs[k]) && refs[k].target in r.order
    decreases g.resources.Keys - st.seen.Keys, 1 + |g.resources[id].refs.value| - from
  {
    var refs := g.resources[id].refs.value;
    if from < |refs| {
      assert refs[from..][1..] == refs[from + 1..];
      var ref, next := refs[from], FollowRef(g, st, refs[from], path);
      assert next.diags <= WalkRefs(g, next, refs[from + 1..], path).diags;
      FollowRefInv(g, roots, st, id, from, path);
      WalkClean(g, roots, st, ref.target, path, ref.path);
      WalkRefsClean(g, roots, next, id, from + 1, path);
    }
  }

  // ---- The exact condition for an expansion without diagnostics ----

  ghost function ReachableSet(g: Input, roots: seq<Id>): set<Id> {
    set id | id in g.resources && Reachable(g, roots, id)
  }

  ghost predicate Acyclic(g: Input, roots: seq<Id>) {
    forall p :: IsPath(g, p) && |p| > 1 && Reachable(g, roots, p[0]) ==> p[0] != p[|p| - 1]
  }

  /** The scope of a stored resource; anything for other ids. */
  ghost function ScopeOf(g: Input, id: Id): string { if id in g.resources then g.resources[id].scope else "" }

  /** Depth-first discovery, whatever the scopes, kinds and budget: the ids in the order they are first met. */
  ghost function Discover(g: Input, met: seq<Id>, id: Id): (r: seq<Id>)
    ensures met <= r
    decreases g.resources.Keys - ToSet(met), 0
  {
    if id in met || id !in g.resources || g.resources[id].refs.None? then met
    else
      assert id in g.resources.Keys - ToSet(met) && id !in g.resources.Keys - ToSet(met + [id]);
      DiscoverRefs(g, met + [id], g.resources[id].refs.value)
  }

  ghost function DiscoverRefs(g: Input, met: seq<Id>, refs: seq<Reference>): (r: seq<Id>)
    ensures met <= r
    decreases g.resources.Keys - ToSet(met), 1 + |refs|
  {
    if refs == [] then met
    else
      var next := Discover(g, met, refs[0].target);
      assert ToSet(met) <= ToSet(next);
      DiscoverRefs(g, next, refs[1..])
  }

  ghost function DiscoverRoots(g: Input, met: seq<Id>, roots: seq<Id>, from: nat): (r: seq<Id>)
    requires from <= |roots|
    ensures met <= r
    decreases |roots| - from
  {
    if from == |roots| then met else DiscoverRoots(g, Discover(g, met, roots[from]), roots, from + 1)
  }

  ghost function Discovered(g: Input, roots: seq<Id>): seq<Id> { DiscoverRoots(g, [], roots, 0) }

  /** Every id has scope s, except that without a given scope the first ones may have none. */
  ghost predicate SettlesOn(g: Input, ids: seq<Id>, s: string) {
    && (g.scope != "" ==> s == g.scope)
    && forall i :: 0 <= i < |ids| ==> ScopeOf(g, ids[i]) == s || (g.scope == "" && Unscoped(g, ids, i + 1))
  }

  ghost predicate Unscoped(g: Input, ids: seq<Id>, n: nat) {
    forall j :: 0 <= j < n && j < |ids| ==> ScopeOf(g, ids[j]) == ""
  }

  ghost predicate Settles(g: Input, ids: seq<Id>) { exists s :: SettlesOn(g, ids, s) }

  /** The scope in force after the ids were entered one by one; None when one does not fit. */
  ghost function ScopeAfter(g: Input, ids: seq<Id>): Option<string> {
    if ids == [] then Some(g.scope)
    else
      var before, own := ScopeAfter(g, ids[..|ids| - 1]), ScopeOf(g, ids[|ids| - 1]);
      if before.None? || (before.value != "" && before.value != own) then None else Some(own)
  }

  lemma {:induction false} ScopeAfterPrefix(g: Input, a: seq<Id>, b: seq<Id>)
    requires a <= b && ScopeAfter(g, b).Some?
    ensures ScopeAfter(g, a).Some?
    decreases |b|
  {
    if |a| < |b| {
      assert a == b[..|b| - 1][..|a|];
      ScopeAfterPrefix(g, a, b[..|b| - 1]);
    } else {
      assert a == b;
    }
  }

  lemma {:induction false} SettlesPrefix(g: Input, ids: seq<Id>, s: string)
    requires ids != [] && SettlesOn(g, ids, s)
    ensures SettlesOn(g, ids[..|ids| - 1], s)
  {
    var front := ids[..|ids| - 1];
    forall i | 0 <= i < |front| ensures ScopeOf(g, front[i]) == s || (g.scope == "" && Unscoped(g, front, i + 1)) {
      assert front[i] == ids[i];
      if g.scope == "" && Unscoped(g, ids, i + 1) { assert Unscoped(g, front, i + 1); }
    }
  }

  /** Entering one by one works exactly on lists that settle, and ends in the scope they settle on. */
  lemma {:induction false} ScopeAfterSettles(g: Input, ids: seq<Id>)
    ensures ScopeAfter(g, ids).Some? ==> SettlesOn(g, ids, ScopeAfter(g, ids).value)
  {
    if ids != [] && ScopeAfter(g, ids).Some? {
      var front := ids[..|ids| - 1];
      ScopeAfterSettles(g, front);
      var before, own := ScopeAfter(g, front).value, ScopeAfter(g, ids).value;
      forall i | 0 <= i < |ids| ensures ScopeOf(g, ids[i]) == own || (g.scope == "" && Unscoped(g, ids, i + 1)) {
        if i < |front| { SettlesAt(g, ids, front, before, own, i); }
      }
    }
  }

  lemma {:induction false} SettlesAt(g: Input, ids: seq<Id>, front: seq<Id>, before: string, own: string, i: nat)
    requires ids != [] && front == ids[..|ids| - 1] && SettlesOn(g, front, before) && i < |front|
    requires before == "" || before == own
    ensures ScopeOf(g, ids[i]) == own || (g.scope == "" && Unscoped(g, ids, i + 1))
  {
    assert front[i] == ids[i];
    if before == "" {
      assert g.scope == "";
      forall j | 0 <= j < i + 1 ensures ScopeOf(g, ids[j]) == "" {
        assert front[j] == ids[j];
        assert Unscoped(g, front, j + 1) ==> ScopeOf(g, front[j]) == "";
      }
    } else if Unscoped(g, front, i + 1) {
      forall j | 0 <= j < i + 1 ensures ScopeOf(g, ids[j]) == "" { assert front[j] == ids[j]; }
    }
  }

  lemma {:induction false} SettlesScopeAfter(g: Input, ids: seq<Id>, s: string)
    requires SettlesOn(g, ids, s)
    ensures ScopeAfter(g, ids).Some? && (ScopeAfter(g, ids).value == s || (g.scope == "" && Unscoped(g, ids, |ids|)))
    ensures g.scope == "" && Unscoped(g, ids, |ids|) ==> ScopeAfter(g, ids).value == ""
  {
    if ids != [] {
      var n := |ids| - 1;
      var front := ids[..n];
      SettlesPrefix(g, ids, s);
      SettlesScopeAfter(g, front, s);
      assert Unscoped(g, ids, n + 1) ==> Unscoped(g, front, n);
      assert Unscoped(g, front, n) ==> forall j :: 0 <= j < n ==> ScopeOf(g, ids[j]) == ScopeOf(g, front[j]) == "";
    }
  }

  lemma {:induction false} ScopeAfterIff(g: Input, ids: seq<Id>)
    ensures ScopeAfter(g, ids).Some? <==> Settles(g, ids)
  {
    ScopeAfterSettles(g, ids);
    if s :| SettlesOn(g, ids, s) { SettlesScopeAfter(g, ids, s); }
  }

  /** The state has met exactly these ids, each once, and is in the scope they lead to. */
  ghost predicate Tracks(g: Input, st: State, met: seq<Id>) {
    Distinct(met) && st.seen.Keys == ToSet(met) && ScopeAfter(g, met) == Some(st.scope)
  }

  lemma {:induction false} EnteredTracks(g: Input, st: State, met: seq<Id>, id: Id)
    requires Tracks(g, st, met) && id !in st.seen && id in g.resources
    requires st.scope == "" || st.scope == g.resources[id].scope
    ensures Tracks(g, Entered(g, st, id), met + [id])
  {
    assert (met + [id])[..|met + [id]| - 1] == met;
    assert id !in met;
    var entered := Entered(g, st, id);
    assert ToSet(met + [id]) == ToSet(met) + {id};
  }

  /** A walk without diagnostics meets what discovery meets. */
  lemma {:induction false} WalkTracks(g: Input, st: State, met: seq<Id>, id: Id, path: seq<Id>, via: string)
    requires Tracks(g, st, met) && Walk(g, st, id, path, via).diags == []
    ensures Tracks(g, Walk(g, st, id, path, via), Discover(g, met, id))
    decreases g.resources.Keys - st.seen.Keys, 0
  {
    if id !in st.seen {
      assert Enters(g, st, id, path) by { assert st.diags == []; }
      var entered, refs := Entered(g, st, id), g.resources[id].refs.value;
      assert refs[0..] == refs;
      EnteredTracks(g, st, met, id);
      WalkRefsTracks(g, entered, met + [id], refs, path + [id]);
      assert id in entered.seen;
    }
  }

  lemma {:induction false} WalkRefsTracks(g: Input, st: State, met: seq<Id>, refs: seq<Reference>, path: seq<Id>)
    requires Tracks(g, st, met) && WalkRefs(g, st, refs, path).diags == []
    ensures Tracks(g, WalkRefs(g, st, refs, path), DiscoverRefs(g, met, refs))
    decreases g.resources.Keys - st.seen.Keys, 1 + |refs|
  {
    if refs != [] {
      var next := FollowRef(g, st, refs[0], path);
      assert next.diags <= WalkRefs(g, next, refs[1..], path).diags;
      WalkTracks(g, st, met, refs[0].target, path, refs[0].path);
      WalkRefsTracks(g, next, Discover(g, met, refs[0].target), refs[1..], path);
    }
  }

  ghost predicate OneScope(g: Input, roots: seq<Id>) {
    && (forall a, b :: a in ReachableSet(g, roots) && b in ReachableSet(g, roots) ==>
        g.resources[a].scope == g.resources[b].scope)
    && (g.scope != "" ==> forall a :: a in ReachableSet(g, roots) ==> g.resources[a].scope == g.scope)
  }

  /** The reachable part is complete, right-kind, enabled, not excluded, acyclic and within budget. */
  ghost predicate Complete(g: Input, roots: seq<Id>) {
    && (forall id :: Reachable(g, roots, id) ==> Sound(g, id)) && Acyclic(g, roots)
    && (ReachableSet(g, roots) != {} ==> |ReachableSet(g, roots)| <= EffectiveMax(g.max))
  }

  /** And its scopes settle in the order of discovery. */
  ghost predicate Expandable(g: Input, roots: seq<Id>) { Complete(g, roots) && Settles(g, Discovered(g, roots)) }

  /** While id has not been seen, finished and visiting resources leave room in the budget. */
  lemma {:induction false} RoomLeft(g: Input, roots: seq<Id>, st: State, path: seq<Id>, id: Id)
    requires Complete(g, roots) && Inv(g, roots, st, path)
    requires id !in st.seen && Reachable(g, roots, id)
    ensures |st.order| + |path| < EffectiveMax(g.max)
  {
    var used, all := ToSet(st.order) + ToSet(path), ReachableSet(g, roots);
    UsedSize(st.order, path);
    assert Sound(g, id) && id in all;
    forall x | x in used ensures x in all - {id} { assert x in st.seen; }
    SubsetSize(used, all - {id});
  }

  lemma {:induction false} UsedSize(order: seq<Id>, path: seq<Id>)
    requires Distinct(order) && Distinct(path) && forall x :: x in order ==> x !in path
    ensures |ToSet(order) + ToSet(path)| == |order| + |path|
  {
    DistinctSize(order);
    DistinctSize(path);
    assert ToSet(order) !! ToSet(path);
  }

  lemma {:induction false} CycleThrough(g: Input, path: seq<Id>, id: Id, k: nat) returns (cycle: seq<Id>)
    requires IsPath(g, path + [id]) && k < |path| && path[k] == id
    ensures IsPath(g, cycle) && |cycle| > 1 && cycle[0] == id && cycle[|cycle| - 1] == id
  {
    var whole := path + [id];
    cycle := whole[k..];
    forall i | 0 <= i < |cycle| - 1 ensures Edge(g, cycle[i], cycle[i + 1]) {
      assert cycle[i] == whole[k + i] && cycle[i + 1] == whole[k + i + 1];
    }
  }

  lemma {:induction false} NoCycle(g: Input, roots: seq<Id>, path: seq<Id>, id: Id)
    requires Acyclic(g, roots) && Reachable(g, roots, id) && IsPath(g, path + [id])
    ensures id !in path
  {
    if k :| 0 <= k < |path| && path[k] == id {
      var cycle := CycleThrough(g, path, id, k);
    }
  }

  lemma {:induction false} WalkGood(g: Input, roots: seq<Id>, st: State, met: seq<Id>, id: Id,
                                    path: seq<Id>, via: string)
    requires Complete(g, roots) && Inv(g, roots, st, path) && Clean(g, st) && Tracks(g, st, met)
    requires Reachable(g, roots, id) && IsPath(g, path + [id]) && ScopeAfter(g, Discover(g, met, id)).Some?
    ensures Walk(g, st, id, path, via).diags == []
    decreases g.resources.Keys - st.seen.Keys, 0
  {
    assert Sound(g, id);
    NoCycle(g, roots, path, id);
    if id !in st.seen {
      GoodEnters(g, roots, st, met, id, path);
      var entered, refs := Entered(g, st, id), g.resources[id].refs.value;
      assert refs[0..] == refs;
      EnteredTracks(g, st, met, id);
      EnteredInv(g, roots, st, id, path);
      WalkRefsGood(g, roots, entered, met + [id], id, 0, path + [id]);
      WalkEntered(g, st, id, path, via);
    }
  }

  lemma {:induction false} WalkEntered(g: Input, st: State, id: Id, path: seq<Id>, via: string)
    requires Enters(g, st, id, path)
    ensures Walk(g, st, id, path, via).diags ==
            WalkRefs(g, Entered(g, st, id), g.resources[id].refs.value, path + [id]).diags
  {
  }

  lemma {:induction false} EnteredInv(g: Input, roots: seq<Id>, st: State, id: Id, path: seq<Id>)
    requires Enters(g, st, id, path) && Inv(g, roots, st, path) && Clean(g, st) && Reachable(g, roots, id)
    ensures Inv(g, roots, Entered(g, st, id), path + [id]) && Clean(g, Entered(g, st, id))
  {
  }

  lemma {:induction false} GoodEnters(g: Input, roots: seq<Id>, st: State, met: seq<Id>, id: Id, path: seq<Id>)
    requires Complete(g, roots) && Inv(g, roots, st, path) && Tracks(g, st, met) && id !in st.seen
    requires Reachable(g, roots, id) && ScopeAfter(g, Discover(g, met, id)).Some?
    ensures Enters(g, st, id, path) && (st.scope == "" || st.scope == g.resources[id].scope)
  {
    assert Sound(g, id);
    RoomLeft(g, roots, st, path, id);
    ScopeFits(g, st, met, id);
  }

  lemma {:induction false} ScopeFits(g: Input, st: State, met: seq<Id>, id: Id)
    requires Tracks(g, st, met) && id !in st.seen && id in g.resources && g.resources[id].refs.Some?
    requires ScopeAfter(g, Discover(g, met, id)).Some?
    ensures st.scope == "" || st.scope == g.resources[id].scope
  {
    assert id !in met;
    assert met + [id] <= Discover(g, met, id);
    ScopeAfterPrefix(g, met + [id], Discover(g, met, id));
    assert (met + [id])[..|met + [id]| - 1] == met;
  }

  lemma {:induction false} WalkRefsGood(g: Input, roots: seq<Id>, st: State, met: seq<Id>, id: Id, from: nat,
                                        path: seq<Id>)
    requires id in g.resources && g.resources[id].refs.Some? && from <= |g.resources[id].refs.value|
    requires Complete(g, roots) && Inv(g, roots, st, path) && Clean(g, st) && Tracks(g, st, met)
    requires Reachable(g, roots, id) && IsPath(g, path) && path[|path| - 1] == id
    requires ScopeAfter(g, DiscoverRefs(g, met, g.resources[id].refs.value[from..])).Some?
    ensures WalkRefs(g, st, g.resources[id].refs.value[from..], path).diags == []
    decreases g.resources.Keys - st.seen.Keys, 1 + |g.resources[id].refs.value| - from
  {
    var refs := g.resources[id].refs.value;
    if from < |refs| {
      assert refs[from..][1..] == refs[from + 1..];
      var met' := Discover(g, met, refs[from].target);
      ScopeAfterPrefix(g, met', DiscoverRefs(g, met', refs[from + 1..]));
      FollowRefGood(g, roots, st, met, id, from, path);
      WalkRefsGood(g, roots, FollowRef(g, st, refs[from], path), met', id, from + 1, path);
    }
  }

  lemma {:induction false} FollowRefGood(g: Input, roots: seq<Id>, st: State, met: seq<Id>, id: Id, k: nat,
                                         path: seq<Id>)
    requires id in g.resources && g.resources[id].refs.Some? && k < |g.resources[id].refs.value|
    requires Complete(g, roots) && Inv(g, roots, st, path) && Clean(g, st) && Tracks(g, st, met)
    requires Reachable(g, roots, id) && IsPath(g, path) && path[|path| - 1] == id
    requires ScopeAfter(g, Discover(g, met, g.resources[id].refs.value[k].target)).Some?
    ensures var ref := g.resources[id].refs.value[k];
            var r := FollowRef(g, st, ref, path);
            Inv(g, roots, r, path) && Clean(g, r) && Tracks(g, r, Discover(g, met, ref.target))
    decreases g.resources.Keys - st.seen.Keys, 1
  {
    var ref := g.resources[id].refs.value[k];
    assert Sound(g, id) && RightKind(g, ref) && Edge(g, id, ref.target);
    FollowRefInv(g, roots, st, id, k, path);
    assert IsPath(g, path + [ref.target]);
    WalkGood(g, roots, st, met, ref.target, path, ref.path);
    WalkClean(g, roots, st, ref.target, path, ref.path);
    WalkTracks(g, st, met, ref.target, path, ref.path);
  }

  // ---- Whole expansions ----

  lemma {:induction false} RootsInv(g: Input, roots: seq<Id>, st: State, from: nat)
    requires from <= |roots| && Inv(g, roots, st, [])
    ensures Inv(g, roots, WalkRoots(g, st, roots, from), [])
    ensures st.diags <= WalkRoots(g, st, roots, from).diags
    decreases |roots| - from
  {
    if from < |roots| {
      RootReachable(g, roots, roots[from]);
      WalkInv(g, roots, st, roots[from], [], "/roots/" + Itoa(from));
      RootsInv(g, roots, Walk(g, st, roots[from], [], "/roots/" + Itoa(from)), from + 1);
    }
  }

  lemma {:induction false} RootClean(g: Input, roots: seq<Id>, st: State, k: nat, via: string)
    requires k < |roots| && Inv(g, roots, st, []) && Clean(g, st)
    requires Walk(g, st, roots[k], [], via).diags == []
    ensures var next := Walk(g, st, roots[k], [], via);
            Inv(g, roots, next, []) && Clean(g, next) && st.order <= next.order && roots[k] in next.order
  {
    RootReachable(g, roots, roots[k]);
    WalkInv(g, roots, st, roots[k], [], via);
    WalkClean(g, roots, st, roots[k], [], via);
  }

  lemma {:induction false} RootDiags(g: Input, roots: seq<Id>, st: State, from: nat)
    requires from < |roots| && Inv(g, roots, st, []) && WalkRoots(g, st, roots, from).diags == []
    ensures Walk(g, st, roots[from], [], "/roots/" + Itoa(from)).diags == []
  {
    var via := "/roots/" + Itoa(from);
    RootReachable(g, roots, roots[from]);
    WalkInv(g, roots, st, roots[from], [], via);
    RootsInv(g, roots, Walk(g, st, roots[from], [], via), from + 1);
  }

  lemma {:induction false} RootsClean(g: Input, roots: seq<Id>, st: State, from: nat)
    requires from <= |roots| && Inv(g, roots, st, []) && Clean(g, st)
    requires WalkRoots(g, st, roots, from).diags == []
    ensures Clean(g, WalkRoots(g, st, roots, from)) && st.order <= WalkRoots(g, st, roots, from).order
    decreases |roots| - from
  {
    if from < |roots| {
      RootDiags(g, roots, st, from);
      RootClean(g, roots, st, from, "/roots/" + Itoa(from));
      RootsClean(g, roots, Walk(g, st, roots[from], [], "/roots/" + Itoa(from)), from + 1);
    }
  }

  lemma {:induction false} RootListed(g: Input, roots: seq<Id>, st: State, from: nat, k: nat)
    requires from <= k < |roots| && Inv(g, roots, st, []) && Clean(g, st)
    requires WalkRoots(g, st, roots, from).diags == []
    ensures roots[k] in WalkRoots(g, st, roots, from).order
    decreases |roots| - from
  {
    RootDiags(g, roots, st, from);
    RootClean(g, roots, st, from, "/roots/" + Itoa(from));
    var next := Walk(g, st, roots[from], [], "/roots/" + Itoa(from));
    if k == from {
      RootsClean(g, roots, next, from + 1);
    } else {
      RootListed(g, roots, next, from + 1, k);
    }
  }

  lemma {:induction false} RootsGood(g: Input, roots: seq<Id>, st: State, met: seq<Id>, from: nat)
    requires from <= |roots| && Complete(g, roots) && Inv(g, roots, st, []) && Clean(g, st) && Tracks(g, st, met)
    requires ScopeAfter(g, DiscoverRoots(g, met, roots, from)).Some?
    ensures WalkRoots(g, st, roots, from).diags == []
    decreases |roots| - from
  {
    if from < |roots| {
      var via, met' := "/roots/" + Itoa(from), Discover(g, met, roots[from]);
      RootReachable(g, roots, roots[from]);
      assert [] + [roots[from]] == [roots[from]];
      ScopeAfterPrefix(g, met', DiscoverRoots(g, met', roots, from + 1));
      WalkGood(g, roots, st, met, roots[from], [], via);
      RootClean(g, roots, st, from, via);
      WalkTracks(g, st, met, roots[from], [], via);
      RootsGood(g, roots, Walk(g, st, roots[from], [], via), met', from + 1);
    }
  }

  lemma {:induction false} RootsTrack(g: Input, roots: seq<Id>, st: State, met: seq<Id>, from: nat)
    requires from <= |roots| && Inv(g, roots, st, []) && Tracks(g, st, met) && WalkRoots(g, st, roots, from).diags == []
    ensures Tracks(g, WalkRoots(g, st, roots, from), DiscoverRoots(g, met, roots, from))
    decreases |roots| - from
  {
    if from < |roots| {
      var via := "/roots/" + Itoa(from);
      RootDiags(g, roots, st, from);
      RootReachable(g, roots, roots[from]);
      WalkInv(g, roots, st, roots[from], [], via);
      WalkTracks(g, st, met, roots[from], [], via);
      RootsTrack(g, roots, Walk(g, st, roots[from], [], via), Discover(g, met, roots[from]), from + 1);
    }
  }

  /** Every expansion: the order has no duplicate, only reachable resources, and stays within the budget. */
  lemma {:induction false} ExpandedSafe(g: Input, roots: seq<Id>)
    ensures var r := Expanded(g, roots);
            && Distinct(r.order)
            && (r.order != [] ==> |r.order| <= EffectiveMax(g.max))
            && forall id :: id in r.order ==> id in g.resources && Reachable(g, roots, id)
  {
    RootsInv(g, roots, State(map[], g.scope, [], []), 0);
  }

  /** Without diagnostics the order is exactly the reachable set, each resource after its dependencies. */
  lemma {:induction false} CleanExpansion(g: Input, roots: seq<Id>)
    requires Expanded(g, roots).diags == []
    ensures var r := Expanded(g, roots);
            && Clean(g, r)
            && (forall id :: id in r.order <==> Reachable(g, roots, id))
            && forall i :: 0 <= i < |r.order| ==> DependenciesIn(g, r.order[i], r.order[..i])
  {
    var init := State(map[], g.scope, [], []);
    var r := Expanded(g, roots);
    RootsInv(g, roots, init, 0);
    RootsClean(g, roots, init, 0);
    forall k | 0 <= k < |roots| ensures roots[k] in r.order { RootListed(g, roots, init, 0, k); }
    forall a, b | a in r.order && Edge(g, a, b) ensures b in r.order {
      var i :| 0 <= i < |r.order| && r.order[i] == a;
      assert DependenciesIn(g, r.order[i], r.order[..i]);
    }
    forall id | Reachable(g, roots, id) ensures id in r.order {
      ClosedHoldsReachable(g, roots, r.order, id);
    }
  }

  /** In a dependency-first order every path runs strictly backwards. */
  lemma {:induction false} PathDescends(g: Input, order: seq<Id>, p: seq<Id>, i: nat) returns (j: nat)
    requires Distinct(order) && IsPath(g, p) && |p| > 1
    requires forall k :: 0 <= k < |order| ==> DependenciesIn(g, order[k], order[..k])
    requires i < |order| && order[i] == p[0]
    ensures j < i && order[j] == p[|p| - 1]
    decreases |p|
  {
    assert Edge(g, p[0], p[1]);
    assert DependenciesIn(g, order[i], order[..i]);
    j :| 0 <= j < i && order[j] == p[1];
    if |p| > 2 {
      assert IsPath(g, p[1..]) by {
        forall k | 0 <= k < |p[1..]| - 1
            ensures Edge(g, p[1..][k], p[1..][k + 1]) { assert Edge(g, p[k + 1], p[k + 2]); }
      }
      j := PathDescends(g, order, p[1..], j);
    }
  }

  /** Without diagnostics the discovered ids are the reachable ones, each once. */
  lemma {:induction false} DiscoveredAll(g: Input, roots: seq<Id>)
    requires Expanded(g, roots).diags == []
    ensures Tracks(g, Expanded(g, roots), Discovered(g, roots)) && Distinct(Discovered(g, roots))
    ensures forall id :: id in Discovered(g, roots) <==> Reachable(g, roots, id)
  {
    var init := State(map[], g.scope, [], []);
    var r := Expanded(g, roots);
    assert ToSet<Id>([]) == {};
    RootsTrack(g, roots, init, [], 0);
    RootsInv(g, roots, init, 0);
    CleanExpansion(g, roots);
    forall id ensures id in Discovered(g, roots) <==> Reachable(g, roots, id) {
      assert id in Discovered(g, roots) <==> id in r.seen;
      assert id in r.seen <==> id in r.order;
    }
  }

  lemma {:induction false} CleanComplete(g: Input, roots: seq<Id>)
    requires Expanded(g, roots).diags == []
    ensures Complete(g, roots)
  {
    var r := Expanded(g, roots);
    CleanExpansion(g, roots);
    ExpandedSafe(g, roots);
    assert ReachableSet(g, roots) == ToSet(r.order);
    DistinctSize(r.order);
    forall id | id in r.order ensures Sound(g, id) { var i :| 0 <= i < |r.order| && r.order[i] == id; }
    forall p | IsPath(g, p) && |p| > 1 && Reachable(g, roots, p[0]) ensures p[0] != p[|p| - 1] {
      var i :| 0 <= i < |r.order| && r.order[i] == p[0];
      var j := PathDescends(g, r.order, p, i);
    }
  }

  /** For every input: an expansion reports nothing exactly when the reachable part is expandable. */
  lemma {:induction false} ExpansionIff(g: Input, roots: seq<Id>)
    ensures Expanded(g, roots).diags == [] <==> Expandable(g, roots)
  {
    ScopeAfterIff(g, Discovered(g, roots));
    if Expandable(g, roots) {
      assert ToSet<Id>([]) == {};
      RootsGood(g, roots, State(map[], g.scope, [], []), [], 0);
    }
    if Expanded(g, roots).diags == [] {
      CleanComplete(g, roots);
      DiscoveredAll(g, roots);
    }
  }

  ghost predicate ReachesScope(g: Input, roots: seq<Id>, empty: bool) {
    exists id :: Reachable(g, roots, id) && id in g.resources && (g.resources[id].scope == "" <==> empty)
  }

  /** A list that settles is of one scope unless it mixes none with some, no scope being given. */
  lemma {:induction false} SettlesOneScope(g: Input, roots: seq<Id>)
    requires forall id :: id in Discovered(g, roots) <==> Reachable(g, roots, id)
    requires forall id :: Reachable(g, roots, id) ==> id in g.resources
    ensures Settles(g, Discovered(g, roots)) ==>
              (OneScope(g, roots) <==>
                  !(g.scope == "" && ReachesScope(g, roots, true) && ReachesScope(g, roots, false)))
  {
    var ids := Discovered(g, roots);
    if s :| SettlesOn(g, ids, s) {
      forall a | a in ReachableSet(g, roots) ensures g.resources[a].scope == s
          || (g.scope == "" && g.resources[a].scope == "") {
        var i :| 0 <= i < |ids| && ids[i] == a;
        assert ScopeOf(g, ids[i]) == s || Unscoped(g, ids, i + 1);
      }
    }
  }

  /**
   One scope is what an expansion without diagnostics guarantees, except exactly when no scope was given
   and the reachable resources mix empty scopes with others.
   */
  lemma {:induction false} ScopeEscapesIff(g: Input, roots: seq<Id>)
    requires Expanded(g, roots).diags == []
    ensures !OneScope(g, roots) <==> g.scope == "" && ReachesScope(g, roots, true) && ReachesScope(g, roots, false)
  {
    ExpansionIff(g, roots);
    DiscoveredAll(g, roots);
    SettlesOneScope(g, roots);
  }

  lemma {:induction false} DiscoverSound(g: Input, roots: seq<Id>, met: seq<Id>, id: Id)
    requires Reachable(g, roots, id) && forall x :: x in met ==> Reachable(g, roots, x) && x in g.resources
    ensures forall x :: x in Discover(g, met, id) ==> Reachable(g, roots, x) && x in g.resources
    decreases g.resources.Keys - ToSet(met), 0
  {
    if !(id in met || id !in g.resources || g.resources[id].refs.None?) {
      var refs := g.resources[id].refs.value;
      assert id in g.resources.Keys - ToSet(met) && id !in g.resources.Keys - ToSet(met + [id]);
      assert refs[0..] == refs;
      DiscoverRefsSound(g, roots, met + [id], id, 0);
    }
  }

  lemma {:induction false} DiscoverRefsSound(g: Input, roots: seq<Id>, met: seq<Id>, id: Id, from: nat)
    requires id in g.resources && g.resources[id].refs.Some? && from <= |g.resources[id].refs.value|
    requires Reachable(g, roots, id) && forall x :: x in met ==> Reachable(g, roots, x) && x in g.resources
    ensures forall x :: x in DiscoverRefs(g, met, g.resources[id].refs.value[from..]) ==>
            Reachable(g, roots, x) && x in g.resources
    decreases g.resources.Keys - ToSet(met), 1 + |g.resources[id].refs.value| - from
  {
    var refs := g.resources[id].refs.value;
    if from < |refs| {
      assert refs[from..][1..] == refs[from + 1..];
      assert Edge(g, id, refs[from].target);
      ReachStep(g, roots, id, refs[from].target);
      DiscoverSound(g, roots, met, refs[from].target);
      assert ToSet(met) <= ToSet(Discover(g, met, refs[from].target));
      DiscoverRefsSound(g, roots, Discover(g, met, refs[from].target), id, from + 1);
    }
  }

  lemma {:induction false} DiscoverRootsSound(g: Input, roots: seq<Id>, met: seq<Id>, from: nat)
    requires from <= |roots| && forall x :: x in met ==> Reachable(g, roots, x) && x in g.resources
    ensures forall x :: x in DiscoverRoots(g, met, roots, from) ==> Reachable(g, roots, x) && x in g.resources
    decreases |roots| - from
  {
    if from < |roots| {
      RootReachable(g, roots, roots[from]);
      DiscoverSound(g, roots, met, roots[from]);
      DiscoverRootsSound(g, roots, Discover(g, met, roots[from]), from + 1);
    }
  }

  /** With a scope given, or none empty among the reachable resources, one scope is the whole condition. */
  lemma {:induction false} OneScopeIff(g: Input, roots: seq<Id>)
    requires g.scope != "" || !ReachesScope(g, roots, true)
    ensures Expanded(g, roots).diags == [] <==> Complete(g, roots) && OneScope(g, roots)
  {
    ExpansionIff(g, roots);
    if Expanded(g, roots).diags == [] { ScopeEscapesIff(g, roots); }
    if Complete(g, roots) && OneScope(g, roots) {
      DiscoverRootsSound(g, roots, [], 0);
      OneScopeSettles(g, roots, Discovered(g, roots));
    }
  }

  lemma {:induction false} OneScopeSettles(g: Input, roots: seq<Id>, ids: seq<Id>)
    requires OneScope(g, roots) && forall x :: x in ids ==> Reachable(g, roots, x) && x in g.resources
    ensures Settles(g, ids)
  {
    var s := if g.scope != "" || ids == [] then g.scope else ScopeOf(g, ids[0]);
    forall i | 0 <= i < |ids| ensures ScopeOf(g, ids[i]) == s {
      assert ids[i] in ReachableSet(g, roots) && ids[0] in ReachableSet(g, roots);
    }
    assert SettlesOn(g, ids, s);
  }

  // ---- The closure of the source, updating its captured variables ----

  class Expander {
    const g: Input
    var seen: map<Id, Mark>
    var scope: string
    var order: seq<Id>
    var resources: seq<Resource>
    var diagnostics: seq<Diagnostic>

    ghost function Abs(): State
      reads this
    {
      State(seen, scope, order, diagnostics)
    }

    /** The returned resources are those named by the order, position by position. */
    ghost predicate Parallel()
      reads this
    {
      && |resources| == |order|
      && forall i :: 0 <= i < |order| ==> order[i] in g.resources && resources[i] == g.resources[order[i]]
    }

    constructor (g: Input)
      ensures this.g == g && Abs() == State(map[], g.scope, [], []) && Parallel()
    {
      this.g := g;
      seen, scope, order, resources, diagnostics := map[], g.scope, [], [], [];
    }

    method Note(code: Code, id: Id, via: string)
      modifies this`diagnostics
      ensures Abs() == Report(old(Abs()), code, id, via)
    {
      diagnostics := diagnostics + [Diagnostic(code, id, via)];
    }

    /** walk: the recursive closure computes exactly the specified state change. */
    method Visit(id: Id, path: seq<Id>, via: string)
      requires Parallel()
      modifies this
      ensures Parallel() && Abs() == Walk(g, old(Abs()), id, path, via)
      decreases g.resources.Keys - seen.Keys, 0
    {
      if id in g.exclude { Note(DependencyExcluded, id, via); return; }
      if id in seen && seen[id].Visiting? { Note(DependencyCycle, id, via); return; }
      if id in seen { return; }
      if id !in g.resources { Note(ReferenceMissing, id, via); return; }
      var resource := g.resources[id];
      if scope == "" { scope := resource.scope; }
      if resource.scope != scope { Note(ScopeMismatch, id, via); return; }
      if !resource.enabled { Note(ResourceDisabled, id, via); return; }
      if |order| + |path| >= EffectiveMax(g.max) { Note(LimitExceeded, id, via); return; }
      if resource.refs.None? {
        Note(RefsFailed, id, via);
        seen := seen[id := Done];
        return;
      }
      assert id in g.resources.Keys - old(seen.Keys);
      seen := seen[id := Visiting];
      VisitRefs(resource.refs.value, path + [id]);
      seen := seen[id := Done];
      order := order + [id];
      resources := resources + [resource];
    }

    /** The reference loop of the closure. */
    method VisitRefs(refs: seq<Reference>, path: seq<Id>)
      requires Parallel()
      modifies this
      ensures Parallel() && Abs() == WalkRefs(g, old(Abs()), refs, path)
      decreases g.resources.Keys - seen.Keys, 1 + |refs|
    {
      var k := 0;
      while k < |refs|
        invariant 0 <= k <= |refs| && Parallel() && old(seen.Keys) <= seen.Keys
        invariant WalkRefs(g, Abs(), refs[k..], path) == WalkRefs(g, old(Abs()), refs, path)
      {
        var ref := refs[k];
        assert refs[k..][1..] == refs[k + 1..];
        if ref.target in g.resources && g.resources[ref.target].kind != ref.expected {
          Note(ReferenceKind, ref.target, ref.path);
        } else {
          Visit(ref.target, path, ref.path);
        }
        k := k + 1;
      }
    }
  }

  /** Expand: visits the roots in order and returns what the specification says. */
  method Expand(g: Input, roots: seq<Id>)
    returns (order: seq<Id>, resources: seq<Resource>, diagnostics: seq<Diagnostic>)
    ensures order == Expanded(g, roots).order && diagnostics == Expanded(g, roots).diags
    ensures |resources| == |order|
    ensures forall i :: 0 <= i < |order| ==> order[i] in g.resources && resources[i] == g.resources[order[i]]
  {
    var e := new Expander(g);
    var i := 0;
    while i < |roots|
      invariant 0 <= i <= |roots| && e.g == g && e.Parallel()
      invariant WalkRoots(g, e.Abs(), roots, i) == Expanded(g, roots)
    {
      e.Visit(roots[i], [], "/roots/" + Itoa(i));
      i := i + 1;
    }
    return e.order, e.resources, e.diagnostics;
  }

  /** With an empty scope identifier in the store, resources of two scopes expand without a report. */
  lemma {:induction false} EmptyScopeEscapes() returns (g: Input, roots: seq<Id>)
    ensures Expanded(g, roots).diags == [] && !OneScope(g, roots)
  {
    var a := Resource("node", "", true, Some([]));
    var b := Resource("node", "s", true, Some([]));
    g, roots := Input(map["a" := a, "b" := b], {}, 0, ""), ["a", "b"];
    assert g.resources["a"].scope == "";
    RootReachable(g, roots, "a");
    RootReachable(g, roots, "b");
    var init := State(map[], "", [], []);
    assert Walk(g, init, "a", [], "/roots/" + Itoa(0)) == State(map["a" := Done], "", ["a"], []) by {
      LeafWalk(g, init, "a", "/roots/" + Itoa(0));
    }
    var s1 := State(map["a" := Done], "", ["a"], []);
    LeafWalk(g, s1, "b", "/roots/" + Itoa(1));
    var s2 := Walk(g, s1, "b", [], "/roots/" + Itoa(1));
    assert WalkRoots(g, init, roots, 0) == WalkRoots(g, s1, roots, 1) == WalkRoots(g, s2, roots, 2) == s2;
    assert "a" in ReachableSet(g, roots) && "b" in ReachableSet(g, roots);
  }

  lemma {:induction false} LeafWalk(g: Input, st: State, id: Id, via: string)
    requires Enters(g, st, id, []) && g.resources[id].refs == Some([])
    ensures Walk(g, st, id, [], via) ==
            State(st.seen[id := Done], if st.scope == "" then g.resources[id].scope else st.scope, st.order + [id],
                  st.diags)
  {
    var entered := Entered(g, st, id);
    assert WalkRefs(g, entered, [], [] + [id]) == entered;
    assert entered.seen[id := Done] == st.seen[id := Done];
  }
}
