/**
 The outbound list an adapter prints (internal/adapter/emit.go): ExitTag, OutboundRefs and
 OrderedOutboundRefs, and that none of their failure branches can fire on a prepared graph.
 */
module Emit {
  import opened Prelude
  import opened IR
  import opened Snapshot
  import opened Labels
  import opened Names
  import opened Collect
  import opened Graph
  import opened Policies
  import opened Tags
  import opened Assembly
  import opened Prepare

  datatype RefKind = Independent | FirstHop | SecondHop

  datatype OutboundRef = OutboundRef(tag: string, kind: RefKind, resource: Resource, dialerTag: string,
                                     fieldPath: string)

  datatype EmitError = NoMembers | LimitExceeded | TagCollision(fieldPath: string)

  function RefTag(r: OutboundRef): string { r.tag }

  function NodeRef(o: Outs, i: nat): OutboundRef
    requires i < |o.independents|
  {
    OutboundRef(o.independents[i].tag, Independent, o.independents[i].resource, "", "/independents/" + Itoa(i))
  }

  function FirstRef(o: Outs, i: nat): OutboundRef
    requires i < |o.chains|
  {
    OutboundRef(o.chains[i].tagH1, FirstHop, o.chains[i].hop1, "", "/chains/" + Itoa(i) + "/h1")
  }

  /** The second hop dials through the first. */
  function SecondRef(o: Outs, i: nat): OutboundRef
    requires i < |o.chains|
  {
    OutboundRef(o.chains[i].tagH2, SecondHop, o.chains[i].hop2, o.chains[i].tagH1, "/chains/" + Itoa(i) + "/h2")
  }

  /** refs lists every independent outbound and then both hops of every chain. */
  ghost predicate Lists(o: Outs, refs: seq<OutboundRef>) {
    && |refs| == |o.independents| + 2 * |o.chains|
    && (forall i :: 0 <= i < |o.independents| ==> refs[i] == NodeRef(o, i))
    && forall i :: 0 <= i < |o.chains| ==>
         refs[|o.independents| + 2 * i] == FirstRef(o, i) && refs[|o.independents| + 2 * i + 1] == SecondRef(o, i)
  }

  ghost predicate RefsOK(refs: seq<OutboundRef>) {
    && (forall k :: 0 <= k < |refs| ==> Usable(refs[k].tag))
    && forall j, k :: 0 <= j < k < |refs| ==> refs[j].tag != refs[k].tag
  }

  method ListRefs(o: Outs) returns (refs: seq<OutboundRef>)
    ensures Lists(o, refs)
  {
    refs := [];
    for i := 0 to |o.independents|
      invariant |refs| == i && forall k :: 0 <= k < i ==> refs[k] == NodeRef(o, k)
    {
      refs := refs + [NodeRef(o, i)];
    }
    var nodes, hops := refs, [];
    for i := 0 to |o.chains|
      invariant refs == nodes + hops && HopsListed(o, hops, i)
    {
      HopsNext(o, hops, i);
      hops := hops + [FirstRef(o, i), SecondRef(o, i)];
      refs := refs + [FirstRef(o, i), SecondRef(o, i)];
    }
    assert forall k :: 0 <= k < |o.chains| ==>
        refs[|nodes| + 2 * k] == hops[2 * k] && refs[|nodes| + 2 * k + 1] == hops[2 * k + 1];
  }

  /** Both hops of the first i chains. */
  ghost predicate HopsListed(o: Outs, hops: seq<OutboundRef>, i: nat) {
    && i <= |o.chains| && |hops| == 2 * i
    && forall k :: 0 <= k < i ==> hops[2 * k] == FirstRef(o, k) && hops[2 * k + 1] == SecondRef(o, k)
  }

  lemma {:induction false} HopsNext(o: Outs, hops: seq<OutboundRef>, i: nat)
    requires HopsListed(o, hops, i) && i < |o.chains|
    ensures HopsListed(o, hops + [FirstRef(o, i), SecondRef(o, i)], i + 1)
  {
  }

  ghost function SeenTags(refs: seq<OutboundRef>, i: nat): set<string>
    requires i <= |refs|
  {
    set k | 0 <= k < i :: refs[k].tag
  }

  ghost predicate RefsUpTo(refs: seq<OutboundRef>, i: nat)
    requires i <= |refs|
  {
    && (forall k :: 0 <= k < i ==> Usable(refs[k].tag))
    && forall j, k :: 0 <= j < k < i ==> refs[j].tag != refs[k].tag
  }

  lemma {:induction false} RefsNext(refs: seq<OutboundRef>, i: nat)
    requires i < |refs|
    ensures SeenTags(refs, i + 1) == SeenTags(refs, i) + {refs[i].tag}
    ensures RefsUpTo(refs, i + 1) <==> RefsUpTo(refs, i) && Usable(refs[i].tag) && refs[i].tag !in SeenTags(refs, i)
    ensures RefsOK(refs) ==> RefsUpTo(refs, i + 1)
  {
  }

  /** Which outbound a position of the list shows. */
  lemma {:induction false} RefAt(o: Outs, refs: seq<OutboundRef>, k: nat)
    requires Lists(o, refs) && k < |refs|
    ensures k < |o.independents| ==> refs[k] == NodeRef(o, k)
    ensures k >= |o.independents| ==>
              var j := (k - |o.independents|) / 2;
              && j < |o.chains|
              && (k == |o.independents| + 2 * j ==> refs[k] == FirstRef(o, j))
              && (k != |o.independents| + 2 * j ==> k == |o.independents| + 2 * j + 1 && refs[k] == SecondRef(o, j))
  {
  }

  lemma {:induction false} ListsUnique(o: Outs, a: seq<OutboundRef>, b: seq<OutboundRef>)
    requires Lists(o, a) && Lists(o, b)
    ensures a == b
  {
    forall k | 0 <= k < |a| ensures a[k] == b[k] {
      RefAt(o, a, k);
      RefAt(o, b, k);
    }
  }

  /** OutboundRefs: refused exactly over the limit or when a tag is empty, reserved or used twice. */
  method OutboundRefs(o: Outs) returns (r: Result<seq<OutboundRef>, EmitError>)
    ensures r.Ok? <==> Size(o) <= MAX_OUTBOUNDS && forall refs :: Lists(o, refs) ==> RefsOK(refs)
    ensures r.Ok? ==> Lists(o, r.value) && RefsOK(r.value)
  {
    if |o.independents| + 2 * |o.chains| > MAX_OUTBOUNDS { return Err(LimitExceeded); }
    var refs := ListRefs(o);
    var seen: set<string> := {};
    var i := 0;
    while i < |refs|
      invariant 0 <= i <= |refs| && seen == SeenTags(refs, i) && RefsUpTo(refs, i)
    {
      RefsNext(refs, i);
      if refs[i].tag == "" || IsReservedTag(refs[i].tag) { return Err(TagCollision(refs[i].fieldPath)); }
      if refs[i].tag in seen { return Err(TagCollision(refs[i].fieldPath)); }
      seen := seen + {refs[i].tag};
      i := i + 1;
    }
    forall other | Lists(o, other) ensures RefsOK(other) { ListsUnique(o, refs, other); }
    return Ok(refs);
  }

  lemma {:induction false} RefsDiffer(o: Outs, refs: seq<OutboundRef>, j: nat, k: nat)
    requires Lists(o, refs) && DistinctOuts(o) && j < k < |refs|
    ensures refs[j].tag != refs[k].tag
  {
    RefAt(o, refs, j);
    RefAt(o, refs, k);
  }

  /** On distinct usable tags the list never collides. */
  lemma {:induction false} ListedOK(o: Outs, ps: seq<PolicyInstance>, refs: seq<OutboundRef>)
    requires TagsOK(o, ps) && Lists(o, refs)
    ensures RefsOK(refs)
  {
    forall k | 0 <= k < |refs| ensures Usable(refs[k].tag) {
      RefAt(o, refs, k);
      if k < |o.independents| {
        assert o.independents[k] in o.independents;
      } else {
        assert o.chains[(k - |o.independents|) / 2] in o.chains;
      }
    }
    forall j, k | 0 <= j < k < |refs| ensures refs[j].tag != refs[k].tag { RefsDiffer(o, refs, j, k); }
  }

  // ---- The exit, and the order in which outbounds are printed ----

  /** ExitTag: the final tag, else the first policy, chain or node; refused only when there is none. */
  function ExitTag(g: CompiledGraph): Result<string, EmitError> {
    if g.finalTag != "" then Ok(g.finalTag)
    else if |g.policies| > 0 then Ok(g.policies[0].tag)
    else if |g.outs.chains| > 0 then Ok(g.outs.chains[0].tagH2)
    else if |g.outs.independents| > 0 then Ok(g.outs.independents[0].tag)
    else Err(NoMembers)
  }

  function Others(refs: seq<OutboundRef>, exit: string): seq<OutboundRef> {
    if refs == [] then []
    else Others(refs[..|refs| - 1], exit) + if refs[|refs| - 1].tag == exit then [] else [refs[|refs| - 1]]
  }

  /** The exit first when it is an outbound, then the others by tag. */
  ghost predicate Ordered(refs: seq<OutboundRef>, exit: string, out: seq<OutboundRef>) {
    && multiset(out) == multiset(refs)
    && exists rest: seq<OutboundRef> :: SortedBy(rest, RefTag) && (forall x :: x in rest ==> x.tag != exit)
                      && (out == rest || (out != [] && out[0].tag == exit && out == [out[0]] + rest))
  }

  lemma {:induction false} OthersAre(refs: seq<OutboundRef>, exit: string)
    ensures forall x :: x in Others(refs, exit) ==> x.tag != exit
  {
    if refs != [] { OthersAre(refs[..|refs| - 1], exit); }
  }

  lemma {:induction false} OthersAll(refs: seq<OutboundRef>, exit: string)
    requires forall k :: 0 <= k < |refs| ==> refs[k].tag != exit
    ensures Others(refs, exit) == refs
  {
    if refs != [] {
      OthersAll(refs[..|refs| - 1], exit);
      assert refs == refs[..|refs| - 1] + [refs[|refs| - 1]];
    }
  }

  lemma {:induction false} OneTaken(refs: seq<OutboundRef>, k: nat)
    requires k < |refs| && forall i, j :: 0 <= i < j < |refs| ==> refs[i].tag != refs[j].tag
    ensures multiset([refs[k]] + Others(refs, refs[k].tag)) == multiset(refs)
  {
    var last := |refs| - 1;
    var front := refs[..last];
    assert refs == front + [refs[last]];
    if k == last {
      OthersAll(front, refs[k].tag);
    } else {
      OneTaken(front, k);
    }
  }

  lemma {:induction false} OrderedFound(refs: seq<OutboundRef>, k: nat, exit: string, out: seq<OutboundRef>)
    requires RefsOK(refs) && k < |refs| && refs[k].tag == exit && out == [refs[k]] + SortBy(Others(refs, exit), RefTag)
    ensures Ordered(refs, exit, out)
  {
    var rest := SortBy(Others(refs, exit), RefTag);
    OneTaken(refs, k);
    SortBySorted(Others(refs, exit), RefTag);
    OthersAre(refs, exit);
    SameElements(rest, Others(refs, exit));
    assert multiset(out) == multiset{refs[k]} + multiset(rest);
    assert multiset([refs[k]] + Others(refs, exit)) == multiset{refs[k]} + multiset(Others(refs, exit));
    assert out == [out[0]] + rest;
  }

  lemma {:induction false} OrderedMissing(refs: seq<OutboundRef>, exit: string, out: seq<OutboundRef>)
    requires (forall k :: 0 <= k < |refs| ==> refs[k].tag != exit) && out == SortBy(Others(refs, exit), RefTag)
    ensures Ordered(refs, exit, out)
  {
    SortBySorted(Others(refs, exit), RefTag);
    OthersAll(refs, exit);
    OthersAre(refs, exit);
    SameElements(out, Others(refs, exit));
  }

  method SplitExit(refs: seq<OutboundRef>, exit: string) returns (found: Option<nat>, rest: seq<OutboundRef>)
    ensures rest == Others(refs, exit)
    ensures found.Some? ==> found.value < |refs| && refs[found.value].tag == exit
    ensures found.None? ==> forall k :: 0 <= k < |refs| ==> refs[k].tag != exit
  {
    found, rest := None, [];
    var i := 0;
    while i < |refs|
      invariant 0 <= i <= |refs| && rest == Others(refs[..i], exit)
      invariant found.Some? ==> found.value < i && refs[found.value].tag == exit
      invariant found.None? ==> forall k :: 0 <= k < i ==> refs[k].tag != exit
    {
      assert refs[..i + 1][..i] == refs[..i];
      if refs[i].tag == exit {
        found := Some(i);
        assert rest + [] == rest;
      } else {
        rest := rest + [refs[i]];
      }
      i := i + 1;
    }
    assert refs[..|refs|] == refs;
  }

  /** OrderedOutboundRefs: every listed outbound once, the exit in front when it is one of them. */
  method OrderedOutboundRefs(g: CompiledGraph) returns (r: Result<(string, seq<OutboundRef>), EmitError>)
    ensures r.Ok? ==> ExitTag(g) == Ok(r.value.0) && exists refs ::
            Lists(g.outs, refs) && Ordered(refs, r.value.0, r.value.1)
    ensures ExitTag(g).Ok? && Size(g.outs) <= MAX_OUTBOUNDS && TagsOK(g.outs, g.policies) ==> r.Ok?
  {
    var exit := ExitTag(g);
    if exit.Err? { return Err(exit.error); }
    var refs := OutboundRefs(g.outs);
    forall other | TagsOK(g.outs, g.policies) && Lists(g.outs, other)
        ensures RefsOK(other) { ListedOK(g.outs, g.policies, other); }
    if refs.Err? { return Err(refs.error); }
    var found, rest := SplitExit(refs.value, exit.value);
    if g.finalTag == "" && |g.policies| == 0 { ExitListed(g, refs.value); }
    var out := SortBy(rest, RefTag);
    if found.None? {
      OrderedMissing(refs.value, exit.value, out);
    } else {
      out := [refs.value[found.value]] + out;
      OrderedFound(refs.value, found.value, exit.value, out);
    }
    r := if found.None? && exit.value != g.finalTag && |g.policies| == 0 then Err(NoMembers) else Ok((exit.value, out));
  }

  /** An exit taken from the chains or nodes is always listed. */
  lemma {:induction false} ExitListed(g: CompiledGraph, refs: seq<OutboundRef>)
    requires Lists(g.outs, refs) && g.finalTag == "" && |g.policies| == 0 && ExitTag(g).Ok?
    ensures exists k :: 0 <= k < |refs| && refs[k].tag == ExitTag(g).value
  {
    if |g.outs.chains| > 0 {
      assert refs[|g.outs.independents| + 2 * 0 + 1] == SecondRef(g.outs, 0);
    } else {
      assert refs[0] == NodeRef(g.outs, 0);
    }
  }

  /** A tag the graph defines, or one of the two builtins. */
  ghost predicate Known(g: CompiledGraph, t: string) {
    || t == "direct" || t == "block"
    || (exists x :: x in g.outs.independents && x.tag == t)
    || (exists x :: x in g.outs.chains && x.tagH2 == t)
    || exists p :: p in g.policies && p.tag == t
  }

  lemma {:induction false} StandsKnown(m: Store, g: CompiledGraph, id: Id, t: string)
    requires StandsFor(m, g.outs, g.policies, id, t)
    ensures Known(g, t)
  {
    if m[id].payload.Node? {
      assert IndependentOutbound(t, m[id]) in g.outs.independents;
    } else if m[id].payload.Chain? {
      var t1 :| ChainOf(m, m[id], t1, t) in g.outs.chains;
    } else {
      var p :| p in g.policies && p.resourceId == id && p.tag == t;
    }
  }

  lemma {:induction false} DenotesKnown(m: Store, g: CompiledGraph, ref: TargetRef, t: string)
    requires Denotes(m, g.outs, g.policies, ref, t) && TagsOK(g.outs, g.policies)
    ensures Known(g, t) && t != ""
  {
    if ref.ResourceRef? {
      StandsKnown(m, g, ref.id, t);
      StandsUsable(m, g.outs, g.policies, ref.id, t);
    }
  }

  lemma {:induction false} FinalKnown(spec: Spec, target: Target, m: Store, g: CompiledGraph, tags: map<Id, string>)
    requires GraphOK(spec, target, m, g, tags) && spec.routingProfile.Some?
    ensures g.finalTag != "" && Known(g, g.finalTag)
  {
    var p := m[g.routing.value.resourceId].payload.routing;
    assert RoutingOK(m, g.outs, g.policies, tags, p, g.finalTag, g.routing.value.rules);
    DenotesKnown(m, g, p.final, g.finalTag);
  }

  /** A prepared graph always has an exit, and the exit is a builtin or defined by the graph. */
  lemma {:induction false} PreparedExit(spec: Spec, target: Target, m: Store, g: CompiledGraph, tags: map<Id, string>)
    requires GraphOK(spec, target, m, g, tags) && tags != map[]
    ensures ExitTag(g).Ok? && Known(g, ExitTag(g).value)
  {
    if spec.routingProfile.Some? {
      FinalKnown(spec, target, m, g, tags);
    } else {
      var id :| id in tags;
      StandsKnown(m, g, id, tags[id]);
      if |g.policies| > 0 {
        assert g.policies[0] in g.policies;
      } else if |g.outs.chains| > 0 {
        assert g.outs.chains[0] in g.outs.chains;
      } else if |g.outs.independents| > 0 {
        assert g.outs.independents[0] in g.outs.independents;
      } else {
        NotBuiltin(m, g, id, tags[id]);
      }
    }
  }

  lemma {:induction false} NotBuiltin(m: Store, g: CompiledGraph, id: Id, t: string)
    requires StandsFor(m, g.outs, g.policies, id, t)
    ensures |g.policies| > 0 || |g.outs.chains| > 0 || |g.outs.independents| > 0
  {
    if m[id].payload.Node? {
      assert IndependentOutbound(t, m[id]) in g.outs.independents;
    } else if m[id].payload.Chain? {
      var t1 :| ChainOf(m, m[id], t1, t) in g.outs.chains;
    } else {
      var p :| p in g.policies && p.resourceId == id && p.tag == t;
    }
  }

  /** A snapshot has members, so something is offered. */
  lemma {:induction false} SomethingOffered(schema: Schema, spec: Spec, ids: set<Id>)
    requires FrozenShape(schema, spec) && ToSet(Map(MemberId, spec.members)) <= ids
    ensures ids != {}
  {
    assert Map(MemberId, spec.members)[0] in ToSet(Map(MemberId, spec.members));
  }

  /**
   Printing a prepared graph cannot fail: neither check of OutboundRefs and no exit check fires. The graph is the
   one Prepare gives, and the list starts from its own exit.
   */
  method EmitPrepared(schema: Schema, env: Environment, spec: Spec, target: Target)
    returns (r: Result<(string, seq<OutboundRef>), PrepareError>, g: CompiledGraph, ghost tags: map<Id, string>)
    requires HexDigest(env.digest)
    ensures r.Ok? <==> Preparable(schema, env, spec, target)
    ensures r.Err? ==> PrepareRefused(schema, env, spec, target, r.error)
    ensures r.Ok? ==> GraphOK(spec, target, Merged(StoreOf(spec.resources), target), g, tags)
    ensures r.Ok? ==>
              && ExitTag(g) == Ok(r.value.0) && Known(g, r.value.0)
              && exists refs :: Lists(g.outs, refs) && RefsOK(refs) && Ordered(refs, r.value.0, r.value.1)
  {
    g := CompiledGraph(Outs([], []), [], "", None, None, None);
    var prepared, known := Prepare.Prepare(schema, env, spec, target);
    tags := known;
    if prepared.Err? { return Err(prepared.error), g, tags; }
    g := prepared.value;
    ghost var m := Merged(StoreOf(spec.resources), target);
    SomethingOffered(schema, spec, tags.Keys);
    PreparedExit(spec, target, m, g, tags);
    var ordered := OrderedOutboundRefs(g);
    ghost var refs :| Lists(g.outs, refs) && Ordered(refs, ordered.value.0, ordered.value.1);
    ListedOK(g.outs, g.policies, refs);
    r := Ok(ordered.value);
  }
}
