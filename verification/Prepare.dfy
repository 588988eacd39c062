/**
 Compiler.Prepare (internal/compiler/prepare.go and orchestration.go): from a frozen snapshot and
 one of its targets to the graph an adapter prints.
 */
module Prepare {
  import opened Prelude
  import opened IR
  import opened Snapshot
  import opened Labels
  import opened Names
  import opened Collect
  import opened Graph
  import opened Policies
  import opened Routing
  import opened Tags
  import opened Assembly

  const MAX_OUTBOUNDS := 2000

  /** What the compiler is built over: the capability catalogue's verdict on a target, and the digest. */
  datatype Environment = Environment(catalog: Target -> bool, digest: Digest)

  datatype RoutingInput = RoutingInput(resourceId: Id, rules: seq<RouteRule>)

  datatype DNSInput = DNSInput(resourceId: Id, outboundTags: map<string, string>, rules: seq<RouteRule>)

  datatype CompiledGraph = CompiledGraph(
    outs: Outs, policies: seq<PolicyInstance>, finalTag: string,
    routing: Option<RoutingInput>, dns: Option<DNSInput>, preset: Option<Payload>)

  datatype PrepareError =
    | InvalidSnapshot(issues: seq<Issue>) | TargetMismatch | FormatMismatch | CatalogRefused | Unmerged
    | NotOutbound | Collision | TooManyOutbounds | Unavailable(issue: PolicyIssue)
    | Rules(error: CompileError) | UnmappedResolver | PresetMissing

  function ExpectedFormat(family: CoreFamily): OutputFormat {
    match family
    case Xray => XrayJSON
    case SingBox => SingBoxJSON
    case Mihomo => MihomoYAML
  }

  // ---- References to tags ----

  /** resolve: a builtin, or the exit tag of a resource. */
  function Resolve(tags: map<Id, string>, ref: TargetRef): string {
    match ref
    case DirectRef => "direct"
    case RejectRef => "block"
    case ResourceRef(_, id) => if id in tags then tags[id] else ""
  }

  ghost predicate RefKnown(tags: map<Id, string>, ref: TargetRef) { ref.ResourceRef? ==> ref.id in tags }

  lemma {:induction false} ResolveDenotes(m: Store, c: Collected, o: Outs, ps: seq<PolicyInstance>,
                                          tags: map<Id, string>, ref: TargetRef)
    requires Assembled(m, c, o, ps, tags) && RefKnown(tags, ref)
    ensures Denotes(m, o, ps, ref, Resolve(tags, ref))
  {
  }

  /** Only the builtin resolves to direct: no resource can carry that tag. */
  lemma {:induction false} DirectOnly(m: Store, c: Collected, o: Outs, ps: seq<PolicyInstance>, tags: map<Id, string>,
                                      ref: TargetRef)
    requires Assembled(m, c, o, ps, tags) && RefKnown(tags, ref)
    ensures Resolve(tags, ref) == "direct" <==> ref.DirectRef?
  {
    DirectReserved();
    if ref.ResourceRef? {
      assert StandsFor(m, o, ps, ref.id, tags[ref.id]);
      StandsUsable(m, o, ps, ref.id, tags[ref.id]);
    }
  }

  lemma {:induction false} StandsUsable(m: Store, o: Outs, ps: seq<PolicyInstance>, id: Id, t: string)
    requires TagsOK(o, ps) && StandsFor(m, o, ps, id, t)
    ensures Usable(t)
  {
    if m[id].payload.Node? {
      assert IndependentOutbound(t, m[id]) in o.independents;
    } else if m[id].payload.Chain? {
      var t1 :| ChainOf(m, m[id], t1, t) in o.chains;
    } else {
      var p :| p in ps && p.resourceId == id && p.tag == t;
    }
  }

  // ---- Routing ----

  function SourceRules(rules: seq<RoutingRule>, tags: map<Id, string>): (out: seq<SourceRule>)
    ensures |out| == |rules|
    ensures forall i :: 0 <= i < |rules| ==>
            out[i] == SourceRule(rules[i].match_, Resolve(tags, rules[i].action), rules[i].enabled)
  {
    seq(|rules|, i requires 0 <= i < |rules| =>
        SourceRule(rules[i].match_, Resolve(tags, rules[i].action), rules[i].enabled))
  }

  function DNSSourceRules(rules: seq<DNSRule>): (out: seq<SourceRule>)
    ensures |out| == |rules|
    ensures forall i :: 0 <= i < |rules| ==>
              out[i] ==
              SourceRule(RouteMatch(rules[i].domainExact, rules[i].domainSuffix, rules[i].ruleSetIds, [], [], []),
                         rules[i].resolverId, rules[i].enabled)
  {
    seq(|rules|, i requires 0 <= i < |rules| =>
      SourceRule(RouteMatch(rules[i].domainExact, rules[i].domainSuffix, rules[i].ruleSetIds, [], [], []),
                 rules[i].resolverId, rules[i].enabled))
  }

  /** The rule limit does not depend on the tags. */
  lemma {:induction false} SameWeight(xs: seq<SourceRule>, ys: seq<SourceRule>, m: Store)
    requires |xs| == |ys| && forall i :: 0 <= i < |xs| ==>
            xs[i].match_ == ys[i].match_ && xs[i].enabled == ys[i].enabled
    ensures TotalWeight(xs, m) == TotalWeight(ys, m)
  {
    if xs != [] { SameWeight(xs[1..], ys[1..], m); }
  }

  function RoutingWeight(rules: seq<RoutingRule>, m: Store): nat { TotalWeight(SourceRules(rules, map[]), m) }

  function DNSWeight(rules: seq<DNSRule>, m: Store): nat { TotalWeight(DNSSourceRules(rules), m) }

  /**
   The compiled routing: every reference denotes something the graph defines, and for every packet
   first match over the compiled rules is the source reading of the profile.
   */
  ghost predicate RoutingOK(m: Store, o: Outs, ps: seq<PolicyInstance>, tags: map<Id, string>, profile: RoutingProfile,
                            finalTag: string, rules: seq<RouteRule>) {
    && Denotes(m, o, ps, profile.final, finalTag)
    && (forall i :: 0 <= i < |profile.rules| ==>
        Denotes(m, o, ps, profile.rules[i].action, Resolve(tags, profile.rules[i].action)))
    && CompiledFrom(rules, SourceRules(profile.rules, tags), m)
    && forall p :: FirstMatch(rules, finalTag, p) == Decide(SourceRules(profile.rules, tags), m, finalTag, p)
  }

  ghost predicate DNSOK(m: Store, o: Outs, ps: seq<PolicyInstance>, profile: DNSProfile,
                        outboundTags: map<string, string>, rules: seq<RouteRule>) {
    && (forall r :: r in profile.resolvers && r.outbound.Some? ==>
          && r.id in outboundTags && Denotes(m, o, ps, r.outbound.value, outboundTags[r.id])
          && (r.kind.UDPResolver? ==> outboundTags[r.id] == "direct"))
    && (forall id :: id in outboundTags ==> exists r :: r in profile.resolvers && r.outbound.Some? && r.id == id)
    && CompiledFrom(rules, DNSSourceRules(profile.rules), m)
    && forall p :: FirstMatch(rules, profile.finalResolver, p) ==
                   Decide(DNSSourceRules(profile.rules), m, profile.finalResolver, p)
  }

  lemma {:induction false} RuleSetsThere(m: Store, id: Id, links: seq<Link>, ids: seq<Id>)
    requires Linked(m) && id in m && (forall l :: l in links ==> Resolved(m, l)) && forall l ::
            l in RuleSetLinks(ids) ==> l in links
    ensures forall s :: s in ids ==> s in m && m[s].payload.RuleSet?
  {
    forall s | s in ids ensures s in m && m[s].payload.RuleSet? {
      var k :| 0 <= k < |ids| && ids[k] == s;
      assert RuleSetLinks(ids)[k] == Link(s, RuleSetKind) && Link(s, RuleSetKind) in RuleSetLinks(ids);
      assert Resolved(m, Link(s, RuleSetKind)) && LinkedAt(m, s);
    }
  }

  /** In a linked store no routing rule fails to compile. */
  lemma {:induction false} RoutingCompilable(m: Store, id: Id, tags: map<Id, string>)
    requires Linked(m) && id in m && m[id].payload.Routing?
    ensures AllCompilable(SourceRules(m[id].payload.routing.rules, tags), m, false)
  {
    var p := m[id].payload.routing;
    var src := SourceRules(p.rules, tags);
    assert LinkedAt(m, id);
    forall i | 0 <= i < |src| && src[i].enabled ensures Compilable(src[i].match_, m, false) {
      RoutingRuleLinked(p.rules, i);
      RuleSetsThere(m, id, Links(m[id].payload), p.rules[i].match_.ruleSetIds);
    }
  }

  ghost predicate DomainRules(m: Store, p: DNSProfile) {
    forall i, s :: 0 <= i < |p.rules| && s in p.rules[i].ruleSetIds ==> DomainOnly(m, s)
  }

  lemma {:induction false} DNSCompilable(m: Store, id: Id)
    requires Linked(m) && id in m && m[id].payload.DNS? && DomainRules(m, m[id].payload.dns)
    ensures AllCompilable(DNSSourceRules(m[id].payload.dns.rules), m, true)
  {
    var p := m[id].payload.dns;
    var src := DNSSourceRules(p.rules);
    assert LinkedAt(m, id);
    forall i | 0 <= i < |src| && src[i].enabled ensures Compilable(src[i].match_, m, true) {
      DNSRuleLinked(p.rules, i);
      RuleSetsThere(m, id, Links(m[id].payload), p.rules[i].ruleSetIds);
      forall s | s in p.rules[i].ruleSetIds ensures RuleSetUsable(m, s, true) { assert DomainOnly(m, s); }
    }
  }

  // ---- The snapshot's profiles ----

  /** What an accepted snapshot guarantees about its merged store. */
  ghost predicate Ready(spec: Spec, m: Store) {
    && Linked(m) && AllOutbound(m, Map(MemberId, spec.members))
    && (forall id :: id in m ==> exists r :: r in spec.resources && r.meta.id == id)
    && (spec.routingProfile.Some? ==> var id := spec.routingProfile.value.id; id in m && m[id].payload.Routing?)
    && (spec.dnsProfile.Some? ==>
        var id := spec.dnsProfile.value.id; id in m && m[id].payload.DNS? && DomainRules(m, m[id].payload.dns))
  }

  predicate Controlled(m: Store, target: Target) {
    target.presetId in m && m[target.presetId].payload.ClientPreset? && m[target.presetId].payload.controlEnabled
  }

  function RulesWeight(spec: Spec, m: Store): nat {
    (if spec.routingProfile.Some? && spec.routingProfile.value.id in m
        && m[spec.routingProfile.value.id].payload.Routing?
     then RoutingWeight(m[spec.routingProfile.value.id].payload.routing.rules, m) else 0)
    + if spec.dnsProfile.Some? && spec.dnsProfile.value.id in m && m[spec.dnsProfile.value.id].payload.DNS?
      then DNSWeight(m[spec.dnsProfile.value.id].payload.dns.rules, m) else 0
  }

  /** A UDP resolver may only go out directly. */
  predicate ResolversDirect(resolvers: seq<Resolver>) {
    forall r :: r in resolvers && r.outbound.Some? && r.kind.UDPResolver? ==> r.outbound.value.DirectRef?
  }

  predicate PresetComplete(spec: Spec, target: Target, m: Store, groups: nat) {
    if target.presetId in m then PresetAgrees(m, target) && spec.dnsProfile.Some? && spec.routingProfile.Some?
    else spec.dnsProfile.None? && spec.routingProfile.None? && groups == 0
  }

  predicate ProfilesFit(spec: Spec, target: Target, m: Store, groups: nat) {
    && RulesWeight(spec, m) <= MAX_RULES
    && (spec.dnsProfile.Some? && spec.dnsProfile.value.id in m && m[spec.dnsProfile.value.id].payload.DNS? ==>
          ResolversDirect(m[spec.dnsProfile.value.id].payload.dns.resolvers))
    && PresetComplete(spec, target, m, groups)
  }

  /** Exactly when the merged snapshot compiles for the target. */
  ghost predicate Buildable(env: Environment, spec: Spec, target: Target, m: Store) {
    var c := Collection(m, spec.resources, spec.members);
    && DigestsSized(c.items, env.digest) && !FullCollision(c.items, env.digest)
    && OutboundCount(c) <= MAX_OUTBOUNDS
    && GroupsUsable(c.groups, Controlled(m, target), target.family)
    && ProfilesFit(spec, target, m, |c.groups|)
  }

  /** Why the profiles are refused: each error says what does not fit. */
  predicate ProfilesRefused(spec: Spec, target: Target, m: Store, groups: nat, e: PrepareError) {
    match e
    case Rules(_) => RulesWeight(spec, m) > MAX_RULES
    case UnmappedResolver =>
      && spec.dnsProfile.Some? && spec.dnsProfile.value.id in m && m[spec.dnsProfile.value.id].payload.DNS?
      && !ResolversDirect(m[spec.dnsProfile.value.id].payload.dns.resolvers)
    case TargetMismatch => !PresetAgrees(m, target)
    case PresetMissing => PresetAgrees(m, target) && !PresetComplete(spec, target, m, groups)
    case _ => false
  }

  /** Why the merged snapshot does not compile: the first condition that fails, in the order of Buildable. */
  ghost predicate BuildRefused(env: Environment, spec: Spec, target: Target, m: Store, e: PrepareError) {
    var c := Collection(m, spec.resources, spec.members);
    var labelled := DigestsSized(c.items, env.digest) && !FullCollision(c.items, env.digest);
    var usable := GroupsUsable(c.groups, Controlled(m, target), target.family);
    match e
    case Collision => !labelled
    case TooManyOutbounds => labelled && OutboundCount(c) > MAX_OUTBOUNDS
    case Unavailable(_) => labelled && OutboundCount(c) <= MAX_OUTBOUNDS && !usable
    case _ =>
      labelled && OutboundCount(c) <= MAX_OUTBOUNDS && usable && ProfilesRefused(spec, target, m, |c.groups|, e)
  }

  ghost predicate RoutingPart(spec: Spec, m: Store, o: Outs, ps: seq<PolicyInstance>, tags: map<Id, string>,
                              routing: Option<RoutingInput>, finalTag: string) {
    if spec.routingProfile.None? then routing.None? && finalTag == ""
    else
      && routing.Some? && routing.value.resourceId == spec.routingProfile.value.id
      && routing.value.resourceId in m && m[routing.value.resourceId].payload.Routing?
      && RoutingOK(m, o, ps, tags, m[routing.value.resourceId].payload.routing, finalTag, routing.value.rules)
  }

  ghost predicate DNSPart(spec: Spec, m: Store, o: Outs, ps: seq<PolicyInstance>, dns: Option<DNSInput>) {
    if spec.dnsProfile.None? then dns.None?
    else
      && dns.Some? && dns.value.resourceId == spec.dnsProfile.value.id
      && dns.value.resourceId in m && m[dns.value.resourceId].payload.DNS?
      && DNSOK(m, o, ps, m[dns.value.resourceId].payload.dns, dns.value.outboundTags, dns.value.rules)
  }

  /**
   A prepared graph: outbounds and policies for every member and every routing or DNS reference,
   the counted number of them, and routing and DNS that mean what the profiles say.
   */
  ghost predicate GraphOK(spec: Spec, target: Target, m: Store, g: CompiledGraph, tags: map<Id, string>) {
    && Assembled(m, Collection(m, spec.resources, spec.members), g.outs, g.policies, tags)
    && tags.Keys == ToSet(Map(MemberId, spec.members)) + ToSet(AllRefIds(m, spec.resources))
    && Size(g.outs) <= MAX_OUTBOUNDS
    && RoutingPart(spec, m, g.outs, g.policies, tags, g.routing, g.finalTag)
    && DNSPart(spec, m, g.outs, g.policies, g.dns)
    && g.preset == (if target.presetId in m then Some(m[target.presetId].payload) else None)
  }

  lemma {:induction false} RefListed(m: Store, rs: seq<Resource>, members: seq<FrozenRef>, seen: set<Id>,
                                     tags: map<Id, string>, id: Id, ref: TargetRef)
    requires seen == ToSet(Map(MemberId, members)) + ToSet(AllRefIds(m, rs)) && tags.Keys == seen
    requires (exists r :: r in rs && r.meta.id == id) && id in m && ref in TargetRefs(m[id].payload)
    ensures RefKnown(tags, ref)
  {
    if ref.ResourceRef? {
      var r :| r in rs && r.meta.id == id;
      AllRefIdsHas(m, rs, r, ref);
    }
  }

  lemma {:induction false} ActionListed(rules: seq<RoutingRule>, i: nat)
    requires i < |rules|
    ensures rules[i].action in Actions(rules)
  {
    if i > 0 { ActionListed(rules[1..], i - 1); }
  }

  lemma {:induction false} OutboundListed(resolvers: seq<Resolver>, i: nat)
    requires i < |resolvers| && resolvers[i].outbound.Some?
    ensures resolvers[i].outbound.value in Outbounds(resolvers)
  {
    if i > 0 { OutboundListed(resolvers[1..], i - 1); }
  }

  ghost predicate RoutingRefsKnown(tags: map<Id, string>, p: RoutingProfile) {
    RefKnown(tags, p.final) && forall i :: 0 <= i < |p.rules| ==> RefKnown(tags, p.rules[i].action)
  }

  ghost predicate ResolverRefsKnown(tags: map<Id, string>, p: DNSProfile) {
    forall i :: 0 <= i < |p.resolvers| && p.resolvers[i].outbound.Some? ==>
        RefKnown(tags, p.resolvers[i].outbound.value)
  }

  lemma {:induction false} RoutingRefs(m: Store, rs: seq<Resource>, members: seq<FrozenRef>, seen: set<Id>,
                                       tags: map<Id, string>, id: Id)
    requires seen == ToSet(Map(MemberId, members)) + ToSet(AllRefIds(m, rs)) && tags.Keys == seen
    requires (exists r :: r in rs && r.meta.id == id) && id in m && m[id].payload.Routing?
    ensures RoutingRefsKnown(tags, m[id].payload.routing)
  {
    var p := m[id].payload.routing;
    RefListed(m, rs, members, seen, tags, id, p.final);
    forall i | 0 <= i < |p.rules| ensures RefKnown(tags, p.rules[i].action) {
      ActionListed(p.rules, i);
      RefListed(m, rs, members, seen, tags, id, p.rules[i].action);
    }
  }

  lemma {:induction false} ResolverRefs(m: Store, rs: seq<Resource>, members: seq<FrozenRef>, seen: set<Id>,
                                        tags: map<Id, string>, id: Id)
    requires seen == ToSet(Map(MemberId, members)) + ToSet(AllRefIds(m, rs)) && tags.Keys == seen
    requires (exists r :: r in rs && r.meta.id == id) && id in m && m[id].payload.DNS?
    ensures ResolverRefsKnown(tags, m[id].payload.dns)
  {
    var p := m[id].payload.dns;
    forall i | 0 <= i < |p.resolvers| && p.resolvers[i].outbound.Some?
        ensures RefKnown(tags, p.resolvers[i].outbound.value) {
      OutboundListed(p.resolvers, i);
      RefListed(m, rs, members, seen, tags, id, p.resolvers[i].outbound.value);
    }
  }

  /** The routing loop. */
  method CompileRouting(m: Store, ghost c: Collected, o: Outs, ps: seq<PolicyInstance>, tags: map<Id, string>, id: Id)
    returns (r: Result<seq<RouteRule>, CompileError>, finalTag: string, used: nat)
    requires Linked(m) && Assembled(m, c, o, ps, tags) && id in m && m[id].payload.Routing?
    requires RoutingRefsKnown(tags, m[id].payload.routing)
    ensures r.Ok? <==> RoutingWeight(m[id].payload.routing.rules, m) <= MAX_RULES
    ensures r.Ok? ==>
            RoutingOK(m, o, ps, tags, m[id].payload.routing, finalTag, r.value)
            && used == RoutingWeight(m[id].payload.routing.rules, m)
  {
    var p := m[id].payload.routing;
    var src := SourceRules(p.rules, tags);
    RoutingCompilable(m, id, tags);
    SameWeight(src, SourceRules(p.rules, map[]), m);
    finalTag := Resolve(tags, p.final);
    r, used := CompileRules(src, m, false, 0);
    if r.Ok? { RoutingDone(m, c, o, ps, tags, p, finalTag, r.value); }
  }

  lemma {:induction false} RoutingDone(m: Store, c: Collected, o: Outs, ps: seq<PolicyInstance>, tags: map<Id, string>,
                                       p: RoutingProfile, finalTag: string, rules: seq<RouteRule>)
    requires Assembled(m, c, o, ps, tags) && RoutingRefsKnown(tags, p) && finalTag == Resolve(tags, p.final)
    requires CompiledFrom(rules, SourceRules(p.rules, tags), m)
    ensures RoutingOK(m, o, ps, tags, p, finalTag, rules)
  {
    ResolveDenotes(m, c, o, ps, tags, p.final);
    forall i | 0 <= i < |p.rules| ensures Denotes(m, o, ps, p.rules[i].action, Resolve(tags, p.rules[i].action)) {
      ResolveDenotes(m, c, o, ps, tags, p.rules[i].action);
    }
    forall q ensures FirstMatch(rules, finalTag, q) == Decide(SourceRules(p.rules, tags), m, finalTag, q) {
      MeaningPreserved(rules, SourceRules(p.rules, tags), m, finalTag, q);
    }
  }

  // ---- DNS ----

  /** OutboundTags after the first i resolvers. */
  function ResolverTags(resolvers: seq<Resolver>, tags: map<Id, string>, i: nat): map<string, string>
    requires i <= |resolvers|
  {
    if i == 0 then map[]
    else
      var front, r := ResolverTags(resolvers, tags, i - 1), resolvers[i - 1];
      if r.outbound.Some? then front[r.id := Resolve(tags, r.outbound.value)] else front
  }

  lemma {:induction false} ResolverTagAt(resolvers: seq<Resolver>, tags: map<Id, string>, i: nat, k: nat)
    requires k < i <= |resolvers| && resolvers[k].outbound.Some?
    requires forall a, b :: 0 <= a < b < |resolvers| ==> resolvers[a].id != resolvers[b].id
    ensures resolvers[k].id in ResolverTags(resolvers, tags, i)
    ensures ResolverTags(resolvers, tags, i)[resolvers[k].id] == Resolve(tags, resolvers[k].outbound.value)
  {
    if k < i - 1 { ResolverTagAt(resolvers, tags, i - 1, k); }
  }

  lemma {:induction false} ResolverTagFrom(resolvers: seq<Resolver>, tags: map<Id, string>, i: nat, id: string)
    returns (r: Resolver)
    requires i <= |resolvers| && id in ResolverTags(resolvers, tags, i)
    ensures r in resolvers && r.outbound.Some? && r.id == id
  {
    if resolvers[i - 1].outbound.Some? && resolvers[i - 1].id == id {
      r := resolvers[i - 1];
    } else {
      r := ResolverTagFrom(resolvers, tags, i - 1, id);
    }
  }

  /** Only the builtin resolves to the direct tag. */
  ghost predicate DirectMeans(tags: map<Id, string>, r: Resolver) {
    r.outbound.Some? ==> (Resolve(tags, r.outbound.value) == "direct" <==> r.outbound.value.DirectRef?)
  }

  /** The resolver loop: refused exactly when a UDP resolver would not go out directly. */
  method TagResolvers(tags: map<Id, string>, p: DNSProfile) returns (ok: bool, out: map<string, string>)
    requires forall i :: 0 <= i < |p.resolvers| ==> DirectMeans(tags, p.resolvers[i])
    ensures ok <==> ResolversDirect(p.resolvers)
    ensures ok ==> out == ResolverTags(p.resolvers, tags, |p.resolvers|)
  {
    ok, out := true, map[];
    var i := 0;
    while i < |p.resolvers|
      invariant 0 <= i <= |p.resolvers| && ok && out == ResolverTags(p.resolvers, tags, i)
      invariant ResolversDirect(p.resolvers[..i])
    {
      var r := p.resolvers[i];
      assert p.resolvers[..i + 1] == p.resolvers[..i] + [r] && r in p.resolvers;
      if r.outbound.Some? {
        var tag := Resolve(tags, r.outbound.value);
        assert DirectMeans(tags, r);
        if r.kind.UDPResolver? && tag != "direct" { ok := false; return; }
        out := out[r.id := tag];
      }
      i := i + 1;
    }
    assert p.resolvers[..|p.resolvers|] == p.resolvers;
  }

  lemma {:induction false} DNSDone(m: Store, c: Collected, o: Outs, ps: seq<PolicyInstance>, tags: map<Id, string>,
                                   p: DNSProfile, rules: seq<RouteRule>)
    requires Assembled(m, c, o, ps, tags) && ResolverRefsKnown(tags, p) && ValidDNS(p) && ResolversDirect(p.resolvers)
    requires CompiledFrom(rules, DNSSourceRules(p.rules), m)
    ensures DNSOK(m, o, ps, p, ResolverTags(p.resolvers, tags, |p.resolvers|), rules)
  {
    var out := ResolverTags(p.resolvers, tags, |p.resolvers|);
    forall r | r in p.resolvers && r.outbound.Some?
      ensures r.id in out && Denotes(m, o, ps, r.outbound.value, out[r.id])
      ensures (r.kind.UDPResolver? ==> out[r.id] == "direct")
    {
      var k :| 0 <= k < |p.resolvers| && p.resolvers[k] == r;
      ResolverTagAt(p.resolvers, tags, |p.resolvers|, k);
      ResolveDenotes(m, c, o, ps, tags, r.outbound.value);
    }
    forall id | id in out ensures exists r :: r in p.resolvers && r.outbound.Some? && r.id == id {
      var r := ResolverTagFrom(p.resolvers, tags, |p.resolvers|, id);
    }
    forall q ensures FirstMatch(rules, p.finalResolver, q) == Decide(DNSSourceRules(p.rules), m, p.finalResolver, q) {
      MeaningPreserved(rules, DNSSourceRules(p.rules), m, p.finalResolver, q);
    }
  }

  method CompileDNS(m: Store, ghost c: Collected, ghost o: Outs, ghost ps: seq<PolicyInstance>, tags: map<Id, string>,
                    id: Id, used: nat)
    returns (r: Result<seq<RouteRule>, PrepareError>, out: map<string, string>)
    requires Linked(m) && Assembled(m, c, o, ps, tags) && id in m && m[id].payload.DNS? && used <= MAX_RULES
    requires DomainRules(m, m[id].payload.dns) && ResolverRefsKnown(tags, m[id].payload.dns)
    ensures r.Ok? <==>
            ResolversDirect(m[id].payload.dns.resolvers) && used + DNSWeight(m[id].payload.dns.rules, m) <= MAX_RULES
    ensures r.Err? ==> if r.error.UnmappedResolver? then !ResolversDirect(m[id].payload.dns.resolvers)
                       else r.error.Rules? && used + DNSWeight(m[id].payload.dns.rules, m) > MAX_RULES
    ensures r.Ok? ==> DNSOK(m, o, ps, m[id].payload.dns, out, r.value)
  {
    var p := m[id].payload.dns;
    var ok;
    forall i | 0 <= i < |p.resolvers| ensures DirectMeans(tags, p.resolvers[i]) {
      if p.resolvers[i].outbound.Some? { DirectOnly(m, c, o, ps, tags, p.resolvers[i].outbound.value); }
    }
    ok, out := TagResolvers(tags, p);
    if !ok { return Err(UnmappedResolver), out; }
    DNSCompilable(m, id);
    var rules, _ := CompileRules(DNSSourceRules(p.rules), m, true, used);
    if rules.Err? { return Err(Rules(rules.error)), out; }
    assert LinkedAt(m, id);
    DNSDone(m, c, o, ps, tags, p, rules.value);
    r := Ok(rules.value);
  }

  // ---- Putting it together ----

  method Label(digest: Digest, m: Store, c: Collected) returns (r: Option<TagMap>, ghost stemOf: map<Id, string>)
    requires HexDigest(digest) && Linked(m) && CollectedOK(m, c)
    ensures r.Some? <==> DigestsSized(c.items, digest) && !FullCollision(c.items, digest)
    ensures r.Some? ==> TagsKnown(m, c.seen, r.value, stemOf)
  {
    stemOf := map[];
    var labels := Assign(c.items, digest);
    if labels.Err? { return None, map[]; }
    ghost var stems := LabelledBy(c, digest, labels.value);
    CollectedLinked(m, c);
    var tagOf;
    tagOf, stemOf := LookupTags(m, c, labels.value, stems);
    r := Some(tagOf);
  }

  /** The routing profile of the snapshot, when it has one. */
  method RoutingOf(spec: Spec, target: Target, m: Store, ghost c: Collected, o: Outs, ps: seq<PolicyInstance>,
                   tags: map<Id, string>)
    returns (error: Option<CompileError>, routing: Option<RoutingInput>, finalTag: string, used: nat)
    requires Ready(spec, m) && Assembled(m, c, o, ps, tags)
    requires c.seen == ToSet(Map(MemberId, spec.members)) + ToSet(AllRefIds(m, spec.resources))
    ensures error.None? <==>
            (spec.routingProfile.Some? ==>
            RoutingWeight(m[spec.routingProfile.value.id].payload.routing.rules, m) <= MAX_RULES)
    ensures error.None? ==> RoutingPart(spec, m, o, ps, tags, routing, finalTag)
    ensures error.None? ==>
            used == if spec.routingProfile.Some?
                    then RoutingWeight(m[spec.routingProfile.value.id].payload.routing.rules, m) else 0
  {
    error, routing, finalTag, used := None, None, "", 0;
    if spec.routingProfile.None? { return; }
    var id := spec.routingProfile.value.id;
    RoutingRefs(m, spec.resources, spec.members, c.seen, tags, id);
    var rules;
    rules, finalTag, used := CompileRouting(m, c, o, ps, tags, id);
    if rules.Err? { error := Some(rules.error); return; }
    routing := Some(RoutingInput(id, rules.value));
  }

  method DNSOf(spec: Spec, target: Target, m: Store, ghost c: Collected, ghost o: Outs, ghost ps: seq<PolicyInstance>,
               tags: map<Id, string>, used: nat)
    returns (error: Option<PrepareError>, dns: Option<DNSInput>)
    requires Ready(spec, m) && Assembled(m, c, o, ps, tags) && used <= MAX_RULES
    requires c.seen == ToSet(Map(MemberId, spec.members)) + ToSet(AllRefIds(m, spec.resources))
    ensures error.None? <==> (spec.dnsProfile.Some? ==>
              var p := m[spec.dnsProfile.value.id].payload.dns;
              ResolversDirect(p.resolvers) && used + DNSWeight(p.rules, m) <= MAX_RULES)
    ensures error.Some? ==>
              var p := m[spec.dnsProfile.value.id].payload.dns;
              if error.value.UnmappedResolver? then !ResolversDirect(p.resolvers)
              else error.value.Rules? && used + DNSWeight(p.rules, m) > MAX_RULES
    ensures error.None? ==> DNSPart(spec, m, o, ps, dns)
  {
    error, dns := None, None;
    if spec.dnsProfile.None? { return; }
    var id := spec.dnsProfile.value.id;
    ResolverRefs(m, spec.resources, spec.members, c.seen, tags, id);
    var rules, outboundTags := CompileDNS(m, c, o, ps, tags, id, used);
    if rules.Err? { error := Some(rules.error); return; }
    dns := Some(DNSInput(id, outboundTags, rules.value));
  }

  lemma {:induction false} PresetKind(m: Store, id: Id)
    requires Linked(m) && id in m && m[id].payload.ClientPreset?
    ensures m[id].meta.kind == ClientPresetKind
  {
    assert LinkedAt(m, id);
  }

  /** The preset of the target, and what must be there with or without one. */
  method CheckPreset(spec: Spec, target: Target, m: Store, routing: bool, dns: bool, groups: nat)
    returns (error: Option<PrepareError>)
    requires Linked(m) && routing == spec.routingProfile.Some? && dns == spec.dnsProfile.Some?
    ensures error.None? <==> PresetComplete(spec, target, m, groups)
    ensures error.Some? ==> error.value == if PresetAgrees(m, target) then PresetMissing else TargetMismatch
  {
    if target.presetId in m {
      var preset := m[target.presetId];
      if preset.payload.ClientPreset? { PresetKind(m, target.presetId); }
      if !preset.payload.ClientPreset? || preset.meta.revision != target.presetRevision
         || preset.payload.family != target.family || preset.payload.format != target.format {
        return Some(TargetMismatch);
      }
      return if dns && routing then None else Some(PresetMissing);
    }
    return if routing || dns || groups > 0 then Some(PresetMissing) else None;
  }

  /** Routing, DNS and preset, over the assembled outbounds. */
  method BuildProfiles(spec: Spec, target: Target, m: Store, ghost c: Collected, o: Outs, ps: seq<PolicyInstance>,
                       tags: map<Id, string>)
    returns (r: Result<CompiledGraph, PrepareError>)
    requires Ready(spec, m) && Assembled(m, c, o, ps, tags)
    requires c.seen == ToSet(Map(MemberId, spec.members)) + ToSet(AllRefIds(m, spec.resources))
    ensures r.Ok? <==> ProfilesFit(spec, target, m, |ps|)
    ensures r.Err? ==> ProfilesRefused(spec, target, m, |ps|, r.error)
    ensures r.Ok? ==>
              && r.value.outs == o && r.value.policies == ps
              && RoutingPart(spec, m, o, ps, tags, r.value.routing, r.value.finalTag)
                  && DNSPart(spec, m, o, ps, r.value.dns)
              && r.value.preset == (if target.presetId in m then Some(m[target.presetId].payload) else None)
  {
    var error, routing, finalTag, used := RoutingOf(spec, target, m, c, o, ps, tags);
    if error.Some? { return Err(Rules(error.value)); }
    var dnsError, dns := DNSOf(spec, target, m, c, o, ps, tags, used);
    if dnsError.Some? { return Err(dnsError.value); }
    var presetError := CheckPreset(spec, target, m, routing.Some?, dns.Some?, |ps|);
    if presetError.Some? { return Err(presetError.value); }
    var preset := if target.presetId in m then Some(m[target.presetId].payload) else None;
    return Ok(CompiledGraph(o, ps, finalTag, routing, dns, preset));
  }

  /** Prepare on the merged store. */
  method Build(env: Environment, spec: Spec, target: Target, m: Store)
    returns (r: Result<CompiledGraph, PrepareError>, ghost tags: map<Id, string>)
    requires HexDigest(env.digest) && Ready(spec, m)
    ensures r.Ok? <==> Buildable(env, spec, target, m)
    ensures r.Err? ==> BuildRefused(env, spec, target, m, r.error)
    ensures r.Ok? ==> GraphOK(spec, target, m, r.value, tags)
  {
    tags := map[];
    LinkedRefsOutbound(m, spec.resources);
    var ok, c := CollectAll(m, spec.resources, spec.members);
    if !ok { return Err(NotOutbound), map[]; }
    var tagOf, stemOf := Label(env.digest, m, c);
    if tagOf.None? { return Err(Collision), map[]; }
    var count := CountOutbounds(c);
    if count > MAX_OUTBOUNDS { return Err(TooManyOutbounds), map[]; }
    var issue, o, ps, known := Assemble(m, c, tagOf.value, stemOf, Controlled(m, target), target.family);
    if issue.Some? { return Err(Unavailable(issue.value)), map[]; }
    tags := known;
    r := BuildProfiles(spec, target, m, c, o, ps, known);
  }

  // ---- Accepted snapshots are ready ----

  lemma {:induction false} MemberIdsOutbound(schema: Schema, spec: Spec, target: Target, m: Store)
    requires FrozenShape(schema, spec) && RootsOK(spec, StoreOf(spec.resources))
    requires m == Merged(StoreOf(spec.resources), target) && Linked(m)
    ensures AllOutbound(m, Map(MemberId, spec.members))
  {
    var ids := Map(MemberId, spec.members);
    forall i | 0 <= i < |ids| ensures ids[i] in m && m[ids[i]].meta.id == ids[i] && Outbound(m[ids[i]].payload) {
      assert spec.members[i] in spec.members;
      MembersOutbound(schema, spec, target, m, spec.members[i]);
    }
  }

  lemma {:induction false} ProfileThere(spec: Spec, target: Target, m: Store, ref: FrozenRef)
    requires m == Merged(StoreOf(spec.resources), target) && Linked(m) && Resolves(StoreOf(spec.resources), ref)
    ensures ref.id in m && KindOf(m[ref.id].payload) == ref.kind
  {
    OverriddenKeeps(StoreOf(spec.resources)[ref.id], target);
    assert LinkedAt(m, ref.id);
  }

  /** A DNS profile's rule sets hold domains only, before and after overrides. */
  lemma {:induction false} DomainsKept(spec: Spec, target: Target, m: Store, id: Id)
    requires m == Merged(StoreOf(spec.resources), target) && LinksOK(spec, StoreOf(spec.resources))
    requires id in m && m[id].payload.DNS?
    ensures DomainRules(m, m[id].payload.dns)
  {
    var store := StoreOf(spec.resources);
    StoreHolds(spec.resources);
    OverriddenKeeps(store[id], target);
    assert PayloadLinked(spec, store, store[id].payload);
    var p := m[id].payload.dns;
    forall i, s | 0 <= i < |p.rules| && s in p.rules[i].ruleSetIds ensures DomainOnly(m, s) {
      assert p.rules[i] in p.rules && DomainOnly(store, s);
      if s in store { OverriddenKeeps(store[s], target); }
    }
  }

  lemma {:induction false} ReadyParts(schema: Schema, spec: Spec, target: Target, m: Store)
    requires FrozenShape(schema, spec) && RootsOK(spec, StoreOf(spec.resources))
    requires LinksOK(spec, StoreOf(spec.resources))
    requires m == Merged(StoreOf(spec.resources), target) && Linked(m)
    ensures Ready(spec, m)
  {
    MemberIdsOutbound(schema, spec, target, m);
    StoreHolds(spec.resources);
    if spec.routingProfile.Some? { ProfileThere(spec, target, m, spec.routingProfile.value); }
    if spec.dnsProfile.Some? {
      ProfileThere(spec, target, m, spec.dnsProfile.value);
      DomainsKept(spec, target, m, spec.dnsProfile.value.id);
    }
  }

  /** An accepted snapshot is ready for any of its targets. */
  lemma {:induction false} AcceptedReady(schema: Schema, spec: Spec, target: Target)
    requires Accepted(schema, spec) && target in spec.targets
    ensures Ready(spec, Merged(StoreOf(spec.resources), target))
    ensures AllMerge(schema, spec.resources, target)
  {
    MergedLinked(schema, spec, target);
    AcceptedAllMerge(schema, spec, target);
    ReadyParts(schema, spec, target, Merged(StoreOf(spec.resources), target));
  }

  /** In an accepted snapshot the preset of a pinned target agrees with it. */
  lemma {:induction false} PresetAlwaysAgrees(schema: Schema, spec: Spec, target: Target)
    requires Accepted(schema, spec) && target in spec.targets
    ensures PresetAgrees(Merged(StoreOf(spec.resources), target), target)
  {
    var store := StoreOf(spec.resources);
    assert PresetAgrees(store, target);
    if target.presetId in store { OverriddenKeeps(store[target.presetId], target); }
  }

  /** Target(key) and Equal: found exactly when the snapshot pins this very target. */
  method FindTarget(targets: seq<Target>, target: Target) returns (found: bool)
    requires DistinctKeys(targets)
    ensures found <==> target in targets
  {
    for i := 0 to |targets|
      invariant forall k :: 0 <= k < i ==> targets[k].key != target.key
    {
      if targets[i].key == target.key {
        if target in targets {
          var k :| 0 <= k < |targets| && targets[k] == target;
          assert k == i;
        }
        return targets[i] == target;
      }
    }
    return false;
  }

  /** Exactly when Prepare succeeds. */
  ghost predicate Preparable(schema: Schema, env: Environment, spec: Spec, target: Target) {
    && Accepted(schema, spec) && target in spec.targets
    && target.format == ExpectedFormat(target.family) && env.catalog(target)
    && Buildable(env, spec, target, Merged(StoreOf(spec.resources), target))
  }

  /**
   Why Prepare refuses: the first condition of Preparable that fails. Some checks of the source never fail here: a
   validated override always merges, every reference is an outbound, and a pinned target agrees with its preset.
   */
  ghost predicate PrepareRefused(schema: Schema, env: Environment, spec: Spec, target: Target, e: PrepareError) {
    var pinned := Accepted(schema, spec) && target in spec.targets;
    var fits := pinned && target.format == ExpectedFormat(target.family);
    match e
    case InvalidSnapshot(_) => !Accepted(schema, spec)
    case TargetMismatch => Accepted(schema, spec) && target !in spec.targets
    case FormatMismatch => pinned && target.format != ExpectedFormat(target.family)
    case CatalogRefused => fits && !env.catalog(target)
    case _ => fits && env.catalog(target) && BuildRefused(env, spec, target, Merged(StoreOf(spec.resources), target), e)
  }

  /** Compiler.Prepare up to the capability list. */
  method Prepare(schema: Schema, env: Environment, spec: Spec, target: Target)
    returns (r: Result<CompiledGraph, PrepareError>, ghost tags: map<Id, string>)
    requires HexDigest(env.digest)
    ensures r.Ok? <==> Preparable(schema, env, spec, target)
    ensures r.Err? ==> PrepareRefused(schema, env, spec, target, r.error)
    ensures r.Ok? ==> GraphOK(spec, target, Merged(StoreOf(spec.resources), target), r.value, tags)
  {
    tags := map[];
    var issues := Validate(schema, spec);
    if issues != [] { return Err(InvalidSnapshot(issues)), map[]; }
    var pinned := FindTarget(spec.targets, target);
    if !pinned { return Err(TargetMismatch), map[]; }
    if target.format != ExpectedFormat(target.family) { return Err(FormatMismatch), map[]; }
    if !env.catalog(target) { return Err(CatalogRefused), map[]; }
    AcceptedReady(schema, spec, target);
    PresetAlwaysAgrees(schema, spec, target);
    var m := MergeOverrides(schema, spec.resources, target);
    if m.None? { return Err(Unmerged), map[]; }
    r, tags := Build(env, spec, target, m.value);
  }
}
