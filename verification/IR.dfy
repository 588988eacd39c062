/**
 The compile input (internal/ir): resources with typed payloads and references, targets, and the
 per-element validity rules the later stages rely on.

 JSON Schema content that no later stage reads is one opaque predicate per element (Schema).
 */
module IR {
  import opened Prelude

  type Id = string

  datatype Kind =
    | NodeKind | ChainKind | PolicyGroupKind | RoutingProfileKind
    | DNSProfileKind | RuleSetKind | ClientPresetKind | SubscriptionProfileKind

  datatype CoreFamily = Xray | SingBox | Mihomo
  datatype OutputFormat = XrayJSON | SingBoxJSON | MihomoYAML

  /** A discriminated union: a resource of a kind, or one of the two builtins. */
  datatype TargetRef = ResourceRef(kind: Kind, id: Id) | DirectRef | RejectRef

  datatype Strategy = Fixed | ManualSelect | LatencyBest | RoundRobin

  datatype HealthCheck = HealthCheck(
    enabled: bool, url: string, intervalMs: Option<int>, timeoutMs: Option<int>, toleranceMs: Option<int>)

  datatype PolicyGroup = PolicyGroup(
    strategy: Strategy, members: seq<TargetRef>, defaultMember: TargetRef, health: HealthCheck)

  datatype PolicyOverride = PolicyOverride(
    groupId: Id, strategy: Option<Strategy>, defaultMember: Option<TargetRef>, health: Option<HealthCheck>)

  datatype PortRange = PortRange(lo: nat, hi: nat)
  datatype Network = TCP | UDP

  /** Different populated fields are ANDed; entries within a field are ORed. */
  datatype RouteMatch = RouteMatch(
    domainExact: seq<string>, domainSuffix: seq<string>, ruleSetIds: seq<Id>,
    ipCidrs: seq<string>, ports: seq<PortRange>, networks: seq<Network>)

  datatype RoutingRule = RoutingRule(match_: RouteMatch, action: TargetRef, enabled: bool)

  datatype ResolutionMode = PreserveDomain | ResolveForIPRules

  datatype RoutingProfile = RoutingProfile(rules: seq<RoutingRule>, final: TargetRef, mode: ResolutionMode)

  datatype ResolverKind = LocalResolver | UDPResolver | HTTPSResolver
  datatype Resolver = Resolver(id: string, kind: ResolverKind, outbound: Option<TargetRef>)
  datatype DNSRule = DNSRule(
    domainExact: seq<string>, domainSuffix: seq<string>, ruleSetIds: seq<Id>, resolverId: string, enabled: bool)
  datatype DNSProfile = DNSProfile(resolvers: seq<Resolver>, rules: seq<DNSRule>, finalResolver: string)

  datatype RuleSetEntry = DomainEntry(domain: string, suffix: bool) | CIDREntry(cidr: string)

  datatype Payload =
    | Node(connection: string)
    | Chain(hops: seq<Id>)
    | Policy(group: PolicyGroup)
    | Routing(routing: RoutingProfile)
    | DNS(dns: DNSProfile)
    | RuleSet(entries: seq<RuleSetEntry>)
    | ClientPreset(family: CoreFamily, format: OutputFormat, controlEnabled: bool)
    | SubscriptionProfile(document: string)

  datatype Metadata = Metadata(
    id: Id, scope: Id, kind: Kind, revision: int, name: string, tags: seq<string>, enabled: bool, epoch: int)

  datatype Resource = Resource(meta: Metadata, payload: Payload)

  /** Resources are sorted by id. */
  function ResourceKey(r: Resource): string { r.meta.id }

  datatype Target = Target(
    key: string, family: CoreFamily, buildId: Id, buildSHA256: string, adapterVersion: string,
    presetId: Id, presetRevision: int, format: OutputFormat, overrides: map<Id, PolicyOverride>)

  datatype Header = Header(schemaVersion: int, snapshotId: Id, scopeId: Id, catalogRevision: int, securityEpoch: int)

  datatype FrozenRef = FrozenRef(id: Id, kind: Kind, revision: int, epoch: int)

  function KindOf(payload: Payload): Kind {
    match payload
    case Node(_) => NodeKind
    case Chain(_) => ChainKind
    case Policy(_) => PolicyGroupKind
    case Routing(_) => RoutingProfileKind
    case DNS(_) => DNSProfileKind
    case RuleSet(_) => RuleSetKind
    case ClientPreset(_, _, _) => ClientPresetKind
    case SubscriptionProfile(_) => SubscriptionProfileKind
  }

  /** The remaining schema rules of one element; tags are a set, so their order is not an input. */
  datatype Schema = Schema(
    resource: (Resource, multiset<string>) -> bool,
    target: Target -> bool,
    header: Header -> bool,
    override_: PolicyOverride -> bool)

  function Untagged(r: Resource): Resource { r.(meta := r.meta.(tags := [])) }

  // ---- Element validity (Validate methods of the payload types) ----

  predicate OutboundRef(ref: TargetRef) {
    ref.ResourceRef? ==> ref.kind in {NodeKind, ChainKind, PolicyGroupKind}
  }

  predicate MemberRef(ref: TargetRef) {
    ref.ResourceRef? && ref.kind in {NodeKind, ChainKind}
  }

  predicate DistinctMembers(members: seq<TargetRef>) {
    forall i, j :: 0 <= i < j < |members| && members[i].ResourceRef? && members[j].ResourceRef? ==>
        members[i].id != members[j].id
  }

  predicate ValidGroup(g: PolicyGroup) {
    && g.members != [] && (forall m :: m in g.members ==> MemberRef(m))
    && DistinctMembers(g.members) && g.defaultMember in g.members
  }

  predicate ValidPorts(p: PortRange) { 1 <= p.lo <= p.hi <= 65535 }

  predicate ValidRouting(p: RoutingProfile) {
    && OutboundRef(p.final)
    && forall r :: r in p.rules ==> OutboundRef(r.action) && forall q :: q in r.match_.ports ==> ValidPorts(q)
  }

  predicate ValidDNS(p: DNSProfile) {
    && (forall i, j :: 0 <= i < j < |p.resolvers| ==> p.resolvers[i].id != p.resolvers[j].id)
    && (forall r :: r in p.resolvers && r.outbound.Some? ==> OutboundRef(r.outbound.value))
    && (exists r :: r in p.resolvers && r.id == p.finalResolver)
    && forall rule :: rule in p.rules ==> exists r :: r in p.resolvers && r.id == rule.resolverId
  }

  predicate ValidResource(schema: Schema, r: Resource) {
    && KindOf(r.payload) == r.meta.kind
    && (r.payload.Chain? ==> |r.payload.hops| == 2 && r.payload.hops[0] != r.payload.hops[1])
    && (r.payload.Policy? ==> ValidGroup(r.payload.group))
    && (r.payload.Routing? ==> ValidRouting(r.payload.routing))
    && (r.payload.DNS? ==> ValidDNS(r.payload.dns))
    && schema.resource(Untagged(r), multiset(r.meta.tags))
  }

  predicate ValidTarget(schema: Schema, t: Target) {
    && schema.target(t)
    && forall id :: id in t.overrides ==> t.overrides[id].groupId == id && schema.override_(t.overrides[id])
  }

  // ---- Overrides ----

  function MergedGroup(g: PolicyGroup, o: PolicyOverride): PolicyGroup {
    g.(strategy := if o.strategy.Some? then o.strategy.value else g.strategy,
       defaultMember := if o.defaultMember.Some? then o.defaultMember.value else g.defaultMember,
       health := if o.health.Some? then o.health.value else g.health)
  }

  /** MergePolicyOverride: the merged group, when base, override and result are all valid. */
  predicate Mergeable(schema: Schema, base: Resource, o: PolicyOverride) {
    && ValidResource(schema, base) && base.payload.Policy? && base.meta.id == o.groupId
    && schema.override_(o) && ValidGroup(MergedGroup(base.payload.group, o))
  }

  // ---- References ----

  datatype Link = Link(id: Id, kind: Kind)

  function RefLinks(ref: TargetRef): seq<Link> {
    if ref.ResourceRef? then [Link(ref.id, ref.kind)] else []
  }

  function HopLinks(hops: seq<Id>): seq<Link> { seq(|hops|, i requires 0 <= i < |hops| => Link(hops[i], NodeKind)) }

  function RuleSetLinks(ids: seq<Id>): seq<Link> { seq(|ids|, i requires 0 <= i < |ids| => Link(ids[i], RuleSetKind)) }

  function MemberLinks(members: seq<TargetRef>): seq<Link> {
    if members == [] then [] else RefLinks(members[0]) + MemberLinks(members[1..])
  }

  function RoutingRuleLinks(rules: seq<RoutingRule>): seq<Link> {
    if rules == [] then []
    else RefLinks(rules[0].action) + RuleSetLinks(rules[0].match_.ruleSetIds) + RoutingRuleLinks(rules[1..])
  }

  function ResolverLinks(resolvers: seq<Resolver>): seq<Link> {
    if resolvers == [] then []
    else (if resolvers[0].outbound.Some? then RefLinks(resolvers[0].outbound.value) else [])
         + ResolverLinks(resolvers[1..])
  }

  function DNSRuleLinks(rules: seq<DNSRule>): seq<Link> {
    if rules == [] then [] else RuleSetLinks(rules[0].ruleSetIds) + DNSRuleLinks(rules[1..])
  }

  /** Every typed edge of a payload, in the order it is checked. */
  function Links(payload: Payload): seq<Link> {
    match payload
    case Chain(hops) => HopLinks(hops)
    case Policy(g) => MemberLinks(g.members)
    case Routing(p) => RefLinks(p.final) + RoutingRuleLinks(p.rules)
    case DNS(p) => ResolverLinks(p.resolvers) + DNSRuleLinks(p.rules)
    case _ => []
  }

  lemma {:induction false} MemberLinked(members: seq<TargetRef>, k: nat)
    requires k < |members| && members[k].ResourceRef?
    ensures Link(members[k].id, members[k].kind) in MemberLinks(members)
  {
    if k > 0 { MemberLinked(members[1..], k - 1); }
  }

  lemma {:induction false} RoutingRuleLinked(rules: seq<RoutingRule>, k: nat)
    requires k < |rules|
    ensures forall l :: l in RefLinks(rules[k].action) || l in RuleSetLinks(rules[k].match_.ruleSetIds) ==>
            l in RoutingRuleLinks(rules)
  {
    if k > 0 { RoutingRuleLinked(rules[1..], k - 1); }
  }

  lemma {:induction false} DNSRuleLinked(rules: seq<DNSRule>, k: nat)
    requires k < |rules|
    ensures forall l :: l in RuleSetLinks(rules[k].ruleSetIds) ==> l in DNSRuleLinks(rules)
  {
    if k > 0 { DNSRuleLinked(rules[1..], k - 1); }
  }
}
