/**
 Nodes bound to a source (internal/server/origin.go applyBoundPatch, with NodePatch.Apply of
 internal/apicontract/node.go and Merge and Combine of internal/override/override.go): every
 accepted step keeps the stored node equal to the source baseline with the stored overlay on top.
 */
module Bound {
  import opened Nodes
  import opened Overlay
  import opened Prelude

  type Id = string

  // ---- Nodes ----

  datatype Auth =
    | NoAuth | PasswordAuth(password: string) | UUIDAuth(uuid: string) | VMessAuth(uuid: string, cipher: string)
    | MethodPasswordAuth(method_: string, password: string) | UsernamePasswordAuth(username: string, password: string)
    | NilAuth

  datatype Origin = Origin(sourceId: Id, itemId: Id, manual: bool)

  datatype Node = Node(
    protocol: string, endpoint: Endpoint, auth: Auth, transport: Transport, security: Option<Security>,
    features: Features,
    origin: Option<Origin>)

  /** Schema validity of nodes and of patches. */
  datatype Rules = Rules(node: Node -> bool, patch: NodePatch -> bool)

  function Value(p: Patch, before: string): string {
    match p case Absent => before case Clear => "" case Replace(v) => v
  }

  function Optional(p: Patch, before: Option<string>): Option<string> {
    match p case Absent => before case Clear => None case Replace(v) => Some(v)
  }

  function Or<T>(o: Option<T>, before: T): T { if o.Some? then o.value else before }

  /** AuthPatch.apply: the same kind keeps what the patch leaves out; another kind starts empty. */
  function ApplyAuth(p: AuthPatch, before: Auth): Auth {
    match p.kind
    case NoAuthKind => NoAuth
    case PasswordKind => PasswordAuth(Value(p.password, if before.PasswordAuth? then before.password else ""))
    case UUIDKind => UUIDAuth(Value(p.uuid, if before.UUIDAuth? then before.uuid else ""))
    case VMessKind =>
      VMessAuth(Value(p.uuid, if before.VMessAuth? then before.uuid else ""),
                Or(p.cipher, if before.VMessAuth? then before.cipher else ""))
    case MethodPasswordKind =>
      MethodPasswordAuth(Or(p.method_, if before.MethodPasswordAuth? then before.method_ else ""),
                         Value(p.password, if before.MethodPasswordAuth? then before.password else ""))
    case UsernamePasswordKind =>
      UsernamePasswordAuth(Value(p.username, if before.UsernamePasswordAuth? then before.username else ""),
                           Value(p.password, if before.UsernamePasswordAuth? then before.password else ""))
    case UnknownAuthKind => NilAuth
  }

  /** SecurityPatch.apply; an unknown mode gives no security at all, which no valid node has. */
  function ApplySecurity(p: SecurityPatch, before: Option<Security>): Option<Security> {
    match p.mode
    case NoneMode => Some(NoSecurity)
    case TLSMode =>
      var t := if before.Some? && before.value.TLS? then before.value else TLS("", None, [], None);
      Some(TLS(Or(p.serverName, t.serverName), if p.verify.Some? then p.verify else t.verify, Or(p.alpn, t.alpn),
               Optional(p.fingerprint, t.fingerprint)))
    case RealityMode =>
      var r := if before.Some? && before.value.Reality? then before.value else Reality("", [], "", "", "");
      Some(Reality(Or(p.serverName, r.serverName), Or(p.alpn, r.alpn), Value(p.fingerprint, r.realityFingerprint),
                   Value(p.publicKey, r.publicKey), Value(p.shortId, r.shortId)))
    case UnknownMode => None
  }

  function ApplyTransport(t: TransportInput): Option<Transport> {
    match t
    case TCPInput => Some(NativeTCP)
    case WebSocketInput(path, host) => Some(WebSocket(Or(path, ""), host))
    case UnknownTransport => None
  }

  /** REALITY needs its short id and fingerprint: clearing them is refused. */
  predicate ClearsReality(p: SecurityPatch) { p.mode.RealityMode? && (p.shortId.Clear? || p.fingerprint.Clear?) }

  function Patched(p: NodePatch, n: Node): Node {
    Node(Or(p.protocol, n.protocol), Or(p.endpoint, n.endpoint),
         if p.auth.Some? then ApplyAuth(p.auth.value, n.auth) else n.auth,
         if p.transport.Some? then Or(ApplyTransport(p.transport.value), n.transport) else n.transport,
         if p.security.Some? then ApplySecurity(p.security.value, n.security) else n.security,
         Or(p.features, n.features), n.origin)
  }

  /** NodePatch.Apply. */
  function Apply(rules: Rules, p: NodePatch, n: Node): Result<Node, Error> {
    if !rules.patch(p) || !rules.node(n) then Err(ErrInvalid)
    else if p.transport.Some? && ApplyTransport(p.transport.value).None? then Err(ErrInvalid)
    else if p.security.Some? && ClearsReality(p.security.value) then Err(ErrInvalid)
    else if !rules.node(Patched(p, n)) then Err(ErrInvalid)
    else Ok(Patched(p, n))
  }

  /** Merge: the baseline with the overlay on top. */
  function Merge(rules: Rules, base: Node, baseName: string, d: Document): Result<(Node, string), Error> {
    if !rules.node(base) then Err(ErrInvalid)
    else if d.node.Some? && d.node.value.protocol.Some? then Err(ErrProtocol)
    else if PatchEmpty(d.node) then Ok((base, Or(d.name, baseName)))
    else
      var merged := Apply(rules, d.node.value, base);
      if merged.Err? then Err(merged.error) else Ok((merged.value, Or(d.name, baseName)))
  }

  /** What the overlay leaves alone is the baseline's; the origin always is. */
  lemma {:induction false} MergeKeepsBaseline(rules: Rules, base: Node, baseName: string, d: Document)
    requires Merge(rules, base, baseName, d).Ok?
    ensures var (n, name) := Merge(rules, base, baseName, d).value;
            && rules.node(n) && n.origin == base.origin && n.protocol == base.protocol
            && (!Has(d, NameF) ==> name == baseName) && (Has(d, NameF) ==> name == d.name.value)
            && (!Has(d, EndpointF) ==> n.endpoint == base.endpoint)
                && (Has(d, EndpointF) ==> n.endpoint == d.node.value.endpoint.value)
            && (!Has(d, AuthF) ==> n.auth == base.auth) && (!Has(d, TransportF) ==> n.transport == base.transport)
            && (!Has(d, SecurityF) ==> n.security == base.security)
                && (!Has(d, FeaturesF) ==> n.features == base.features)
  {
  }

  /** An empty overlay shows the baseline. */
  lemma {:induction false} EmptyShowsBaseline(rules: Rules, base: Node, baseName: string, d: Document)
    requires rules.node(base) && IsEmpty(d)
    ensures Merge(rules, base, baseName, d) == Ok((base, baseName))
  {
  }

  /** Restoring every overridden field brings the baseline back. */
  lemma {:induction false} RestoreAllShowsBaseline(rules: Rules, base: Node, baseName: string, d: Document)
    requires rules.node(base)
    ensures Restore(d, AllKnown(Fields(d))).Ok?
    ensures Merge(rules, base, baseName, Restore(d, AllKnown(Fields(d))).value) == Ok((base, baseName))
  {
    RestoreEverything(d);
    EmptyShowsBaseline(rules, base, baseName, Restore(d, AllKnown(Fields(d))).value);
  }

  // ---- Combine ----

  function MergePatch(before: Option<NodePatch>, add: NodePatch): Option<NodePatch> {
    var o := if before.Some? then before.value else EMPTY_PATCH;
    var next := o.(endpoint := if add.endpoint.Some? then add.endpoint else o.endpoint,
                   auth := if add.auth.Some? then add.auth else o.auth,
                   transport := if add.transport.Some? then add.transport else o.transport,
                   security := if add.security.Some? then add.security else o.security,
                   features := if add.features.Some? then add.features else o.features);
    if next == EMPTY_PATCH then None else Some(next)
  }

  /** The request's name and node over the old document. */
  function Merged(d: Document, request: Document): Document {
    Document(if request.name.Some? then request.name else d.name,
             if request.node.Some? then MergePatch(d.node, request.node.value) else d.node)
  }

  /** Combine: the request's name and node over the old document, then its restored paths cleared. */
  function Combine(d: Document, name: Option<string>, node: Option<NodePatch>,
                   restore: seq<Path>): Result<Document, Error> {
    if node.Some? && node.value.protocol.Some? then Err(ErrProtocol)
        else Restore(Merged(d, Document(name, node)), restore)
  }

  /** A request that touches nothing leaves the document as it is. */
  lemma {:induction false} CombineNothing(d: Document)
    ensures Combine(d, None, None, []) == Ok(d)
  {
  }

  /** What overrides a field once the request is merged: its own part, or the old document's where it brings none. */
  predicate Overrides(d: Document, request: Document, f: Field) {
    if Has(request, Above(f)) then Has(request, f) else Has(d, f)
  }

  lemma {:induction false} MergedFields(d: Document, request: Document, f: Field)
    requires request.node.Some? ==> request.node.value.protocol.None?
    ensures Has(Merged(d, request), f) <==> Overrides(d, request, f)
  {
    if f == NameF {
    } else if request.node.Some? {
      MergedPatchFields(d, request.node.value, f);
      SameNodeHas(Merged(d, request), Document(None, MergePatch(d.node, request.node.value)), f);
      SameNodeHas(request, Document(None, request.node), f);
      SameNodeHas(request, Document(None, request.node), Above(f));
    } else {
      SameNodeHas(Merged(d, request), d, f);
    }
  }

  lemma {:induction false} MergedPatchFields(d: Document, add: NodePatch, f: Field)
    requires f != NameF && add.protocol.None?
    ensures Has(Document(None, MergePatch(d.node, add)), f) <==> Overrides(d, Document(None, Some(add)), f)
  {
  }

  /**
   Overridden afterwards: what the request or, where it brings none, the old document sets, unless a restored
   path covers it.
   */
  lemma {:induction false} CombineFields(d: Document, name: Option<string>, node: Option<NodePatch>,
                                         restore: seq<Path>, f: Field)
    requires Combine(d, name, node, restore).Ok?
    ensures f in Fields(Combine(d, name, node, restore).value) <==>
            Overrides(d, Document(name, node), f) && !CoveredBy(restore, f)
  {
    var merged := Merged(d, Document(name, node));
    RestoredFields(merged, restore, f);
    FieldsAre(merged, f);
    MergedFields(d, Document(name, node), f);
  }

  // ---- The bound-patch step ----

  datatype BindingState = Active | Stale | Conflict

  datatype Binding = Binding(itemId: Id, sourceId: Id, revision: int, manual: bool, state: BindingState,
                             patch: Document)

  datatype Item = Item(node: Node, name: string, sourceId: Id, conflict: bool)

  /** The node as stored. */
  datatype Stored = Stored(name: string, tags: seq<string>, enabled: bool, node: Node)

  datatype World = World(binding: Binding, stored: Stored, baselines: map<Id, (Node, string)>,
                         candidates: map<Id, Item>)

  datatype Action = NoAction | Bind | Skip

  datatype Request = Request(
    name: Option<string>, tags: Option<seq<string>>, enabled: Option<bool>, node: Option<NodePatch>,
    bindingRevision: Option<int>, restore: seq<Path>, action: Action, itemId: Id)

  datatype StepError = PreconditionRequired | StateConflict | NotFound | ValidationFailed(error: Error) | UpdateRefused

  /** The store's own checks of an update. */
  type Accepts = (Stored, Stored) -> bool

  predicate Touches(q: Request) { q.node.Some? || q.name.Some? || |q.restore| > 0 || !q.action.NoAction? }

  function Updated(s: Stored, q: Request, name: string, node: Node): Stored {
    Stored(name, Or(q.tags, s.tags), Or(q.enabled, s.enabled), node)
  }

  predicate SameButOrigin(a: Node, b: Node) { a.(origin := None) == b.(origin := None) }

  /** The stored node and name are the baseline of its source item with the stored overlay on top. */
  ghost predicate Materialised(rules: Rules, w: World) {
    && w.binding.itemId in w.baselines
    && var (base, baseName) := w.baselines[w.binding.itemId];
       var m := Merge(rules, base, baseName, w.binding.patch);
       m.Ok? && w.stored.name == m.value.1 && SameButOrigin(w.stored.node, m.value.0)
  }

  /** The three tables one request reads and writes. */
  class Transaction {
    const rules: Rules
    const accepts: Accepts
    const candidates: map<Id, Item>
    var binding: Binding
    var stored: Stored
    var baselines: map<Id, (Node, string)>

    ghost function Abs(): World
      reads this
    {
      World(binding, stored, baselines, candidates)
    }

    constructor (rules: Rules, accepts: Accepts, w: World)
      ensures this.rules == rules && this.accepts == accepts && Abs() == w
    {
      this.rules, this.accepts, candidates := rules, accepts, w.candidates;
      binding, stored, baselines := w.binding, w.stored, w.baselines;
    }

    method CheckRevision(q: Request) returns (error: Option<StepError>)
      ensures error.None? <==> (Touches(q) ==> q.bindingRevision == Some(binding.revision))
    {
      error := None;
      if Touches(q) {
        if q.bindingRevision.None? { return Some(PreconditionRequired); }
        if q.bindingRevision.value != binding.revision { return Some(StateConflict); }
      }
    }

    /** bind: take another source item, or the conflicting state of this one, as the new baseline. */
    method BindTo(q: Request) returns (r: Result<Stored, StepError>)
      modifies this
      ensures r.Err? ==> Abs() == old(Abs())
      ensures r.Ok? ==> Materialised(rules, Abs()) && binding.revision == old(binding.revision) + 1 && r.value == stored
      ensures r.Ok? ==> binding.patch == old(binding.patch) && binding.state.Active? && binding.manual
    {
      var itemId := if q.itemId == "" then binding.itemId else q.itemId;
      if itemId !in candidates { return Err(NotFound); }
      var item := candidates[itemId];
      if !item.conflict && !binding.state.Conflict? { return Err(StateConflict); }
      var merged := Merge(rules, item.node, item.name, binding.patch);
      if merged.Err? { return Err(ValidationFailed(merged.error)); }
      var node := merged.value.0.(origin := Some(Origin(item.sourceId, itemId, true)));
      var next := Updated(stored, q, merged.value.1, node);
      if !accepts(stored, next) { return Err(UpdateRefused); }
      stored := next;
      binding := Binding(itemId, item.sourceId, binding.revision + 1, true, Active, binding.patch);
      baselines := baselines[itemId := (item.node, item.name)];
      r := Ok(stored);
    }

    /** skip: keep the current baseline and settle the conflict. */
    method SkipConflict() returns (r: Result<Stored, StepError>)
      modifies this
      ensures r.Err? ==> Abs() == old(Abs())
      ensures r.Ok? ==>
              Abs() == old(Abs()).(binding := old(binding).(state := Active, revision := old(binding.revision) + 1))
              && r.value == stored
    {
      if !binding.state.Conflict? { return Err(StateConflict); }
      binding := binding.(state := Active, revision := binding.revision + 1);
      r := Ok(stored);
    }

    /** The ordinary step: combine, merge over the baseline, update, and store the overlay if touched. */
    method PatchOverlay(q: Request) returns (r: Result<Stored, StepError>)
      requires q.action.NoAction?
      modifies this
      ensures r.Err? ==> Abs() == old(Abs())
      ensures r.Ok? ==> Materialised(rules, Abs()) && r.value == stored && baselines == old(baselines)
      ensures r.Ok? ==> binding.revision == old(binding.revision) + (if Touches(q) then 1 else 0)
      ensures r.Ok? ==> Combine(old(binding.patch), q.name, q.node, q.restore) == Ok(binding.patch)
      ensures r.Ok? && !Touches(q) ==> binding == old(binding)
    {
      CombineNothing(binding.patch);
      var patch := Combine(binding.patch, q.name, q.node, q.restore);
      if patch.Err? { return Err(ValidationFailed(patch.error)); }
      if binding.itemId !in baselines { return Err(NotFound); }
      var (base, baseName) := baselines[binding.itemId];
      var effective := Merge(rules, base, baseName, patch.value);
      if effective.Err? { return Err(ValidationFailed(effective.error)); }
      var node := effective.value.0.(origin := stored.node.origin);
      var next := Updated(stored, q, effective.value.1, node);
      if !accepts(stored, next) { return Err(UpdateRefused); }
      stored := next;
      if Touches(q) { binding := binding.(patch := patch.value, revision := binding.revision + 1); }
      r := Ok(stored);
    }

    /**
     applyBoundPatch: an accepted request leaves the stored node materialised and moves the binding
     revision by one exactly when it touches the overlay; a refused one changes nothing.
     */
    method ApplyBoundPatch(q: Request) returns (r: Result<Stored, StepError>)
      requires Materialised(rules, Abs())
      modifies this
      ensures Materialised(rules, Abs())
      ensures r.Err? ==> Abs() == old(Abs())
      ensures r.Ok? ==> binding.revision == old(binding.revision) + (if Touches(q) then 1 else 0)
      ensures r.Ok? && Touches(q) ==> q.bindingRevision == Some(old(binding.revision))
      ensures r.Ok? && !Touches(q) ==> binding == old(binding) && baselines == old(baselines)
      ensures r.Ok? && q.action.NoAction? ==>
              Combine(old(binding.patch), q.name, q.node, q.restore) == Ok(binding.patch)
      ensures r.Ok? && !q.action.NoAction? ==> binding.patch == old(binding.patch)
    {
      var error := CheckRevision(q);
      if error.Some? { return Err(error.value); }
      match q.action {
        case Bind => r := BindTo(q);
        case Skip => r := SkipConflict();
        case NoAction => r := PatchOverlay(q);
      }
    }

    /** Any sequence of requests keeps the node materialised; the revision counts the accepted overlay requests. */
    method ApplyAll(qs: seq<Request>) returns (accepted: nat)
      requires Materialised(rules, Abs())
      modifies this
      ensures Materialised(rules, Abs()) && binding.revision == old(binding.revision) + accepted && accepted <= |qs|
    {
      accepted := 0;
      for i := 0 to |qs|
        invariant Materialised(rules, Abs()) && binding.revision == old(binding.revision) + accepted && accepted <= i
      {
        var r := ApplyBoundPatch(qs[i]);
        if r.Ok? && Touches(qs[i]) { accepted := accepted + 1; }
      }
    }
  }
}
