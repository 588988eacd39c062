/**
 Source overlays (internal/override/override.go, and the patches of internal/apicontract/node.go):
 documents as values, which fields they override, restoring fields, and merging over a baseline.
 The in-place form of Restore and Combine is in OverlayHeap.
 */
module Overlay {
  import opened Prelude

  // ---- Patches ----

  /** Absent, explicit null, or a value (SecretPatch and OptionalStringPatch). */
  datatype Patch = Absent | Clear | Replace(value: string)

  datatype Endpoint = Endpoint(host: string, port: int)
  datatype TransportInput = TCPInput | WebSocketInput(path: Option<string>, host: Option<string>) | UnknownTransport
  datatype Features = Features(udp: Option<bool>, multiplex: Option<bool>, variant: Option<string>)

  datatype AuthKind = NoAuthKind | PasswordKind | UUIDKind | VMessKind | MethodPasswordKind | UsernamePasswordKind
      | UnknownAuthKind

  datatype AuthPatch = AuthPatch(
    kind: AuthKind, method_: Option<string>, cipher: Option<string>, password: Patch, uuid: Patch, username: Patch)

  datatype SecurityMode = NoneMode | TLSMode | RealityMode | UnknownMode

  datatype SecurityPatch = SecurityPatch(
    mode: SecurityMode, serverName: Option<string>, verify: Option<bool>, alpn: Option<seq<string>>,
    fingerprint: Patch, publicKey: Patch, shortId: Patch)

  datatype NodePatch = NodePatch(
    protocol: Option<string>, endpoint: Option<Endpoint>, auth: Option<AuthPatch>, transport: Option<TransportInput>,
    security: Option<SecurityPatch>, features: Option<Features>)

  const EMPTY_PATCH := NodePatch(None, None, None, None, None, None)

  /** The overlay document. */
  datatype Document = Document(name: Option<string>, node: Option<NodePatch>)

  const EMPTY := Document(None, None)

  predicate PatchEmpty(n: Option<NodePatch>) { n.None? || n.value == EMPTY_PATCH }

  predicate IsEmpty(d: Document) { d.name.None? && PatchEmpty(d.node) }

  // ---- Fields ----

  /** The paths a document can override. */
  datatype Field =
    | NameF | ProtocolF | EndpointF | TransportF | FeaturesF
    | AuthF | PasswordF | UUIDF | UsernameF | MethodF | CipherF
    | SecurityF | ServerNameF | VerifyF | ALPNF | FingerprintF | PublicKeyF | ShortIdF

  /** The path above a field, or the field itself at the top. */
  function Above(f: Field): Field {
    match f
    case PasswordF => AuthF
    case UUIDF => AuthF
    case UsernameF => AuthF
    case MethodF => AuthF
    case CipherF => AuthF
    case ServerNameF => SecurityF
    case VerifyF => SecurityF
    case ALPNF => SecurityF
    case FingerprintF => SecurityF
    case PublicKeyF => SecurityF
    case ShortIdF => SecurityF
    case _ => f
  }

  /** f is the path p or lies below it. */
  predicate Covers(p: Field, f: Field) { f == p || Above(f) == p }

  predicate HasAuth(d: Document) { d.node.Some? && d.node.value.auth.Some? }
  predicate HasSecurity(d: Document) { d.node.Some? && d.node.value.security.Some? }

  /** The document overrides the field. */
  predicate Has(d: Document, f: Field) {
    match f
    case NameF => d.name.Some?
    case ProtocolF => d.node.Some? && d.node.value.protocol.Some?
    case EndpointF => d.node.Some? && d.node.value.endpoint.Some?
    case TransportF => d.node.Some? && d.node.value.transport.Some?
    case FeaturesF => d.node.Some? && d.node.value.features.Some?
    case AuthF => HasAuth(d)
    case PasswordF => HasAuth(d) && !d.node.value.auth.value.password.Absent?
    case UUIDF => HasAuth(d) && !d.node.value.auth.value.uuid.Absent?
    case UsernameF => HasAuth(d) && !d.node.value.auth.value.username.Absent?
    case MethodF => HasAuth(d) && d.node.value.auth.value.method_.Some?
    case CipherF => HasAuth(d) && d.node.value.auth.value.cipher.Some?
    case SecurityF => HasSecurity(d)
    case ServerNameF => HasSecurity(d) && d.node.value.security.value.serverName.Some?
    case VerifyF => HasSecurity(d) && d.node.value.security.value.verify.Some?
    case ALPNF => HasSecurity(d) && d.node.value.security.value.alpn.Some?
    case FingerprintF => HasSecurity(d) && !d.node.value.security.value.fingerprint.Absent?
    case PublicKeyF => HasSecurity(d) && !d.node.value.security.value.publicKey.Absent?
    case ShortIdF => HasSecurity(d) && !d.node.value.security.value.shortId.Absent?
  }

  /** All paths in the order sort.Strings gives them. */
  const ORDER: seq<Field> := [
    AuthF, CipherF, MethodF, PasswordF, UsernameF, UUIDF, EndpointF, FeaturesF, NameF, ProtocolF,
    SecurityF, ALPNF, FingerprintF, PublicKeyF, ServerNameF, ShortIdF, VerifyF, TransportF]

  function Select(d: Document, fs: seq<Field>): seq<Field> {
    if fs == [] then [] else (if Has(d, fs[0]) then [fs[0]] else []) + Select(d, fs[1..])
  }

  /** Fields(): the overridden paths, sorted. */
  function Fields(d: Document): seq<Field> { Select(d, ORDER) }

  lemma {:induction false} SelectHas(d: Document, fs: seq<Field>, f: Field)
    ensures f in Select(d, fs) <==> f in fs && Has(d, f)
  {
    if fs != [] { SelectHas(d, fs[1..], f); }
  }

  lemma {:induction false} OrderHasAll(f: Field)
    ensures f in ORDER
  {
    assert ORDER[Rank(f)] == f;
  }

  lemma {:induction false} FieldsAre(d: Document, f: Field)
    ensures f in Fields(d) <==> Has(d, f)
  {
    OrderHasAll(f);
    SelectHas(d, ORDER, f);
  }

  // ---- Restore ----

  /** A path as requested: a known field, or anything else. */
  datatype Path = Known(field: Field) | Unknown(text: string)

  datatype Error = ErrInvalid | ErrProtocol | ErrRestore

  function ClearAuth(a: AuthPatch, f: Field): AuthPatch {
    match f
    case PasswordF => a.(password := Absent)
    case UUIDF => a.(uuid := Absent)
    case UsernameF => a.(username := Absent)
    case MethodF => a.(method_ := None)
    case CipherF => a.(cipher := None)
    case _ => a
  }

  function ClearSecurity(s: SecurityPatch, f: Field): SecurityPatch {
    match f
    case ServerNameF => s.(serverName := None)
    case VerifyF => s.(verify := None)
    case ALPNF => s.(alpn := None)
    case FingerprintF => s.(fingerprint := Absent)
    case PublicKeyF => s.(publicKey := Absent)
    case ShortIdF => s.(shortId := Absent)
    case _ => s
  }

  function ClearNode(n: NodePatch, f: Field): NodePatch {
    match f
    case NameF => n
    case ProtocolF => n.(protocol := None)
    case EndpointF => n.(endpoint := None)
    case TransportF => n.(transport := None)
    case FeaturesF => n.(features := None)
    case AuthF => n.(auth := None)
    case SecurityF => n.(security := None)
    case _ =>
      if Above(f) == AuthF then (if n.auth.Some? then n.(auth := Some(ClearAuth(n.auth.value, f))) else n)
      else if n.security.Some? then n.(security := Some(ClearSecurity(n.security.value, f))) else n
  }

  /** One path cleared. */
  function Cleared(d: Document, f: Field): Document {
    if f.NameF? then d.(name := None)
    else if d.node.Some? then d.(node := Some(ClearNode(d.node.value, f))) else d
  }

  /** Clearing one path removes it and everything below it, and nothing else. */
  lemma {:induction false} ClearedFields(d: Document, p: Field, f: Field)
    ensures Has(Cleared(d, p), f) <==> Has(d, f) && !Covers(p, f)
  {
    if Above(p) == AuthF && p != AuthF {
      ClearedAuth(d, p, f);
    } else if Above(p) == SecurityF && p != SecurityF {
      ClearedSecurity(d, p, f);
    } else {
      ClearedTop(d, p, f);
    }
  }

  lemma {:induction false} ClearedTop(d: Document, p: Field, f: Field)
    requires Above(p) == p
    ensures Has(Cleared(d, p), f) <==> Has(d, f) && !Covers(p, f)
  {
  }

  lemma {:induction false} ClearedAuth(d: Document, p: Field, f: Field)
    requires Below(p, AuthF)
    ensures Has(Cleared(d, p), f) <==> Has(d, f) && !Covers(p, f)
  {
    if HasAuth(d) {
      var a := d.node.value.auth.value;
      assert Cleared(d, p) == WithAuth(d, ClearAuth(a, p)) && d == WithAuth(d, a);
      WithAuthHas(d, a, f);
      WithAuthHas(d, ClearAuth(a, p), f);
      if Below(f, AuthF) { ClearAuthSets(a, p, f); }
    }
  }

  function WithAuth(d: Document, a: AuthPatch): Document
    requires HasAuth(d)
  {
    d.(node := Some(d.node.value.(auth := Some(a))))
  }

  function WithSecurity(d: Document, s: SecurityPatch): Document
    requires HasSecurity(d)
  {
    d.(node := Some(d.node.value.(security := Some(s))))
  }

  lemma {:induction false} WithAuthHas(d: Document, a: AuthPatch, f: Field)
    requires HasAuth(d)
    ensures Has(WithAuth(d, a), f) == if Below(f, AuthF) then AuthSets(a, f) else Has(d, f)
  {
  }

  lemma {:induction false} WithSecurityHas(d: Document, s: SecurityPatch, f: Field)
    requires HasSecurity(d)
    ensures Has(WithSecurity(d, s), f) == if Below(f, SecurityF) then SecuritySets(s, f) else Has(d, f)
  {
  }

  lemma {:induction false} ClearedSecurity(d: Document, p: Field, f: Field)
    requires Below(p, SecurityF)
    ensures Has(Cleared(d, p), f) <==> Has(d, f) && !Covers(p, f)
  {
    if HasSecurity(d) {
      var s := d.node.value.security.value;
      assert Cleared(d, p) == WithSecurity(d, ClearSecurity(s, p)) && d == WithSecurity(d, s);
      WithSecurityHas(d, s, f);
      WithSecurityHas(d, ClearSecurity(s, p), f);
      if Below(f, SecurityF) { ClearSecuritySets(s, p, f); }
    }
  }

  function ClearedAll(d: Document, ps: seq<Path>): Document {
    if ps == [] then d
    else
      var front, p := ClearedAll(d, ps[..|ps| - 1]), ps[|ps| - 1];
      if p.Known? then Cleared(front, p.field) else front
  }

  /** An empty patch is dropped. */
  function Trimmed(d: Document): Document { if d.node.Some? && PatchEmpty(d.node) then d.(node := None) else d }

  predicate PathsOK(ps: seq<Path>) {
    (forall i :: 0 <= i < |ps| ==> ps[i].Known?) && forall i, j :: 0 <= i < j < |ps| ==> ps[i] != ps[j]
  }

  /** Restore: refused for an empty, repeated or unknown path; no path at all changes nothing. */
  function Restore(d: Document, ps: seq<Path>): Result<Document, Error> {
    if ps == [] then Ok(d) else if !PathsOK(ps) then Err(ErrRestore) else Ok(Trimmed(ClearedAll(d, ps)))
  }

  ghost predicate CoveredBy(ps: seq<Path>, f: Field) {
    exists i :: 0 <= i < |ps| && ps[i].Known? && Covers(ps[i].field, f)
  }

  lemma {:induction false} CoveredSplit(ps: seq<Path>, f: Field)
    requires ps != []
    ensures var p := ps[|ps| - 1];
            CoveredBy(ps, f) <==> CoveredBy(ps[..|ps| - 1], f) || (p.Known? && Covers(p.field, f))
  {
    var front := ps[..|ps| - 1];
    if CoveredBy(front, f) {
      var i :| 0 <= i < |front| && front[i].Known? && Covers(front[i].field, f);
      assert ps[i] == front[i];
    }
    if CoveredBy(ps, f) {
      var i :| 0 <= i < |ps| && ps[i].Known? && Covers(ps[i].field, f);
      if i < |front| { assert front[i] == ps[i]; }
    }
  }

  lemma {:induction false} ClearedAllFields(d: Document, ps: seq<Path>, f: Field)
    ensures Has(ClearedAll(d, ps), f) <==> Has(d, f) && !CoveredBy(ps, f)
  {
    if ps != [] {
      var front, p := ps[..|ps| - 1], ps[|ps| - 1];
      ClearedAllFields(d, front, f);
      CoveredSplit(ps, f);
      if p.Known? { ClearedFields(ClearedAll(d, front), p.field, f); }
    }
  }

  lemma {:induction false} TrimmedFields(d: Document, f: Field)
    ensures Has(Trimmed(d), f) <==> Has(d, f)
  {
  }

  /** After Restore(P) exactly the fields neither in P nor below a path of P are left. */
  lemma {:induction false} RestoredFields(d: Document, ps: seq<Path>, f: Field)
    requires Restore(d, ps).Ok?
    ensures f in Fields(Restore(d, ps).value) <==> f in Fields(d) && !CoveredBy(ps, f)
  {
    FieldsAre(d, f);
    FieldsAre(Restore(d, ps).value, f);
    ClearedAllFields(d, ps, f);
    TrimmedFields(ClearedAll(d, ps), f);
  }

  function AllKnown(fs: seq<Field>): (ps: seq<Path>)
    ensures |ps| == |fs| && forall i :: 0 <= i < |fs| ==> ps[i] == Known(fs[i])
  {
    seq(|fs|, i requires 0 <= i < |fs| => Known(fs[i]))
  }

  lemma {:induction false} NothingLeft(d: Document)
    requires forall f :: !Has(d, f)
    ensures IsEmpty(d)
  {
    assert !Has(d, NameF) && !Has(d, ProtocolF) && !Has(d, EndpointF) && !Has(d, TransportF) && !Has(d, FeaturesF);
    assert !Has(d, AuthF) && !Has(d, SecurityF);
  }

  lemma {:induction false} SelectDistinct(d: Document, fs: seq<Field>)
    requires Distinct(fs)
    ensures Distinct(Select(d, fs))
  {
    if fs != [] {
      SelectDistinct(d, fs[1..]);
      SelectHas(d, fs[1..], fs[0]);
      assert fs[0] !in fs[1..];
    }
  }

  /** The place of a field in the order. */
  function Rank(f: Field): nat {
    match f
    case AuthF => 0 case CipherF => 1 case MethodF => 2 case PasswordF => 3 case UsernameF => 4 case UUIDF => 5
    case EndpointF => 6 case FeaturesF => 7 case NameF => 8 case ProtocolF => 9 case SecurityF => 10 case ALPNF => 11
    case FingerprintF => 12 case PublicKeyF => 13 case ServerNameF => 14 case ShortIdF => 15 case VerifyF => 16
    case TransportF => 17
  }

  lemma {:induction false} OrderAt(i: nat)
    requires i < |ORDER|
    ensures Rank(ORDER[i]) == i
  {
  }

  lemma {:induction false} OrderDistinct()
    ensures Distinct(ORDER)
  {
    forall i, j | 0 <= i < j < |ORDER| ensures ORDER[i] != ORDER[j] {
      OrderAt(i);
      OrderAt(j);
    }
  }

  /** Restoring everything that is overridden is accepted and leaves the empty document. */
  lemma {:induction false} RestoreEverything(d: Document)
    ensures var r := Restore(d, AllKnown(Fields(d)));
            r.Ok? && IsEmpty(r.value) && (Fields(d) != [] ==> r.value == EMPTY)
  {
    var ps := AllKnown(Fields(d));
    OrderDistinct();
    SelectDistinct(d, ORDER);
    assert PathsOK(ps);
    var r := Restore(d, ps).value;
    forall f ensures !Has(r, f) {
      RestoredFields(d, ps, f);
      FieldsAre(r, f);
      FieldsAre(d, f);
      if f in Fields(d) {
        var i :| 0 <= i < |Fields(d)| && Fields(d)[i] == f;
        assert ps[i] == Known(f) && Covers(ps[i].field, f);
      }
    }
    NothingLeft(r);
  }

  // ---- What clearing takes from a record ----

  /** f is strictly below top. */
  predicate Below(f: Field, top: Field) { Above(f) == top && f != top }

  /** The paths a restore clears before it stops at an unknown or repeated one. */
  function Processed(ps: seq<Path>): seq<Path> { if ps == [] || PathsOK(ps) then ps else Processed(ps[..|ps| - 1]) }

  lemma {:induction false} ProcessedIs(ps: seq<Path>, i: nat)
    requires i < |ps| && PathsOK(ps[..i]) && !PathsOK(ps[..i + 1])
    ensures Processed(ps) == ps[..i]
  {
    if |ps| == i + 1 {
      assert ps[..i + 1] == ps;
    } else {
      var front := ps[..|ps| - 1];
      assert front[..i] == ps[..i] && front[..i + 1] == ps[..i + 1];
      PathsPrefix(ps, i + 1);
      ProcessedIs(front, i);
    }
  }

  lemma {:induction false} PathsPrefix(ps: seq<Path>, k: nat)
    requires k <= |ps|
    ensures PathsOK(ps) ==> PathsOK(ps[..k])
  {
  }

  /** Some restored path of the node is overridden. */
  ghost predicate Loses(d: Document, ps: seq<Path>) {
    exists i :: 0 <= i < |ps| && ps[i].Known? && ps[i].field != NameF && Has(d, ps[i].field)
  }

  /** Some restored path strictly below top is overridden, and top itself is not restored before it. */
  ghost predicate LosesBelow(d: Document, ps: seq<Path>, top: Field) {
    exists i :: 0 <= i < |ps| && LostAt(d, ps, top, i)
  }

  ghost predicate LostAt(d: Document, ps: seq<Path>, top: Field, i: nat)
    requires i < |ps|
  {
    ps[i].Known? && Below(ps[i].field, top) && Has(d, ps[i].field) && Known(top) !in ps[..i]
  }

  /** Clearing what is not overridden changes nothing. */
  lemma {:induction false} ClearedAbsent(d: Document, p: Field)
    requires p == NameF || !Has(d, p)
    ensures Cleared(d, p).node == d.node
  {
  }

  lemma {:induction false} LosesSplit(d: Document, ps: seq<Path>)
    requires ps != []
    ensures var p := ps[|ps| - 1];
            Loses(d, ps) <==> Loses(d, ps[..|ps| - 1]) || (p.Known? && p.field != NameF && Has(d, p.field))
  {
    var front := ps[..|ps| - 1];
    assert forall i :: 0 <= i < |front| ==> front[i] == ps[i];
    if Loses(d, ps) {
      var i :| 0 <= i < |ps| && ps[i].Known? && ps[i].field != NameF && Has(d, ps[i].field);
      if i < |front| { assert front[i].Known?; }
    }
    if Loses(d, front) {
      var i :| 0 <= i < |front| && front[i].Known? && front[i].field != NameF && Has(d, front[i].field);
      assert ps[i].Known?;
    }
  }

  lemma {:induction false} SameNodeHas(d: Document, e: Document, f: Field)
    requires d.node == e.node && f != NameF
    ensures Has(d, f) == Has(e, f)
  {
  }

  /** Clearing paths leaves the node as it was if and only if none of them is overridden. */
  lemma {:induction false} ClearedAllSame(d: Document, ps: seq<Path>)
    ensures ClearedAll(d, ps).node == d.node <==> !Loses(d, ps)
  {
    if Loses(d, ps) {
      var i :| 0 <= i < |ps| && ps[i].Known? && ps[i].field != NameF && Has(d, ps[i].field);
      ClearedAllFields(d, ps, ps[i].field);
      assert Covers(ps[i].field, ps[i].field);
      if ClearedAll(d, ps).node == d.node { SameNodeHas(d, ClearedAll(d, ps), ps[i].field); }
    } else if ps != [] {
      var front, p := ps[..|ps| - 1], ps[|ps| - 1];
      LosesSplit(d, ps);
      ClearedAllSame(d, front);
      if p.Known? && p.field != NameF { SameNodeHas(d, ClearedAll(d, front), p.field); }
      if p.Known? { ClearedAbsent(ClearedAll(d, front), p.field); }
    }
  }

  /** The name does not matter to the node. */
  lemma {:induction false} ClearedAllNode(d: Document, e: Document, ps: seq<Path>)
    requires d.node == e.node
    ensures ClearedAll(d, ps).node == ClearedAll(e, ps).node
  {
    if ps != [] { ClearedAllNode(d, e, ps[..|ps| - 1]); }
  }

  /** What is left in an authentication record that a patch points to until the path above it is cleared. */
  function AuthLeft(a: AuthPatch, ps: seq<Path>): AuthPatch {
    if ps == [] then a
    else
      var front, p := ps[..|ps| - 1], ps[|ps| - 1];
      if p.Known? && Below(p.field, AuthF) && Known(AuthF) !in front then ClearAuth(AuthLeft(a, front), p.field)
          else AuthLeft(a, front)
  }

  function SecurityLeft(s: SecurityPatch, ps: seq<Path>): SecurityPatch {
    if ps == [] then s
    else
      var front, p := ps[..|ps| - 1], ps[|ps| - 1];
      if p.Known? && Below(p.field, SecurityF) && Known(SecurityF) !in front
          then ClearSecurity(SecurityLeft(s, front), p.field)
      else SecurityLeft(s, front)
  }

  /** What is left of a patch whose records are shared, each until the path above it is cleared. */
  function LeftBehind(n: NodePatch, ps: seq<Path>, auth: bool, security: bool): NodePatch {
    n.(auth := if n.auth.Some? && auth then Some(AuthLeft(n.auth.value, ps)) else n.auth,
       security := if n.security.Some? && security then Some(SecurityLeft(n.security.value, ps)) else n.security)
  }

  lemma {:induction false} LeftBehindSame(d: Document, ps: seq<Path>, auth: bool, security: bool)
    requires d.node.Some?
    ensures LeftBehind(d.node.value, ps, auth, security) == d.node.value <==>
            && !(auth && HasAuth(d) && LosesBelow(d, ps, AuthF))
            && !(security && HasSecurity(d) && LosesBelow(d, ps, SecurityF))
  {
    if HasAuth(d) { AuthLeftSame(d, ps); }
    if HasSecurity(d) { SecurityLeftSame(d, ps); }
  }

  /** One path more. */
  lemma {:induction false} LeftStep(a: Option<AuthPatch>, s: Option<SecurityPatch>, ps: seq<Path>, i: nat)
    requires i < |ps| && ps[i].Known?
    ensures forall top :: Known(top) in ps[..i + 1] <==> Known(top) in ps[..i] || ps[i].field == top
    ensures a.Some? ==>
              AuthLeft(a.value, ps[..i + 1]) ==
              if Below(ps[i].field, AuthF) && Known(AuthF) !in ps[..i]
                  then ClearAuth(AuthLeft(a.value, ps[..i]), ps[i].field)
              else AuthLeft(a.value, ps[..i])
    ensures s.Some? ==>
              SecurityLeft(s.value, ps[..i + 1]) ==
              if Below(ps[i].field, SecurityF) && Known(SecurityF) !in ps[..i]
              then ClearSecurity(SecurityLeft(s.value, ps[..i]), ps[i].field) else SecurityLeft(s.value, ps[..i])
  {
    var next := ps[..i + 1];
    assert next[..i] == ps[..i] && next[i] == ps[i] && next == ps[..i] + [ps[i]];
  }

  lemma {:induction false} ClearedStep(d: Document, ps: seq<Path>, i: nat)
    requires i < |ps| && ps[i].Known?
    ensures ClearedAll(d, ps[..i + 1]) == Cleared(ClearedAll(d, ps[..i]), ps[i].field)
  {
    assert ps[..i + 1][..i] == ps[..i];
  }

  predicate AuthSets(a: AuthPatch, f: Field) { Has(Document(None, Some(EMPTY_PATCH.(auth := Some(a)))), f) }
  predicate SecuritySets(s: SecurityPatch, f: Field) { Has(Document(None, Some(EMPTY_PATCH.(security := Some(s)))), f) }

  lemma {:induction false} ClearAuthSets(a: AuthPatch, p: Field, f: Field)
    requires Below(p, AuthF) && Below(f, AuthF)
    ensures AuthSets(ClearAuth(a, p), f) <==> AuthSets(a, f) && f != p
    ensures !AuthSets(a, p) ==> ClearAuth(a, p) == a
  {
  }

  lemma {:induction false} ClearSecuritySets(s: SecurityPatch, p: Field, f: Field)
    requires Below(p, SecurityF) && Below(f, SecurityF)
    ensures SecuritySets(ClearSecurity(s, p), f) <==> SecuritySets(s, f) && f != p
    ensures !SecuritySets(s, p) ==> ClearSecurity(s, p) == s
  {
  }

  lemma {:induction false} LosesBelowSplit(d: Document, ps: seq<Path>, top: Field)
    requires ps != []
    ensures LosesBelow(d, ps, top) <==> LosesBelow(d, ps[..|ps| - 1], top) || LostAt(d, ps, top, |ps| - 1)
  {
    var front := ps[..|ps| - 1];
    forall i | 0 <= i < |front| ensures LostAt(d, ps, top, i) <==> LostAt(d, front, top, i) {
      assert front[i] == ps[i] && front[..i] == ps[..i];
    }
  }

  /** What is gone stays gone. */
  lemma {:induction false} AuthLeftSets(a: AuthPatch, ps: seq<Path>, f: Field)
    requires Below(f, AuthF)
    ensures AuthSets(AuthLeft(a, ps), f) ==> AuthSets(a, f)
    ensures AuthSets(AuthLeft(a, ps), f) ==> forall i :: 0 <= i < |ps| && ps[i] == Known(f) ==> Known(AuthF) in ps[..i]
  {
    if ps != [] {
      var front, p := ps[..|ps| - 1], ps[|ps| - 1];
      AuthLeftSets(a, front, f);
      if p.Known? && Below(p.field, AuthF) { ClearAuthSets(AuthLeft(a, front), p.field, f); }
      forall i | AuthSets(AuthLeft(a, ps), f) && 0 <= i < |ps| && ps[i] == Known(f) ensures Known(AuthF) in ps[..i] {
        if i < |front| { assert front[i] == ps[i] && front[..i] == ps[..i]; }
      }
    }
  }

  lemma {:induction false} SecurityLeftSets(s: SecurityPatch, ps: seq<Path>, f: Field)
    requires Below(f, SecurityF)
    ensures SecuritySets(SecurityLeft(s, ps), f) ==> SecuritySets(s, f)
    ensures SecuritySets(SecurityLeft(s, ps), f) ==> forall i :: 0 <= i < |ps| && ps[i] == Known(f) ==>
            Known(SecurityF) in ps[..i]
  {
    if ps != [] {
      var front, p := ps[..|ps| - 1], ps[|ps| - 1];
      SecurityLeftSets(s, front, f);
      if p.Known? && Below(p.field, SecurityF) { ClearSecuritySets(SecurityLeft(s, front), p.field, f); }
      forall i | SecuritySets(SecurityLeft(s, ps), f) && 0 <= i < |ps| && ps[i] == Known(f)
          ensures Known(SecurityF) in ps[..i] {
        if i < |front| { assert front[i] == ps[i] && front[..i] == ps[..i]; }
      }
    }
  }

  /** A shared authentication record survives if and only if nothing set in it is cleared while it is pointed to. */
  lemma {:induction false} AuthLeftSame(d: Document, ps: seq<Path>)
    requires HasAuth(d)
    ensures AuthLeft(d.node.value.auth.value, ps) == d.node.value.auth.value <==> !LosesBelow(d, ps, AuthF)
  {
    var a := d.node.value.auth.value;
    if LosesBelow(d, ps, AuthF) {
      var i :| 0 <= i < |ps| && LostAt(d, ps, AuthF, i);
      AuthLeftSets(a, ps, ps[i].field);
    } else if ps != [] {
      LosesBelowSplit(d, ps, AuthF);
      AuthLeftSame(d, ps[..|ps| - 1]);
      var p := ps[|ps| - 1];
      if p.Known? && Below(p.field, AuthF) { ClearAuthSets(a, p.field, p.field); }
    }
  }

  lemma {:induction false} SecurityLeftSame(d: Document, ps: seq<Path>)
    requires HasSecurity(d)
    ensures SecurityLeft(d.node.value.security.value, ps) == d.node.value.security.value <==>
            !LosesBelow(d, ps, SecurityF)
  {
    var s := d.node.value.security.value;
    if LosesBelow(d, ps, SecurityF) {
      var i :| 0 <= i < |ps| && LostAt(d, ps, SecurityF, i);
      SecurityLeftSets(s, ps, ps[i].field);
    } else if ps != [] {
      LosesBelowSplit(d, ps, SecurityF);
      SecurityLeftSame(d, ps[..|ps| - 1]);
      var p := ps[|ps| - 1];
      if p.Known? && Below(p.field, SecurityF) { ClearSecuritySets(s, p.field, p.field); }
    }
  }
}
