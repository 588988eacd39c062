/**
 Restore and Combine as the source runs them (internal/override/override.go): a document points to a
 patch, and clearing a field writes through the pointer. The result has the value that module Overlay
 gives it; the patch the caller passed in may have been changed on the way.
 */
module OverlayHeap {
  import opened Prelude
  import Overlay
  import opened Bound

  type Path = Overlay.Path
  type Field = Overlay.Field

  class AuthPatch {
    var value: Overlay.AuthPatch

    constructor (value: Overlay.AuthPatch)
      ensures this.value == value
    {
      this.value := value;
    }
  }

  class SecurityPatch {
    var value: Overlay.SecurityPatch

    constructor (value: Overlay.SecurityPatch)
      ensures this.value == value
    {
      this.value := value;
    }
  }

  /** A patch record; auth and security are pointers that records may share. */
  class NodePatch {
    var protocol: Option<string>
    var endpoint: Option<Overlay.Endpoint>
    var auth: AuthPatch?
    var transport: Option<Overlay.TransportInput>
    var security: SecurityPatch?
    var features: Option<Overlay.Features>

    constructor ()
      ensures protocol.None? && endpoint.None? && auth == null && transport.None? && security == null && features.None?
    {
      protocol, endpoint, auth, transport, security, features := None, None, null, None, null, None;
    }

    ghost function Value(): Overlay.NodePatch
      reads this, auth, security
    {
      Overlay.NodePatch(protocol, endpoint, if auth == null then None else Some(auth.value), transport,
                        if security == null then None else Some(security.value), features)
    }

    predicate Empty()
      reads this
    {
      protocol.None? && endpoint.None? && auth == null && transport.None? && security == null && features.None?
    }

    /** next = *old: the pointers are shared with the original. */
    method CopyFrom(other: NodePatch)
      modifies this
      ensures protocol == other.protocol && endpoint == other.endpoint && transport == other.transport
      ensures features == other.features
      ensures auth == other.auth && security == other.security
    {
      protocol, endpoint, auth := other.protocol, other.endpoint, other.auth;
      transport, security, features := other.transport, other.security, other.features;
    }

    /** One case of the switch, for a path of the node. */
    method ClearField(f: Field)
      requires f != Overlay.NameF
      modifies this, auth, security
      ensures Value() == Overlay.ClearNode(old(Value()), f)
      ensures auth == (if f == Overlay.AuthF then null else old(auth))
      ensures security == (if f == Overlay.SecurityF then null else old(security))
      ensures old(auth) != null ==>
                old(auth).value == if Overlay.Below(f, Overlay.AuthF) then Overlay.ClearAuth(old(auth.value), f)
                    else old(auth.value)
      ensures old(security) != null ==>
                old(security).value ==
                if Overlay.Below(f, Overlay.SecurityF) then Overlay.ClearSecurity(old(security.value), f)
                    else old(security.value)
    {
      match f {
        case ProtocolF => protocol := None;
        case EndpointF => endpoint := None;
        case TransportF => transport := None;
        case FeaturesF => features := None;
        case AuthF => auth := null;
        case SecurityF => security := null;
        case PasswordF => if auth != null { auth.value := auth.value.(password := Overlay.Absent); }
        case UUIDF => if auth != null { auth.value := auth.value.(uuid := Overlay.Absent); }
        case UsernameF => if auth != null { auth.value := auth.value.(username := Overlay.Absent); }
        case MethodF => if auth != null { auth.value := auth.value.(method_ := None); }
        case CipherF => if auth != null { auth.value := auth.value.(cipher := None); }
        case ServerNameF => if security != null { security.value := security.value.(serverName := None); }
        case VerifyF => if security != null { security.value := security.value.(verify := None); }
        case ALPNF => if security != null { security.value := security.value.(alpn := None); }
        case FingerprintF => if security != null { security.value := security.value.(fingerprint := Overlay.Absent); }
        case PublicKeyF => if security != null { security.value := security.value.(publicKey := Overlay.Absent); }
        case ShortIdF => if security != null { security.value := security.value.(shortId := Overlay.Absent); }
      }
    }
  }

  /** A document value holds its name and a pointer. */
  datatype Document = Document(name: Option<string>, node: NodePatch?)

  ghost function NodeValue(n: NodePatch?): Option<Overlay.NodePatch>
    reads n, if n == null then {} else {n.auth, n.security}
  {
    if n == null then None else Some(n.Value())
  }

  ghost function Value(d: Document): Overlay.Document
    reads d.node, if d.node == null then {} else {d.node.auth, d.node.security}
  {
    Overlay.Document(d.name, NodeValue(d.node))
  }

  /** The paths before index i are known and differ. */
  lemma {:induction false} PathsNext(ps: seq<Path>, i: nat)
    requires i < |ps|
    ensures Overlay.PathsOK(ps[..i + 1]) <==> Overlay.PathsOK(ps[..i]) && ps[i].Known? && ps[i] !in ps[..i]
    ensures Overlay.PathsOK(ps) ==> Overlay.PathsOK(ps[..i + 1])
  {
    assert forall k :: 0 <= k < i ==> ps[..i + 1][k] == ps[..i][k];
    assert ps[..i + 1][i] == ps[i];
  }

  /** The pointers of a record after some paths, and what is left in the records a and s they pointed to. */
  ghost predicate Cleared(n: NodePatch, was: Overlay.NodePatch, a: AuthPatch?, s: SecurityPatch?, ps: seq<Path>)
    reads n, a, s
  {
    && n.auth == (if Overlay.Known(Overlay.AuthF) in ps then null else a)
    && n.security == (if Overlay.Known(Overlay.SecurityF) in ps then null else s)
    && (a != null ==> was.auth.Some? && a.value == Overlay.AuthLeft(was.auth.value, ps))
    && (s != null ==> was.security.Some? && s.value == Overlay.SecurityLeft(was.security.value, ps))
  }

  /**
   Restore clears each path in place. A refusal comes after the paths before the offending one were
   already cleared, in the patch that was passed in as well.
   */
  method Restore(d: Document, ps: seq<Path>) returns (r: Result<Document, Overlay.Error>)
    modifies d.node, if d.node == null then {} else {d.node.auth, d.node.security}
    ensures r.Ok? <==> Overlay.Restore(old(Value(d)), ps).Ok?
    ensures r.Ok? ==> Value(r.value) == Overlay.Restore(old(Value(d)), ps).value
    ensures r.Err? ==> r.error == Overlay.ErrRestore
    ensures NodeValue(d.node) == Overlay.ClearedAll(old(Value(d)), Overlay.Processed(ps)).node
    ensures d.node != null ==>
              Cleared(d.node, old(d.node.Value()), old(d.node.auth), old(d.node.security), Overlay.Processed(ps))
  {
    if |ps| == 0 { return Ok(d); }
    ghost var was := Value(d);
    var out, ok := ClearPaths(d, ps);
    if !ok { return Err(Overlay.ErrRestore); }
    RestoreAccepted(was, ps);
    if out.node != null && out.node.Empty() { out := out.(node := null); }
    r := Ok(out);
  }

  /** The loop: clears path by path until one is unknown or repeated. */
  method ClearPaths(d: Document, ps: seq<Path>) returns (out: Document, ok: bool)
    modifies d.node, if d.node == null then {} else {d.node.auth, d.node.security}
    ensures ok <==> Overlay.PathsOK(ps)
    ensures out.node == d.node && Value(out) == Overlay.ClearedAll(old(Value(d)), Overlay.Processed(ps))
    ensures d.node != null ==>
            Cleared(d.node, old(d.node.Value()), old(d.node.auth), old(d.node.security), Overlay.Processed(ps))
  {
    ghost var was := Value(d);
    ghost var a, s := if d.node == null then null else d.node.auth, if d.node == null then null else d.node.security;
    var seen: set<Path> := {};
    out, ok := d, true;
    var i := 0;
    while i < |ps|
      invariant 0 <= i <= |ps| && out.node == d.node
      invariant seen == ToSet(ps[..i])
      invariant Overlay.PathsOK(ps[..i])
      invariant Value(out) == Overlay.ClearedAll(was, ps[..i])
      invariant d.node != null ==> Cleared(d.node, was.node.value, a, s, ps[..i])
    {
      PathsNext(ps, i);
      if ps[i] in seen || ps[i].Unknown? {
        RestoreRefused(was, ps, i);
        ok := false;
        return;
      }
      SeenNext(ps, i);
      seen := seen + {ps[i]};
      Overlay.ClearedStep(was, ps, i);
      out := ClearPath(out, ps[i].field, a, s, was, ps, i);
      i := i + 1;
    }
    assert ps[..|ps|] == ps;
  }

  lemma {:induction false} RestoreRefused(was: Overlay.Document, ps: seq<Path>, i: nat)
    requires i < |ps| && Overlay.PathsOK(ps[..i]) && !Overlay.PathsOK(ps[..i + 1])
    ensures !Overlay.PathsOK(ps) && Overlay.Processed(ps) == ps[..i]
  {
    Overlay.ProcessedIs(ps, i);
    Overlay.PathsPrefix(ps, i + 1);
  }

  lemma {:induction false} RestoreAccepted(was: Overlay.Document, ps: seq<Path>)
    requires ps != [] && Overlay.PathsOK(ps)
    ensures Overlay.Restore(was, ps) == Ok(Overlay.Trimmed(Overlay.ClearedAll(was, ps))) && Overlay.Processed(ps) == ps
  {
  }

  lemma {:induction false} SeenNext(ps: seq<Path>, i: nat)
    requires i < |ps|
    ensures ToSet(ps[..i + 1]) == ToSet(ps[..i]) + {ps[i]}
  {
    assert ps[..i + 1] == ps[..i] + [ps[i]];
  }

  /** One turn of the loop. */
  method ClearPath(out: Document, f: Field, ghost a: AuthPatch?, ghost s: SecurityPatch?, ghost was: Overlay.Document,
                   ghost ps: seq<Path>, ghost i: nat) returns (next: Document)
    requires i < |ps| && ps[i] == Overlay.Known(f)
    requires out.node != null ==> was.node.Some? && Cleared(out.node, was.node.value, a, s, ps[..i])
    modifies out.node, if out.node == null then {} else {out.node.auth, out.node.security}
    ensures next.node == out.node && Value(next) == Overlay.Cleared(old(Value(out)), f)
    ensures out.node != null ==> Cleared(out.node, was.node.value, a, s, ps[..i + 1])
  {
    next := out;
    ghost var n := if was.node.Some? then was.node.value else Overlay.EMPTY_PATCH;
    Overlay.LeftStep(n.auth, n.security, ps, i);
    if f == Overlay.NameF {
      next := next.(name := None);
    } else if out.node != null {
      out.node.ClearField(f);
    }
  }

  /** mergeNodePatch: a new record whose auth and security point into the old one or the request. */
  method MergeNodePatch(before: NodePatch?, add: NodePatch) returns (next: NodePatch?)
    requires add.protocol.None?
    ensures NodeValue(next) == Bound.MergePatch(NodeValue(before), add.Value())
    ensures next != null ==> fresh(next)
    ensures next != null ==>
            next.auth == (if add.auth != null then add.auth else if before != null then before.auth else null)
    ensures next != null ==>
            next.security ==
            (if add.security != null then add.security else if before != null then before.security else null)
  {
    var merged := new NodePatch();
    if before != null { merged.CopyFrom(before); }
    if add.endpoint.Some? { merged.endpoint := add.endpoint; }
    if add.auth != null { merged.auth := add.auth; }
    if add.transport.Some? { merged.transport := add.transport; }
    if add.security != null { merged.security := add.security; }
    if add.features.Some? { merged.features := add.features; }
    if merged.Empty() { return null; }
    return merged;
  }

  ghost function Parts(n: NodePatch?): set<object?>
    reads n
  {
    if n == null then {} else {n, n.auth, n.security}
  }

  /** The request leaves the part to the old document's record, or passes that very record. */
  predicate Shares(old_: object?, given: object?) { old_ != null && (given == null || given == old_) }

  /**
   What a restore takes from the old document: through the record itself when the request has no node, else
   through the authentication and security records the new one shares with it.
   */
  ghost predicate WritesThrough(d: Document, node: NodePatch?, restore: seq<Path>)
    reads d.node, node, if d.node == null then {} else {d.node.auth, d.node.security}
  {
    var ps, v := Overlay.Processed(restore), Value(d);
    if node == null then Overlay.Loses(v, ps)
    else
      && d.node != null && node.protocol.None?
      && ((Shares(d.node.auth, node.auth) && Overlay.LosesBelow(v, ps, Overlay.AuthF))
          || (Shares(d.node.security, node.security) && Overlay.LosesBelow(v, ps, Overlay.SecurityF)))
  }

  /** Combine: the value of Overlay's Combine; the old document is changed if and only if the restore writes through. */
  method Combine(d: Document, name: Option<string>, node: NodePatch?, restore: seq<Path>)
    returns (r: Result<Document, Overlay.Error>)
    modifies Parts(d.node), Parts(node)
    ensures r.Ok? <==> Bound.Combine(old(Value(d)), name, old(NodeValue(node)), restore).Ok?
    ensures r.Ok? ==> Value(r.value) == Bound.Combine(old(Value(d)), name, old(NodeValue(node)), restore).value
    ensures r.Err? ==> r.error == Bound.Combine(old(Value(d)), name, old(NodeValue(node)), restore).error
    ensures node == null ==> NodeValue(d.node) == Overlay.ClearedAll(old(Value(d)), Overlay.Processed(restore)).node
    ensures node != null && d.node != null && old(node.protocol.None?) ==>
              d.node.Value() == Overlay.LeftBehind(old(d.node.Value()), Overlay.Processed(restore),
                                                   old(Shares(d.node.auth, node.auth)),
                                                   old(Shares(d.node.security, node.security)))
    ensures Value(d) == old(Value(d)) <==> !old(WritesThrough(d, node, restore))
  {
    var next := d;
    ghost var v, ps := Value(d), Overlay.Processed(restore);
    if name.Some? { next := next.(name := name); }
    if node == null {
      RestoredSame(v, Value(next), ps);
      r := Restore(next, restore);
      return;
    }
    if node.protocol.Some? { return Err(Overlay.ErrProtocol); }
    if d.node != null {
      Overlay.LeftBehindSame(v, ps, Shares(d.node.auth, node.auth), Shares(d.node.security, node.security));
    }
    r := MergeAndRestore(next, node, restore);
  }

  /** The request's node over the old one, then its restored paths cleared. */
  method MergeAndRestore(next: Document, node: NodePatch, restore: seq<Path>)
    returns (r: Result<Document, Overlay.Error>)
    requires node.protocol.None?
    modifies Parts(next.node), Parts(node)
    ensures var merged := old(Value(next)).(node := MergePatch(old(NodeValue(next.node)), old(node.Value())));
            && (r.Ok? <==> Overlay.Restore(merged, restore).Ok?)
                && (r.Ok? ==> Value(r.value) == Overlay.Restore(merged, restore).value)
    ensures r.Err? ==> r.error == Overlay.ErrRestore
    ensures next.node != null ==>
              next.node.Value() == Overlay.LeftBehind(old(next.node.Value()), Overlay.Processed(restore),
                                                      old(Shares(next.node.auth, node.auth)),
                                                      old(Shares(next.node.security, node.security)))
  {
    var merged := MergeNodePatch(next.node, node);
    r := Restore(next.(node := merged), restore);
  }

  lemma {:induction false} RestoredSame(d: Overlay.Document, named: Overlay.Document, ps: seq<Path>)
    requires d.node == named.node
    ensures Overlay.ClearedAll(named, ps).node == Overlay.ClearedAll(d, ps).node
    ensures Overlay.ClearedAll(d, ps).node == d.node <==> !Overlay.Loses(d, ps)
  {
    Overlay.ClearedAllNode(d, named, ps);
    Overlay.ClearedAllSame(d, ps);
  }

  /** A restored endpoint is lost in the old document as well. */
  method CombineWritesThrough() returns (changed: bool)
    ensures changed
  {
    var n := new NodePatch();
    n.endpoint := Some(Overlay.Endpoint("a", 1));
    var d := Document(None, n);
    var ps := [Overlay.Known(Overlay.EndpointF)];
    ghost var was := Value(d);
    assert Overlay.Processed(ps) == ps && ps[..0] == [];
    var r := Combine(d, None, null, ps);
    assert NodeValue(n) == Overlay.Cleared(was, Overlay.EndpointF).node;
    changed := n.endpoint.None?;
  }

  /**
   So is a password, although the request brings a node of its own: the new record points to the old
   authentication.
   */
  method SharedRecordWritesThrough() returns (changed: bool)
    ensures changed
  {
    var n := new NodePatch();
    var q := new NodePatch();
    n.auth := new AuthPatch(Overlay.AuthPatch(Overlay.PasswordKind, None, None, Overlay.Replace("p"), Overlay.Absent,
                                              Overlay.Absent));
    q.endpoint := Some(Overlay.Endpoint("a", 1));
    var ps := [Overlay.Known(Overlay.PasswordF)];
    PasswordLeft(n.Value());
    var r := Combine(Document(None, n), None, q, ps);
    changed := n.auth.value.password.Absent?;
  }

  lemma {:induction false} PasswordLeft(n: Overlay.NodePatch)
    requires n.auth.Some?
    ensures var ps := [Overlay.Known(Overlay.PasswordF)];
            && Overlay.Processed(ps) == ps
            && forall security ::
                 var left := Overlay.LeftBehind(n, ps, true, security).auth; left.Some? && left.value.password.Absent?
  {
    var ps := [Overlay.Known(Overlay.PasswordF)];
    assert ps[..0] == [];
  }
}
