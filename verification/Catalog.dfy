/**
 Resource revisions (internal/catalog/resource.go): New, Apply, Revoke and Delete, and what holds
 over every history they can produce. Schema validity and decoding are one opaque predicate; a clone
 differs from its original only in the order of its tags.
 */
module Catalog {
  import opened Prelude

  const MAX_INT64 := 9223372036854775807

  type Id = string

  datatype Kind = NodeKind | PresetKind | OtherKind(name: string)

  /** Authentication with its kind, compared as a whole. */
  datatype Auth = Auth(kind: string, secrets: seq<string>)

  datatype RealityKeys = RealityKeys(publicKey: string, shortId: string)

  datatype Payload =
    | Node(auth: Auth, reality: Option<RealityKeys>, connection: string)
    | Preset(content: string)
    | Other(kindName: string, content: string)

  datatype Resource = Resource(
    id: Id, scope: Id, kind: Kind, revision: int, name: string, tags: seq<string>, enabled: bool, epoch: int,
    payload: Payload)

  datatype Input = Input(name: string, tags: seq<string>, enabled: bool, payload: Payload)

  datatype Error = InvalidInput

  /** resource.Validate and the origin checks of Canonical. */
  type Validity = Resource -> bool

  function PayloadKind(p: Payload): Kind {
    match p
    case Node(_, _, _) => NodeKind
    case Preset(_) => PresetKind
    case Other(name, _) => OtherKind(name)
  }

  function Identity(s: string): string { s }

  /** Tags form a set: they are stored sorted. */
  function Sorted(r: Resource): Resource { r.(tags := SortBy(r.tags, Identity)) }

  function Clone(valid: Validity, r: Resource): Result<Resource, Error> {
    if valid(Sorted(r)) then Ok(Sorted(r)) else Err(InvalidInput)
  }

  function New(valid: Validity, id: Id, scope: Id, input: Input): Result<Resource, Error> {
    if input.payload.Preset? then Err(InvalidInput)
    else Clone(valid,
               Resource(id, scope, PayloadKind(input.payload), 1, input.name, input.tags, input.enabled, 1,
                        input.payload))
  }

  /** The credentials of a node changed: its authentication, or its REALITY keys. */
  predicate CredentialsChanged(before: Payload, after: Payload) {
    before.Node? && after.Node? && (before.auth != after.auth || before.reality != after.reality)
  }

  /** The comparison of the source: whether REALITY is used at all, and each key when it is. */
  predicate AuthChanged(before: Payload, after: Payload) {
    before.Node? && after.Node? &&
    (|| before.auth != after.auth
     || before.reality.Some? != after.reality.Some?
     || (before.reality.Some? && (before.reality.value.publicKey != after.reality.value.publicKey
                                  || before.reality.value.shortId != after.reality.value.shortId)))
  }

  lemma {:induction false} AuthChangedIsCredentials(before: Payload, after: Payload)
    ensures AuthChanged(before, after) <==> CredentialsChanged(before, after)
  {
  }

  method Apply(valid: Validity, old_: Resource, input: Input) returns (r: Result<Resource, Error>)
    ensures r == Applied(valid, old_, input)
  {
    if old_.kind == PresetKind { return Err(InvalidInput); }
    if !valid(Sorted(old_)) { return Err(InvalidInput); }
    if old_.revision == MAX_INT64 || PayloadKind(input.payload) != old_.kind { return Err(InvalidInput); }
    var next := old_;
    next := next.(revision := next.revision + 1);
    next := next.(name := input.name, tags := input.tags, enabled := input.enabled);
    next := next.(payload := input.payload);
    if !valid(Sorted(next)) { return Err(InvalidInput); }
    var authChanged := AuthChanged(old_.payload, next.payload);
    if authChanged || (old_.enabled && !input.enabled) {
      if next.epoch == MAX_INT64 { return Err(InvalidInput); }
      next := next.(epoch := next.epoch + 1);
    }
    r := Clone(valid, next);
  }

  /** The next revision: the edited fields, and a new epoch exactly for new credentials or a disable. */
  function Applied(valid: Validity, old_: Resource, input: Input): Result<Resource, Error> {
    var edited := old_.(revision := old_.revision + 1, name := input.name, tags := input.tags,
                        enabled := input.enabled, payload := input.payload);
    var revoking := CredentialsChanged(old_.payload, input.payload) || (old_.enabled && !input.enabled);
    if old_.kind == PresetKind || !valid(Sorted(old_)) || old_.revision == MAX_INT64
        || PayloadKind(input.payload) != old_.kind
       || !valid(Sorted(edited)) || (revoking && old_.epoch == MAX_INT64)
    then Err(InvalidInput)
    else Clone(valid, if revoking then edited.(epoch := old_.epoch + 1) else edited)
  }

  method Invalidate(valid: Validity, old_: Resource, disable: bool) returns (r: Result<Resource, Error>)
    ensures r == Invalidated(valid, old_, disable)
  {
    if old_.kind == PresetKind { return Err(InvalidInput); }
    if old_.revision == MAX_INT64 || old_.epoch == MAX_INT64 { return Err(InvalidInput); }
    var copy := Clone(valid, old_);
    if copy.Err? { return copy; }
    var next := copy.value;
    next := next.(revision := next.revision + 1);
    next := next.(epoch := next.epoch + 1);
    if disable { next := next.(enabled := false); }
    r := Ok(next);
  }

  /** Revoke and Delete: both end the epoch; deleting also disables. */
  function Invalidated(valid: Validity, old_: Resource, disable: bool): Result<Resource, Error> {
    if old_.kind == PresetKind || old_.revision == MAX_INT64 || old_.epoch == MAX_INT64 || !valid(Sorted(old_))
        then Err(InvalidInput)
    else Ok(Sorted(old_).(revision := old_.revision + 1, epoch := old_.epoch + 1, enabled := !disable && old_.enabled))
  }

  // ---- Histories ----

  /** One successful edit, revocation or deletion. */
  ghost predicate Step(valid: Validity, a: Resource, b: Resource) {
    || (exists input :: Applied(valid, a, input) == Ok(b))
    || (exists disable :: Invalidated(valid, a, disable) == Ok(b))
  }

  ghost predicate History(valid: Validity, h: seq<Resource>) {
    && h != [] && (exists id, scope, input :: New(valid, id, scope, input) == Ok(h[0]))
    && forall i :: 0 <= i < |h| - 1 ==> Step(valid, h[i], h[i + 1])
  }

  predicate SameCredentials(a: Payload, b: Payload) {
    a.Node? == b.Node? && (a.Node? ==> a.auth == b.auth && a.reality == b.reality)
  }

  /**
   One step: the revision grows by one; the epoch stays or grows by one, and stays only with the same
   credentials and no disable.
   */
  lemma {:induction false} StepFacts(valid: Validity, a: Resource, b: Resource)
    requires Step(valid, a, b) && PayloadKind(a.payload) == a.kind
    ensures b.revision == a.revision + 1 && (b.epoch == a.epoch || b.epoch == a.epoch + 1)
    ensures b.epoch == a.epoch ==> SameCredentials(a.payload, b.payload) && (a.enabled ==> b.enabled)
    ensures b.id == a.id && b.scope == a.scope && b.kind == a.kind && PayloadKind(b.payload) == b.kind
  {
  }

  ghost predicate Follows(a: Resource, b: Resource) {
    && b.revision == a.revision + 1 && (b.epoch == a.epoch || b.epoch == a.epoch + 1)
    && (b.epoch == a.epoch ==> SameCredentials(a.payload, b.payload) && (a.enabled ==> b.enabled))
    && b.id == a.id
  }

  ghost predicate Chained(h: seq<Resource>) { forall i :: 0 <= i < |h| - 1 ==> Follows(h[i], h[i + 1]) }

  lemma {:induction false} HistoryKinds(valid: Validity, h: seq<Resource>, i: nat)
    requires History(valid, h) && i < |h|
    ensures PayloadKind(h[i].payload) == h[i].kind
  {
    if i > 0 {
      HistoryKinds(valid, h, i - 1);
      assert Step(valid, h[i - 1], h[i - 1 + 1]);
      StepFacts(valid, h[i - 1], h[i]);
    }
  }

  lemma {:induction false} HistoryChained(valid: Validity, h: seq<Resource>)
    requires History(valid, h)
    ensures Chained(h) && h != [] && h[0].revision == 1 && h[0].epoch == 1
  {
    forall i | 0 <= i < |h| - 1 ensures Follows(h[i], h[i + 1]) {
      HistoryKinds(valid, h, i);
      StepFacts(valid, h[i], h[i + 1]);
    }
  }

  lemma {:induction false} Counted(h: seq<Resource>, i: nat)
    requires Chained(h) && i < |h| && h[0].revision == 1 && h[0].epoch == 1
    ensures h[i].revision == 1 + i && 1 <= h[i].epoch <= h[i].revision && h[i].id == h[0].id
  {
    if i > 0 {
      Counted(h, i - 1);
      assert Follows(h[i - 1], h[i - 1 + 1]);
    }
  }

  /** Along a history the epoch never decreases. */
  lemma {:induction false} EpochGrows(h: seq<Resource>, i: nat, j: nat)
    requires Chained(h) && i <= j < |h|
    ensures h[i].epoch <= h[j].epoch
    decreases j - i
  {
    if i < j {
      EpochGrows(h, i, j - 1);
      assert Follows(h[j - 1], h[j - 1 + 1]);
    }
  }

  lemma {:induction false} SameTransitive(a: Payload, b: Payload, c: Payload)
    requires SameCredentials(a, b) && SameCredentials(b, c)
    ensures SameCredentials(a, c)
  {
  }

  /** Between two revisions of one epoch nothing was disabled and the credentials are the same throughout. */
  lemma {:induction false} EqualEpochs(h: seq<Resource>, i: nat, k: nat, j: nat)
    requires Chained(h) && i <= k <= j < |h| && h[i].epoch == h[j].epoch
    ensures h[k].epoch == h[i].epoch && SameCredentials(h[i].payload, h[k].payload)
    decreases k - i
  {
    EpochGrows(h, i, k);
    EpochGrows(h, k, j);
    if i < k {
      EqualEpochs(h, i, k - 1, j);
      assert Follows(h[k - 1], h[k - 1 + 1]);
      SameTransitive(h[i].payload, h[k - 1].payload, h[k].payload);
    }
  }

  lemma {:induction false} NeverDisabled(h: seq<Resource>, i: nat, k: nat, j: nat)
    requires Chained(h) && i <= k < j < |h| && h[i].epoch == h[j].epoch && h[k].enabled
    ensures h[k + 1].enabled
  {
    EqualEpochs(h, i, k, j);
    EqualEpochs(h, i, k + 1, j);
    assert Follows(h[k], h[k + 1]);
  }

  /**
   Every history: revisions count from one without gaps, the epoch never exceeds the revision and
   never goes back, and a published epoch pins the credentials and the enabled flag.
   */
  lemma {:induction false} HistorySafe(valid: Validity, h: seq<Resource>)
    requires History(valid, h)
    ensures forall i :: 0 <= i < |h| ==> h[i].revision == i + 1 && h[i].epoch <= h[i].revision && h[i].id == h[0].id
    ensures forall i, j :: 0 <= i <= j < |h| ==> h[i].epoch <= h[j].epoch
    ensures forall i, k, j :: 0 <= i <= k <= j < |h| && h[i].epoch == h[j].epoch ==>
            SameCredentials(h[i].payload, h[k].payload)
    ensures forall i, k, j :: 0 <= i <= k < j < |h| && h[i].epoch == h[j].epoch && h[k].enabled ==> h[k + 1].enabled
  {
    HistoryChained(valid, h);
    forall i | 0 <= i < |h| ensures h[i].revision == i + 1 && h[i].epoch <= h[i].revision
        && h[i].id == h[0].id { Counted(h, i); }
    forall i, j | 0 <= i <= j < |h| ensures h[i].epoch <= h[j].epoch { EpochGrows(h, i, j); }
    forall i, k, j | 0 <= i <= k <= j < |h| && h[i].epoch == h[j].epoch
        ensures SameCredentials(h[i].payload, h[k].payload) {
      EqualEpochs(h, i, k, j);
    }
    forall i, k, j | 0 <= i <= k < j < |h| && h[i].epoch == h[j].epoch && h[k].enabled ensures h[k + 1].enabled {
      NeverDisabled(h, i, k, j);
    }
  }

  /** An edit that touches neither credentials nor disables keeps the epoch, also when it re-enables. */
  lemma {:induction false} EditKeepsEpoch(valid: Validity, a: Resource, input: Input, b: Resource)
    requires Applied(valid, a, input) == Ok(b)
    ensures b.epoch == a.epoch <==> !CredentialsChanged(a.payload, input.payload) && (a.enabled ==> input.enabled)
  {
  }

  /** Revoking and deleting always end the epoch, and deleting leaves the resource disabled. */
  lemma {:induction false} InvalidationEndsEpoch(valid: Validity, a: Resource, disable: bool, b: Resource)
    requires Invalidated(valid, a, disable) == Ok(b)
    ensures b.epoch > a.epoch && b.revision > a.revision && (disable ==> !b.enabled)
    ensures (!disable ==> b.enabled == a.enabled)
    ensures SameCredentials(a.payload, b.payload)
  {
  }
}
