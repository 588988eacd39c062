/**
 Collision-free outbound labels (internal/compiler/label.go).

 Every item starts with an eight character stem of its digest. While two tags coincide, each
 item involved grows its stem by two characters. The closed form proved here: each item ends
 with the shortest even stem that no other item of its kind shares.
 */
module Labels {
  import opened Prelude

  const LABEL_MIN_LEN := 8
  const LABEL_STEP := 2
  const LABEL_HASH_LEN := 64

  datatype ItemKind = NodeLabel | ChainLabel | PolicyLabel

  /** A labelItem; prefix and suffixes follow from the kind, and the key is the material. */
  datatype RawItem = RawItem(kind: ItemKind, material: string)

  function Letter(kind: ItemKind): char {
    match kind
    case NodeLabel => 'n'
    case ChainLabel => 'c'
    case PolicyLabel => 'p'
  }

  /** The constructors give materials of different kinds different first words. */
  predicate Constructed(i: RawItem) { i.material != "" && i.material[0] == Letter(i.kind) }

  type Item = i: RawItem | Constructed(i) witness RawItem(NodeLabel, "n")

  function NodeItem(id: string, revision: int): Item { RawItem(NodeLabel, "node|" + id + "|" + Itoa(revision)) }

  function ChainItem(id: string, revision: int): Item { RawItem(ChainLabel, "chain|" + id + "|" + Itoa(revision)) }

  function PolicyItem(id: string, revision: int): Item { RawItem(PolicyLabel, "policy|" + id + "|" + Itoa(revision)) }

  datatype LabelError = LabelCollision

  function Prefix(kind: ItemKind): string {
    match kind
    case NodeLabel => "n_"
    case ChainLabel => "c_"
    case PolicyLabel => "g_"
  }

  function Suffixes(kind: ItemKind): seq<string> {
    if kind.ChainLabel? then ["_h1", "_h2"] else [""]
  }

  function Material(item: Item): string { item.material }

  function Tag(kind: ItemKind, stem: string, s: nat): string
    requires s < |Suffixes(kind)|
  {
    Prefix(kind) + stem + Suffixes(kind)[s]
  }

  function TagsOf(kind: ItemKind, stem: string): seq<string> {
    seq(|Suffixes(kind)|, s requires 0 <= s < |Suffixes(kind)| => Tag(kind, stem, s))
  }

  // ---- The closed form ----

  type Digest = string -> string

  function Hex(item: Item, digest: Digest): string { digest(Material(item)) }

  ghost predicate DigestsSized(items: seq<Item>, digest: Digest) {
    forall i :: 0 <= i < |items| ==> |Hex(items[i], digest)| == LABEL_HASH_LEN
  }

  /** Items i and j are of one kind and their digests agree on the first n characters. */
  ghost predicate Share(items: seq<Item>, digest: Digest, i: nat, j: nat, n: nat)
    requires i < |items| && j < |items| && DigestsSized(items, digest) && n <= LABEL_HASH_LEN
  {
    items[i].kind == items[j].kind && Hex(items[i], digest)[..n] == Hex(items[j], digest)[..n]
  }

  /** No other item of its kind shares the first n digest characters of item i. */
  ghost predicate Alone(items: seq<Item>, digest: Digest, i: nat, n: nat)
    requires i < |items| && DigestsSized(items, digest) && n <= LABEL_HASH_LEN
  {
    forall j :: 0 <= j < |items| && j != i ==> !Share(items, digest, i, j, n)
  }

  /** Two different positions hold items of one kind with the same complete digest. */
  ghost predicate FullCollision(items: seq<Item>, digest: Digest)
    requires DigestsSized(items, digest)
  {
    exists i, j :: 0 <= i < j < |items| && Share(items, digest, i, j, LABEL_HASH_LEN)
  }

  /** n is the shortest even stem length, at least eight, at which item i stands alone. */
  ghost predicate Shortest(items: seq<Item>, digest: Digest, i: nat, n: nat)
    requires i < |items| && DigestsSized(items, digest)
  {
    && LABEL_MIN_LEN <= n <= LABEL_HASH_LEN && n % 2 == 0
    && Alone(items, digest, i, n)
    && forall m :: LABEL_MIN_LEN <= m < n && m % 2 == 0 ==> !Alone(items, digest, i, m)
  }

  /** labels assigns every item exactly the tags of its shortest distinguishing stem. */
  ghost predicate ShortestLabels(items: seq<Item>, digest: Digest, labels: map<string, seq<string>>)
    requires DigestsSized(items, digest)
  {
    && labels.Keys == (set i | 0 <= i < |items| :: Material(items[i]))
    && forall i :: 0 <= i < |items| ==> ShortestLabel(items, digest, labels, i)
  }

  ghost predicate ShortestLabel(items: seq<Item>, digest: Digest, labels: map<string, seq<string>>, i: nat)
    requires i < |items| && DigestsSized(items, digest)
  {
    && Material(items[i]) in labels
    && exists n: nat :: Shortest(items, digest, i, n)
                && labels[Material(items[i])] == TagsOf(items[i].kind, Hex(items[i], digest)[..n])
  }

  // ---- Facts about stems and tags ----

  lemma {:induction false} TagInjective(k1: ItemKind, s1: string, u1: nat, k2: ItemKind, s2: string, u2: nat)
    requires u1 < |Suffixes(k1)| && u2 < |Suffixes(k2)|
    requires Tag(k1, s1, u1) == Tag(k2, s2, u2)
    ensures k1 == k2 && s1 == s2 && u1 == u2
  {
    var t := Tag(k1, s1, u1);
    assert t[0] == Prefix(k1)[0] && t[0] == Prefix(k2)[0];
    assert k1 == k2;
    if k1.ChainLabel? {
      assert t[|t| - 1] == Suffixes(k1)[u1][2] && t[|t| - 1] == Suffixes(k2)[u2][2];
    }
    assert s1 == t[2..|t| - |Suffixes(k1)[u1]|];
    assert s2 == t[2..|t| - |Suffixes(k2)[u2]|];
  }

  lemma {:induction false} MaterialFixesKind(a: Item, b: Item)
    requires Material(a) == Material(b)
    ensures a.kind == b.kind
  {
    assert Material(a)[0] == Letter(a.kind) && Material(b)[0] == Letter(b.kind);
  }

  lemma {:induction false} ShareShorter(items: seq<Item>, digest: Digest, i: nat, j: nat, m: nat, n: nat)
    requires i < |items| && j < |items| && DigestsSized(items, digest) && m <= n <= LABEL_HASH_LEN
    requires Share(items, digest, i, j, n)
    ensures Share(items, digest, i, j, m) && Share(items, digest, j, i, m)
  {
    assert Hex(items[i], digest)[..m] == Hex(items[i], digest)[..n][..m];
    assert Hex(items[j], digest)[..m] == Hex(items[j], digest)[..n][..m];
  }

  /** Standing alone is kept by longer stems. */
  lemma {:induction false} AloneLonger(items: seq<Item>, digest: Digest, i: nat, m: nat, n: nat)
    requires i < |items| && DigestsSized(items, digest) && m <= n <= LABEL_HASH_LEN
    requires Alone(items, digest, i, m)
    ensures Alone(items, digest, i, n)
  {
    forall j | 0 <= j < |items| && j != i ensures !Share(items, digest, i, j, n) {
      if Share(items, digest, i, j, n) { ShareShorter(items, digest, i, j, m, n); }
    }
  }

  // ---- One round: claim every tag and record who collides ----

  /** Stem lengths in use: each between the minimum and the digest length. */
  ghost predicate StemsFit(items: seq<Item>, digest: Digest, ns: seq<nat>) {
    && DigestsSized(items, digest) && |ns| == |items|
    && forall i :: 0 <= i < |ns| ==> ns[i] <= LABEL_HASH_LEN
  }

  ghost function Stem(items: seq<Item>, digest: Digest, ns: seq<nat>, i: nat): string
    requires StemsFit(items, digest, ns) && i < |items|
  {
    Hex(items[i], digest)[..ns[i]]
  }

  ghost predicate Clash(items: seq<Item>, digest: Digest, ns: seq<nat>, i: nat, j: nat)
    requires StemsFit(items, digest, ns) && i < |items| && j < |items|
  {
    i != j && items[i].kind == items[j].kind && Stem(items, digest, ns, i) == Stem(items, digest, ns, j)
  }

  /** Some other item wants the same tags as item i. */
  ghost predicate Crowded(items: seq<Item>, digest: Digest, ns: seq<nat>, i: nat)
    requires StemsFit(items, digest, ns) && i < |items|
  {
    exists j: nat :: j < |items| && Clash(items, digest, ns, i, j)
  }

  /** A claim pairs a tag with the item that wants it. */
  type Claim = (string, nat)

  /** Another item claims a tag that item i claims. */
  ghost predicate Disputed(claims: set<Claim>, i: nat) {
    exists c, d :: c in claims && d in claims && Rivals(c, d) && c.1 == i
  }

  ghost predicate Rivals(c: Claim, d: Claim) { c.0 == d.0 && c.1 != d.1 }

  /** occupied and collision after a set of claims: everything shared between two items is recorded. */
  ghost predicate Recorded(claims: set<Claim>, occupied: map<string, nat>, collision: set<nat>) {
    && (forall c :: c in claims ==> c.0 in occupied)
    && (forall t :: t in occupied ==> (t, occupied[t]) in claims)
    && (forall i :: i in collision ==> Disputed(claims, i))
    && (forall c, d :: c in claims && d in claims && Rivals(c, d) ==> c.1 in collision)
  }

  lemma {:induction false} DisputedGrows(claims: set<Claim>, claims': set<Claim>, i: nat)
    requires Disputed(claims, i) && claims <= claims'
    ensures Disputed(claims', i)
  {
    var c, d :| c in claims && d in claims && Rivals(c, d) && c.1 == i;
    assert c in claims' && d in claims';
  }

  lemma {:induction false} RecordClaim(claims: set<Claim>, occupied: map<string, nat>, collision: set<nat>,
                                       tag: string, k: nat)
    requires Recorded(claims, occupied, collision) && (tag, k) !in claims
    ensures Recorded(claims + {(tag, k)}, occupied[tag := k],
                     if tag in occupied then collision + {k, occupied[tag]} else collision)
  {
    var claims' := claims + {(tag, k)};
    var collision' := if tag in occupied then collision + {k, occupied[tag]} else collision;
    forall i | i in collision' ensures Disputed(claims', i) {
      if i in collision {
        DisputedGrows(claims, claims', i);
      } else {
        assert Rivals((tag, occupied[tag]), (tag, k)) && Rivals((tag, k), (tag, occupied[tag]));
      }
    }
    forall c, d | c in claims' && d in claims' && Rivals(c, d) ensures c.1 in collision' {
      if c in claims && d in claims {
      } else if c in claims {
        assert d == (tag, k);
        if c.1 != occupied[tag] { assert Rivals(c, (tag, occupied[tag])); }
      } else {
        assert c == (tag, k);
      }
    }
  }

  /** Suffix s of item i comes before suffix m of item k in the scan. */
  ghost predicate Before(items: seq<Item>, i: nat, s: nat, k: nat, m: nat) {
    i < |items| && s < |Suffixes(items[i].kind)| && (i < k || (i == k && s < m))
  }

  ghost function ClaimAt(items: seq<Item>, digest: Digest, ns: seq<nat>, i: nat, s: nat): Claim
    requires StemsFit(items, digest, ns) && i < |items| && s < |Suffixes(items[i].kind)|
  {
    (Tag(items[i].kind, Stem(items, digest, ns, i), s), i)
  }

  ghost predicate ClaimsBefore(items: seq<Item>, digest: Digest, ns: seq<nat>, k: nat, m: nat, claims: set<Claim>)
    requires StemsFit(items, digest, ns)
  {
    && (forall i: nat, s: nat :: Before(items, i, s, k, m) ==> ClaimAt(items, digest, ns, i, s) in claims)
    && (forall c :: c in claims ==> exists s: nat ::
        Before(items, c.1, s, k, m) && c == ClaimAt(items, digest, ns, c.1, s))
  }

  lemma {:induction false} NextSuffix(items: seq<Item>, digest: Digest, ns: seq<nat>, k: nat, m: nat,
                                      claims: set<Claim>)
    requires StemsFit(items, digest, ns) && k < |items| && m < |Suffixes(items[k].kind)|
    requires ClaimsBefore(items, digest, ns, k, m, claims)
    ensures ClaimAt(items, digest, ns, k, m) !in claims
    ensures ClaimsBefore(items, digest, ns, k, m + 1, claims + {ClaimAt(items, digest, ns, k, m)})
  {
    var added := ClaimAt(items, digest, ns, k, m);
    if added in claims {
      var s: nat :| Before(items, k, s, k, m) && added == ClaimAt(items, digest, ns, k, s);
      TagInjective(items[k].kind, Stem(items, digest, ns, k), s, items[k].kind, Stem(items, digest, ns, k), m);
    }
    forall c | c in claims + {added}
      ensures exists s: nat :: Before(items, c.1, s, k, m + 1) && c == ClaimAt(items, digest, ns, c.1, s)
    {
      if c in claims {
        var s: nat :| Before(items, c.1, s, k, m) && c == ClaimAt(items, digest, ns, c.1, s);
        assert Before(items, c.1, s, k, m + 1);
      } else {
        assert Before(items, c.1, m, k, m + 1);
      }
    }
  }

  lemma {:induction false} NextItem(items: seq<Item>, digest: Digest, ns: seq<nat>, k: nat, claims: set<Claim>)
    requires StemsFit(items, digest, ns) && k < |items|
    requires ClaimsBefore(items, digest, ns, k, |Suffixes(items[k].kind)|, claims)
    ensures ClaimsBefore(items, digest, ns, k + 1, 0, claims)
  {
    forall c | c in claims
      ensures exists s: nat :: Before(items, c.1, s, k + 1, 0) && c == ClaimAt(items, digest, ns, c.1, s)
    {
      var s: nat :| Before(items, c.1, s, k, |Suffixes(items[k].kind)|) && c == ClaimAt(items, digest, ns, c.1, s);
      assert Before(items, c.1, s, k + 1, 0);
    }
  }

  lemma {:induction false} CollisionsAreClashes(items: seq<Item>, digest: Digest, ns: seq<nat>, claims: set<Claim>,
                             occupied: map<string, nat>, collision: set<nat>)
    requires StemsFit(items, digest, ns)
    requires ClaimsBefore(items, digest, ns, |items|, 0, claims) && Recorded(claims, occupied, collision)
    ensures forall i: nat :: i in collision <==>
              i < |items| && Crowded(items, digest, ns, i)
  {
    forall i: nat | i in collision
      ensures i < |items| && Crowded(items, digest, ns, i)
    {
      var c, d :| c in claims && d in claims && Rivals(c, d) && c.1 == i;
      var j := d.1;
      var s: nat :| Before(items, i, s, |items|, 0) && c == ClaimAt(items, digest, ns, i, s);
      var u: nat :| Before(items, j, u, |items|, 0) && d == ClaimAt(items, digest, ns, j, u);
      TagInjective(items[i].kind, Stem(items, digest, ns, i), s, items[j].kind, Stem(items, digest, ns, j), u);
      assert Clash(items, digest, ns, i, j);
    }
    forall i: nat, j: nat | i < |items| && j < |items| && Clash(items, digest, ns, i, j) ensures i in collision {
      assert Before(items, i, 0, |items|, 0) && Before(items, j, 0, |items|, 0);
      assert Rivals(ClaimAt(items, digest, ns, i, 0), ClaimAt(items, digest, ns, j, 0));
    }
  }

  lemma {:induction false} ClaimStep(items: seq<Item>, digest: Digest, ns: seq<nat>, k: nat, m: nat, claims: set<Claim>,
                  occupied: map<string, nat>, collision: set<nat>, tag: string)
    requires StemsFit(items, digest, ns) && k < |items| && m < |Suffixes(items[k].kind)|
    requires ClaimsBefore(items, digest, ns, k, m, claims) && Recorded(claims, occupied, collision)
    requires tag == Tag(items[k].kind, Stem(items, digest, ns, k), m)
    ensures ClaimsBefore(items, digest, ns, k, m + 1, claims + {(tag, k)})
    ensures Recorded(claims + {(tag, k)}, occupied[tag := k],
                     if tag in occupied then collision + {k, occupied[tag]} else collision)
  {
    NextSuffix(items, digest, ns, k, m, claims);
    RecordClaim(claims, occupied, collision, tag, k);
  }

  /** The suffix loop: item k claims each of its tags. */
  method ClaimTags(items: seq<Item>, digest: Digest, ns: seq<nat>, k: nat,
                   occupied: map<string, nat>, collision: set<nat>, ghost claims: set<Claim>)
    returns (occupied': map<string, nat>, collision': set<nat>, ghost claims': set<Claim>)
    requires StemsFit(items, digest, ns) && k < |items|
    requires Recorded(claims, occupied, collision) && ClaimsBefore(items, digest, ns, k, 0, claims)
    ensures Recorded(claims', occupied', collision') && ClaimsBefore(items, digest, ns, k + 1, 0, claims')
  {
    occupied', collision', claims' := occupied, collision, claims;
    var stem := digest(Material(items[k]))[..ns[k]];
    var suffixes := Suffixes(items[k].kind);
    var m := 0;
    while m < |suffixes|
      invariant 0 <= m <= |suffixes|
      invariant Recorded(claims', occupied', collision')
      invariant ClaimsBefore(items, digest, ns, k, m, claims')
    {
      var tag := Prefix(items[k].kind) + stem + suffixes[m];
      ClaimStep(items, digest, ns, k, m, claims', occupied', collision', tag);
      claims' := claims' + {(tag, k)};
      collision' := if tag in occupied' then collision' + {k, occupied'[tag]} else collision';
      occupied' := occupied'[tag := k];
      m := m + 1;
    }
    NextItem(items, digest, ns, k, claims');
  }

  /** One pass over the states: finds exactly the crowded items. */
  method Scan(items: seq<Item>, digest: Digest, ns: seq<nat>) returns (collision: set<nat>)
    requires StemsFit(items, digest, ns)
    ensures forall i: nat :: i in collision <==>
              i < |items| && Crowded(items, digest, ns, i)
  {
    var occupied: map<string, nat> := map[];
    ghost var claims: set<Claim> := {};
    collision := {};
    var k := 0;
    while k < |items|
      invariant 0 <= k <= |items|
      invariant Recorded(claims, occupied, collision)
      invariant ClaimsBefore(items, digest, ns, k, 0, claims)
    {
      occupied, collision, claims := ClaimTags(items, digest, ns, k, occupied, collision, claims);
      k := k + 1;
    }
    CollisionsAreClashes(items, digest, ns, claims, occupied, collision);
  }

  // ---- The growing loop ----

  /** Before a round: an item below the current length L stands alone; a grown item had to grow. */
  ghost predicate RoundInv(items: seq<Item>, digest: Digest, ns: seq<nat>, L: nat) {
    && DigestsSized(items, digest) && |ns| == |items|
    && LABEL_MIN_LEN <= L <= LABEL_HASH_LEN + LABEL_STEP && L % 2 == 0
    && forall i :: 0 <= i < |ns| ==> ItemInv(items, digest, ns, L, i)
  }

  ghost predicate ItemInv(items: seq<Item>, digest: Digest, ns: seq<nat>, L: nat, i: nat)
    requires DigestsSized(items, digest) && |ns| == |items| && i < |items| && L <= LABEL_HASH_LEN + LABEL_STEP
  {
    && LABEL_MIN_LEN <= ns[i] <= L && ns[i] % 2 == 0
    && (ns[i] > LABEL_MIN_LEN ==> !Alone(items, digest, i, ns[i] - LABEL_STEP))
    && (ns[i] < L ==> ns[i] <= LABEL_HASH_LEN && Alone(items, digest, i, ns[i]))
  }

  /** In lockstep, an item collides exactly when it has the current length and is not alone at it. */
  lemma {:induction false} ClashIffCrowded(items: seq<Item>, digest: Digest, ns: seq<nat>, L: nat, i: nat)
    requires RoundInv(items, digest, ns, L) && StemsFit(items, digest, ns) && i < |items|
    ensures Crowded(items, digest, ns, i) <==> !Alone(items, digest, i, ns[i])
    ensures Crowded(items, digest, ns, i) ==> ns[i] == L
  {
    forall j: nat | j < |items| && Clash(items, digest, ns, i, j) ensures Share(items, digest, i, j, ns[i]) {
      assert |Stem(items, digest, ns, i)| == ns[i] && |Stem(items, digest, ns, j)| == ns[j];
    }
    assert ItemInv(items, digest, ns, L, i);
    if !Alone(items, digest, i, ns[i]) {
      var j :| 0 <= j < |items| && j != i && Share(items, digest, i, j, ns[i]);
      assert ItemInv(items, digest, ns, L, j);
      if ns[j] < L { ShareShorter(items, digest, i, j, ns[j], ns[i]); }
      assert Clash(items, digest, ns, i, j);
    }
  }

  ghost predicate GrownBy(ns: seq<nat>, ns': seq<nat>, grown: set<nat>) {
    && |ns'| == |ns|
    && forall i :: 0 <= i < |ns| ==> ns'[i] == if i in grown then ns[i] + LABEL_STEP else ns[i]
  }

  lemma {:induction false} ItemKept(items: seq<Item>, digest: Digest, ns: seq<nat>, L: nat, ns': seq<nat>, i: nat)
    requires RoundInv(items, digest, ns, L) && StemsFit(items, digest, ns) && L <= LABEL_HASH_LEN
    requires |ns'| == |ns| && i < |ns|
    requires ns'[i] == if Crowded(items, digest, ns, i) then ns[i] + LABEL_STEP else ns[i]
    ensures ItemInv(items, digest, ns', L + LABEL_STEP, i)
  {
    assert ItemInv(items, digest, ns, L, i);
    ClashIffCrowded(items, digest, ns, L, i);
  }

  lemma {:induction false} RoundKept(items: seq<Item>, digest: Digest, ns: seq<nat>, L: nat, collision: set<nat>,
                                     ns': seq<nat>)
    requires RoundInv(items, digest, ns, L) && StemsFit(items, digest, ns)
    requires forall i: nat :: i in collision <==> i < |items| && Crowded(items, digest, ns, i)
    requires collision != {} && GrownBy(ns, ns', collision)
    ensures RoundInv(items, digest, ns', L + LABEL_STEP)
  {
    var c :| c in collision;
    ClashIffCrowded(items, digest, ns, L, c);
    assert L <= LABEL_HASH_LEN;
    var L' := L + LABEL_STEP;
    forall i: nat | i < |ns'| ensures ItemInv(items, digest, ns', L', i) {
      assert i in collision <==> Crowded(items, digest, ns, i);
      ItemKept(items, digest, ns, L, ns', i);
    }
  }

  lemma {:induction false} SettledIsShortest(items: seq<Item>, digest: Digest, ns: seq<nat>, L: nat, i: nat)
    requires RoundInv(items, digest, ns, L) && StemsFit(items, digest, ns) && i < |items|
    requires Alone(items, digest, i, ns[i])
    ensures Shortest(items, digest, i, ns[i])
  {
    assert ItemInv(items, digest, ns, L, i);
    forall m | LABEL_MIN_LEN <= m < ns[i] && m % 2 == 0 ensures !Alone(items, digest, i, m) {
      if Alone(items, digest, i, m) { AloneLonger(items, digest, i, m, ns[i] - LABEL_STEP); }
    }
  }

  lemma {:induction false} AloneMeansNoFullCollision(items: seq<Item>, digest: Digest, ns: seq<nat>)
    requires StemsFit(items, digest, ns)
    requires forall i: nat :: i < |items| ==> Alone(items, digest, i, ns[i])
    ensures !FullCollision(items, digest)
  {
    if i, j :| 0 <= i < j < |items| && Share(items, digest, i, j, LABEL_HASH_LEN) {
      AloneLonger(items, digest, i, ns[i], LABEL_HASH_LEN);
    }
  }

  /** for i := range collision: the map is visited in any order. */
  method Grow(ns: seq<nat>, collision: set<nat>) returns (ns': seq<nat>)
    requires forall i :: i in collision ==> 0 <= i < |ns|
    ensures GrownBy(ns, ns', collision)
  {
    ns' := ns;
    var todo := collision;
    while todo != {}
      invariant todo <= collision
      invariant GrownBy(ns, ns', collision - todo)
    {
      var i :| i in todo;
      ns' := ns'[i := ns'[i] + LABEL_STEP];
      todo := todo - {i};
    }
  }

  method Exhausted(ns: seq<nat>) returns (b: bool)
    ensures b <==> exists i :: 0 <= i < |ns| && ns[i] > LABEL_HASH_LEN
  {
    for i := 0 to |ns|
      invariant forall j :: 0 <= j < i ==> ns[j] <= LABEL_HASH_LEN
    {
      if ns[i] > LABEL_HASH_LEN { return true; }
    }
    return false;
  }

  lemma {:induction false} DistinctMaterials(items: seq<Item>, digest: Digest, i: nat, j: nat)
    requires DigestsSized(items, digest) && i < |items| && j < |items| && i != j
    requires !FullCollision(items, digest)
    ensures Material(items[i]) != Material(items[j])
  {
    if Material(items[i]) == Material(items[j]) {
      MaterialFixesKind(items[i], items[j]);
      if i < j {
        assert Share(items, digest, i, j, LABEL_HASH_LEN);
      } else {
        assert Share(items, digest, j, i, LABEL_HASH_LEN);
      }
    }
  }

  ghost predicate Labeled(items: seq<Item>, digest: Digest, ns: seq<nat>, labels: map<string, seq<string>>, i: nat)
    requires StemsFit(items, digest, ns) && i < |items|
  {
    && Material(items[i]) in labels
    && labels[Material(items[i])] == TagsOf(items[i].kind, Stem(items, digest, ns, i))
  }

  lemma {:induction false} CollectStep(items: seq<Item>, digest: Digest, ns: seq<nat>,
                                       labels: map<string, seq<string>>, k: nat)
    requires StemsFit(items, digest, ns) && !FullCollision(items, digest) && k < |items|
    requires labels.Keys == set i | 0 <= i < k :: Material(items[i])
    requires forall i: nat :: i < k ==> Labeled(items, digest, ns, labels, i)
    ensures var labels' := labels[Material(items[k]) := TagsOf(items[k].kind, Stem(items, digest, ns, k))];
            && labels'.Keys == (set i | 0 <= i < k + 1 :: Material(items[i]))
            && forall i: nat :: i < k + 1 ==> Labeled(items, digest, ns, labels', i)
  {
    assert (set i | 0 <= i < k + 1 :: Material(items[i])) ==
           (set i | 0 <= i < k :: Material(items[i])) + {Material(items[k])};
    var labels' := labels[Material(items[k]) := TagsOf(items[k].kind, Stem(items, digest, ns, k))];
    forall i: nat | i < k + 1 ensures Labeled(items, digest, ns, labels', i) {
      if i < k {
        assert Labeled(items, digest, ns, labels, i);
        DistinctMaterials(items, digest, i, k);
      }
    }
  }

  lemma {:induction false} LabeledIsShortest(items: seq<Item>, digest: Digest, ns: seq<nat>,
                                             labels: map<string, seq<string>>, i: nat)
    requires StemsFit(items, digest, ns) && i < |items|
    requires Shortest(items, digest, i, ns[i]) && Labeled(items, digest, ns, labels, i)
    ensures ShortestLabel(items, digest, labels, i)
  {
  }

  method Collect(items: seq<Item>, digest: Digest, ns: seq<nat>) returns (labels: map<string, seq<string>>)
    requires StemsFit(items, digest, ns) && !FullCollision(items, digest)
    requires forall i: nat :: i < |items| ==> Shortest(items, digest, i, ns[i])
    ensures ShortestLabels(items, digest, labels)
  {
    labels := map[];
    var k := 0;
    while k < |items|
      invariant 0 <= k <= |items|
      invariant labels.Keys == set i | 0 <= i < k :: Material(items[i])
      invariant forall i: nat :: i < k ==> Labeled(items, digest, ns, labels, i)
    {
      CollectStep(items, digest, ns, labels, k);
      labels := labels[Material(items[k]) := TagsOf(items[k].kind, digest(Material(items[k]))[..ns[k]])];
      k := k + 1;
    }
    forall i: nat | i < |items| ensures ShortestLabel(items, digest, labels, i) {
      LabeledIsShortest(items, digest, ns, labels, i);
    }
  }

  lemma {:induction false} Settled(items: seq<Item>, digest: Digest, ns: seq<nat>, L: nat)
    requires RoundInv(items, digest, ns, L) && StemsFit(items, digest, ns)
    requires forall i: nat :: i < |items| ==> !Crowded(items, digest, ns, i)
    ensures forall i: nat :: i < |items| ==> Shortest(items, digest, i, ns[i])
    ensures !FullCollision(items, digest)
  {
    forall i: nat | i < |items| ensures Alone(items, digest, i, ns[i]) && Shortest(items, digest, i, ns[i]) {
      ClashIffCrowded(items, digest, ns, L, i);
      SettledIsShortest(items, digest, ns, L, i);
    }
    AloneMeansNoFullCollision(items, digest, ns);
  }

  method CheckDigests(items: seq<Item>, digest: Digest) returns (sized: bool)
    ensures sized <==> DigestsSized(items, digest)
  {
    for i := 0 to |items|
      invariant forall j :: 0 <= j < i ==> |Hex(items[j], digest)| == LABEL_HASH_LEN
    {
      if |digest(Material(items[i]))| != LABEL_HASH_LEN { return false; }
    }
    return true;
  }

  /** labeler.assign: refused exactly on a malformed digest or a full collision; otherwise the closed form. */
  method Assign(items: seq<Item>, digest: Digest) returns (r: Result<map<string, seq<string>>, LabelError>)
    ensures r.Err? <==> !DigestsSized(items, digest) || FullCollision(items, digest)
    ensures r.Ok? ==> ShortestLabels(items, digest, r.value)
  {
    var sized := CheckDigests(items, digest);
    if !sized { return Err(LabelCollision); }
    r := GrowUntilDistinct(items, digest);
  }

  /** The unbounded loop of the source; it ends because the longest stem grows every round. */
  method GrowUntilDistinct(items: seq<Item>, digest: Digest) returns (r: Result<map<string, seq<string>>, LabelError>)
    requires DigestsSized(items, digest)
    ensures r.Err? <==> FullCollision(items, digest)
    ensures r.Ok? ==> ShortestLabels(items, digest, r.value)
  {
    var ns: seq<nat> := seq(|items|, _ => LABEL_MIN_LEN);
    ghost var L := LABEL_MIN_LEN;
    while true
      invariant RoundInv(items, digest, ns, L)
      decreases LABEL_HASH_LEN + LABEL_STEP - L
    {
      var exhausted := Exhausted(ns);
      if exhausted {
        ExhaustedIsCollision(items, digest, ns, L);
        return Err(LabelCollision);
      }
      var collision := Scan(items, digest, ns);
      if collision == {} {
        Settled(items, digest, ns, L);
        var labels := Collect(items, digest, ns);
        return Ok(labels);
      }
      var grown := Grow(ns, collision);
      RoundKept(items, digest, ns, L, collision, grown);
      ns, L := grown, L + LABEL_STEP;
    }
  }

  lemma {:induction false} ExhaustedIsCollision(items: seq<Item>, digest: Digest, ns: seq<nat>, L: nat)
    requires RoundInv(items, digest, ns, L)
    requires exists i :: 0 <= i < |ns| && ns[i] > LABEL_HASH_LEN
    ensures FullCollision(items, digest)
  {
    var i :| 0 <= i < |ns| && ns[i] > LABEL_HASH_LEN;
    assert ItemInv(items, digest, ns, L, i);
    var j :| 0 <= j < |items| && j != i && Share(items, digest, i, j, LABEL_HASH_LEN);
    if j < i { ShareShorter(items, digest, i, j, LABEL_HASH_LEN, LABEL_HASH_LEN); }
  }

  // ---- What the closed form means ----

  /** All tags handed out are pairwise different, across items and within a chain. */
  lemma {:induction false} TagsPairwiseDistinct(items: seq<Item>, digest: Digest, labels: map<string, seq<string>>,
                                                i: nat, j: nat, s: nat, u: nat)
    requires DigestsSized(items, digest) && ShortestLabels(items, digest, labels)
    requires i < |items| && j < |items| && (i != j || s != u)
    requires s < |labels[Material(items[i])]| && u < |labels[Material(items[j])]|
    ensures labels[Material(items[i])][s] != labels[Material(items[j])][u]
  {
    assert ShortestLabel(items, digest, labels, i) && ShortestLabel(items, digest, labels, j);
    var n: nat :| Shortest(items, digest, i, n)
        && labels[Material(items[i])] == TagsOf(items[i].kind, Hex(items[i], digest)[..n]);
    var m: nat :| Shortest(items, digest, j, m)
        && labels[Material(items[j])] == TagsOf(items[j].kind, Hex(items[j], digest)[..m]);
    if labels[Material(items[i])][s] == labels[Material(items[j])][u] {
      TagInjective(items[i].kind, Hex(items[i], digest)[..n], s, items[j].kind, Hex(items[j], digest)[..m], u);
      assert n == |Hex(items[i], digest)[..n]| == |Hex(items[j], digest)[..m]| == m;
      assert i != j && Share(items, digest, i, j, n);
    }
  }

  lemma {:induction false} PermutedCollision(items: seq<Item>, items': seq<Item>, digest: Digest)
    requires multiset(items) == multiset(items')
    requires DigestsSized(items, digest) && DigestsSized(items', digest) && FullCollision(items, digest)
    ensures FullCollision(items', digest)
  {
    var i, j :| 0 <= i < j < |items| && Share(items, digest, i, j, LABEL_HASH_LEN);
    var a, b := PairPermuted(items, items', i, j);
    if a < b {
      assert Share(items', digest, a, b, LABEL_HASH_LEN);
    } else {
      assert Share(items', digest, b, a, LABEL_HASH_LEN);
    }
  }

  lemma {:induction false} PermutedAlone(items: seq<Item>, items': seq<Item>, digest: Digest, i: nat, i': nat, n: nat)
    requires multiset(items) == multiset(items') && DigestsSized(items, digest) && DigestsSized(items', digest)
    requires !FullCollision(items', digest) && n <= LABEL_HASH_LEN
    requires i < |items| && i' < |items'| && items[i] == items'[i'] && Alone(items, digest, i, n)
    ensures Alone(items', digest, i', n)
  {
    SameElements(items, items');
    forall j' | 0 <= j' < |items'| && j' != i' ensures !Share(items', digest, i', j', n) {
      DistinctMaterials(items', digest, i', j');
      assert items'[j'] in items' && items'[j'] in items;
      var j :| 0 <= j < |items| && items[j] == items'[j'];
      assert !Share(items, digest, i, j, n);
    }
  }

  lemma {:induction false} PermutedShortest(items: seq<Item>, items': seq<Item>, digest: Digest, i: nat,
                                            i': nat, n: nat)
    requires multiset(items) == multiset(items') && DigestsSized(items, digest) && DigestsSized(items', digest)
    requires !FullCollision(items, digest) && !FullCollision(items', digest)
    requires i < |items| && i' < |items'| && items[i] == items'[i'] && Shortest(items, digest, i, n)
    ensures Shortest(items', digest, i', n)
  {
    PermutedAlone(items, items', digest, i, i', n);
    forall m | LABEL_MIN_LEN <= m < n && m % 2 == 0 ensures !Alone(items', digest, i', m) {
      if Alone(items', digest, i', m) { PermutedAlone(items', items, digest, i', i, m); }
    }
  }

  lemma {:induction false} ShortestUnique(items: seq<Item>, digest: Digest, i: nat, m: nat, n: nat)
    requires i < |items| && DigestsSized(items, digest)
    requires Shortest(items, digest, i, m) && Shortest(items, digest, i, n)
    ensures m == n
  {
  }

  lemma {:induction false} LabelsExcludeCollision(items: seq<Item>, digest: Digest, labels: map<string, seq<string>>)
    requires DigestsSized(items, digest) && ShortestLabels(items, digest, labels)
    ensures !FullCollision(items, digest)
  {
    if i, j :| 0 <= i < j < |items| && Share(items, digest, i, j, LABEL_HASH_LEN) {
      assert ShortestLabel(items, digest, labels, i);
      var n: nat :| Shortest(items, digest, i, n);
      AloneLonger(items, digest, i, n, LABEL_HASH_LEN);
    }
  }

  lemma {:induction false} SameLabel(items: seq<Item>, items': seq<Item>, digest: Digest,
                  labels: map<string, seq<string>>, labels': map<string, seq<string>>, i: nat, i': nat)
    requires multiset(items) == multiset(items') && DigestsSized(items, digest) && DigestsSized(items', digest)
    requires !FullCollision(items, digest) && !FullCollision(items', digest)
    requires i < |items| && i' < |items'| && items[i] == items'[i']
    requires ShortestLabel(items, digest, labels, i) && ShortestLabel(items', digest, labels', i')
    ensures labels[Material(items[i])] == labels'[Material(items[i])]
  {
    var k := Material(items[i]);
    var n: nat :| Shortest(items, digest, i, n) && labels[k] == TagsOf(items[i].kind, Hex(items[i], digest)[..n]);
    var m: nat :| Shortest(items', digest, i', m) && labels'[k] == TagsOf(items[i].kind, Hex(items[i], digest)[..m]);
    PermutedShortest(items, items', digest, i, i', n);
    ShortestUnique(items', digest, i', m, n);
  }

  /** The labels depend on which items there are, never on their order. */
  lemma {:induction false} OrderIndependent(items: seq<Item>, items': seq<Item>, digest: Digest,
                         labels: map<string, seq<string>>, labels': map<string, seq<string>>)
    requires multiset(items) == multiset(items') && DigestsSized(items, digest) && DigestsSized(items', digest)
    requires ShortestLabels(items, digest, labels) && ShortestLabels(items', digest, labels')
    ensures labels == labels'
  {
    LabelsExcludeCollision(items, digest, labels);
    LabelsExcludeCollision(items', digest, labels');
    SameLabelKeys(items, items');
    forall k | k in labels ensures labels[k] == labels'[k] {
      var i: nat :| i < |items| && k == Material(items[i]);
      SameElements(items, items');
      assert items[i] in items && items[i] in items';
      var i': nat :| i' < |items'| && items'[i'] == items[i];
      SameLabel(items, items', digest, labels, labels', i, i');
    }
  }

  lemma {:induction false} SameLabelKeys(items: seq<Item>, items': seq<Item>)
    requires multiset(items) == multiset(items')
    ensures (set i | 0 <= i < |items| :: Material(items[i])) == (set i | 0 <= i < |items'| :: Material(items'[i]))
  {
    SameElements(items, items');
    forall i | 0 <= i < |items| ensures exists j :: 0 <= j < |items'| && Material(items'[j]) == Material(items[i]) {
      assert items[i] in items && items[i] in items';
    }
    forall i | 0 <= i < |items'| ensures exists j :: 0 <= j < |items| && Material(items[j]) == Material(items'[i]) {
      assert items'[i] in items' && items'[i] in items;
    }
  }

  /** Reordering the items changes neither whether labelling is refused nor its result. */
  lemma {:induction false} RefusalOrderIndependent(items: seq<Item>, items': seq<Item>, digest: Digest)
    requires multiset(items) == multiset(items')
    ensures DigestsSized(items, digest) <==> DigestsSized(items', digest)
    ensures DigestsSized(items, digest) ==> (FullCollision(items, digest) <==> FullCollision(items', digest))
  {
    if DigestsSized(items, digest) { PermutedSizes(items, items', digest); }
    if DigestsSized(items', digest) { PermutedSizes(items', items, digest); }
    if DigestsSized(items, digest) {
      if FullCollision(items, digest) { PermutedCollision(items, items', digest); }
      if FullCollision(items', digest) { PermutedCollision(items', items, digest); }
    }
  }

  lemma {:induction false} PermutedSizes(items: seq<Item>, items': seq<Item>, digest: Digest)
    requires multiset(items) == multiset(items') && DigestsSized(items, digest)
    ensures DigestsSized(items', digest)
  {
    SameElements(items, items');
    forall i | 0 <= i < |items'| ensures |Hex(items'[i], digest)| == LABEL_HASH_LEN {
      assert items'[i] in items' && items'[i] in items;
    }
  }

  /** The stem of every item: labels print it, items of one kind differ in it, it starts the digest. */
  ghost predicate StemsOf(items: seq<Item>, digest: Digest, labels: map<string, seq<string>>,
                          stems: map<Item, string>) {
    && stems.Keys == ToSet(items)
    && (forall x :: x in stems ==> Material(x) in labels && labels[Material(x)] == TagsOf(x.kind, stems[x])
                                   && stems[x] <= Hex(x, digest))
    && forall x, y :: x in stems && y in stems && x != y && x.kind == y.kind ==> stems[x] != stems[y]
  }

  /** The stem read back from the first tag of a label. */
  ghost function ReadStem(kind: ItemKind, tags: seq<string>): string {
    if tags != [] && |tags[0]| >= 2 + |Suffixes(kind)[0]| then tags[0][2..|tags[0]| - |Suffixes(kind)[0]|] else ""
  }

  lemma {:induction false} StemRead(kind: ItemKind, stem: string)
    ensures ReadStem(kind, TagsOf(kind, stem)) == stem
  {
    assert TagsOf(kind, stem)[0] == Tag(kind, stem, 0);
  }

  lemma {:induction false} StemAt(items: seq<Item>, digest: Digest, labels: map<string, seq<string>>, x: Item)
    returns (i: nat, n: nat)
    requires DigestsSized(items, digest) && ShortestLabels(items, digest, labels) && x in items
    ensures i < |items| && items[i] == x && Shortest(items, digest, i, n) && Material(x) in labels
    ensures labels[Material(x)] == TagsOf(x.kind, Hex(x, digest)[..n])
    ensures ReadStem(x.kind, labels[Material(x)]) == Hex(x, digest)[..n]
  {
    i :| 0 <= i < |items| && items[i] == x;
    assert ShortestLabel(items, digest, labels, i);
    n :| Shortest(items, digest, i, n)
        && labels[Material(items[i])] == TagsOf(items[i].kind, Hex(items[i], digest)[..n]);
    StemRead(x.kind, Hex(x, digest)[..n]);
  }

  lemma {:induction false} StemsDiffer(items: seq<Item>, digest: Digest, labels: map<string, seq<string>>,
                                       x: Item, y: Item)
    requires DigestsSized(items, digest) && ShortestLabels(items, digest, labels)
    requires x in items && y in items && x != y && x.kind == y.kind
    ensures Material(x) in labels && Material(y) in labels
    ensures ReadStem(x.kind, labels[Material(x)]) != ReadStem(y.kind, labels[Material(y)])
  {
    var i, n := StemAt(items, digest, labels, x);
    var j, m := StemAt(items, digest, labels, y);
    assert !Share(items, digest, i, j, n);
    assert |Hex(x, digest)[..n]| == n && |Hex(y, digest)[..m]| == m;
  }

  lemma {:induction false} StemsExist(items: seq<Item>, digest: Digest, labels: map<string, seq<string>>)
    returns (stems: map<Item, string>)
    requires DigestsSized(items, digest) && ShortestLabels(items, digest, labels)
    ensures StemsOf(items, digest, labels, stems)
  {
    stems := map x | x in items :: if Material(x) in labels then ReadStem(x.kind, labels[Material(x)]) else "";
    forall x | x in stems
      ensures Material(x) in labels && labels[Material(x)] == TagsOf(x.kind, stems[x]) && stems[x] <= Hex(x, digest)
    {
      var i, n := StemAt(items, digest, labels, x);
    }
    forall x, y | x in stems && y in stems && x != y && x.kind == y.kind ensures stems[x] != stems[y] {
      StemsDiffer(items, digest, labels, x, y);
    }
  }
}
