/**
 The second half of Compiler.Prepare (internal/compiler/prepare.go and orchestration.go): the
 outbound graph. Every tag is the printed form of a structured name, so tags never coincide.
 */
module Graph {
  import opened Prelude
  import opened IR
  import opened Snapshot
  import opened Labels
  import opened Names
  import opened Collect

  datatype IndependentOutbound = IndependentOutbound(tag: string, resource: Resource)

  datatype ChainInstance = ChainInstance(
    resourceId: Id, revision: int, tagH1: string, tagH2: string, hop1: Resource, hop2: Resource)

  /** The outbounds built so far. */
  datatype Outs = Outs(independents: seq<IndependentOutbound>, chains: seq<ChainInstance>)

  function IndependentTag(o: IndependentOutbound): string { o.tag }
  function FirstHopTag(c: ChainInstance): string { c.tagH1 }

  /** No two outbounds share a tag. */
  ghost predicate DistinctOuts(o: Outs) {
    && (forall i, j :: 0 <= i < j < |o.independents| ==> o.independents[i].tag != o.independents[j].tag)
    && (forall i, j :: 0 <= i < j < |o.chains| ==>
        o.chains[i].tagH1 != o.chains[j].tagH1 && o.chains[i].tagH2 != o.chains[j].tagH2)
    && (forall i, j :: 0 <= i < |o.chains| && 0 <= j < |o.chains| ==> o.chains[i].tagH1 != o.chains[j].tagH2)
    && forall i, j :: 0 <= i < |o.independents| && 0 <= j < |o.chains| ==>
         o.independents[i].tag != o.chains[j].tagH1 && o.independents[i].tag != o.chains[j].tagH2
  }

  // ---- Names in use ----

  /** Each tag in use and the name it prints. */
  type NameOf = map<string, Name>

  ghost predicate PrintsAs(n: Name, tag: string) { ValidName(n) && Print(n) == tag }

  /** The outbounds carry different tags, each the printed form of a known name. */
  ghost predicate Tagged(o: Outs, names: NameOf) {
    && DistinctOuts(o)
    && (forall t :: t in names ==> PrintsAs(names[t], t))
    && (forall i :: 0 <= i < |o.independents| ==> o.independents[i].tag in names)
    && forall i :: 0 <= i < |o.chains| ==> o.chains[i].tagH1 in names && o.chains[i].tagH2 in names
  }

  /** A tag whose name is not in use is not in use. */
  lemma {:induction false} FreshTag(names: NameOf, n: Name, tag: string)
    requires forall t :: t in names ==> PrintsAs(names[t], t)
    requires PrintsAs(n, tag) && forall t :: t in names ==> names[t] != n
    ensures tag !in names
  {
    if tag in names { PrintInjective(names[tag], n); }
  }

  function WithNode(o: Outs, x: IndependentOutbound): Outs { o.(independents := o.independents + [x]) }

  function WithChain(o: Outs, c: ChainInstance): Outs { o.(chains := o.chains + [c]) }

  ghost predicate Unused(o: Outs, tag: string) {
    && (forall i :: 0 <= i < |o.independents| ==> o.independents[i].tag != tag)
    && forall i :: 0 <= i < |o.chains| ==> o.chains[i].tagH1 != tag && o.chains[i].tagH2 != tag
  }

  lemma {:induction false} DistinctWithNode(o: Outs, x: IndependentOutbound)
    requires DistinctOuts(o) && Unused(o, x.tag)
    ensures DistinctOuts(WithNode(o, x))
  {
  }

  lemma {:induction false} DistinctWithChain(o: Outs, c: ChainInstance)
    requires DistinctOuts(o) && Unused(o, c.tagH1) && Unused(o, c.tagH2) && c.tagH1 != c.tagH2
    ensures DistinctOuts(WithChain(o, c))
  {
  }

  lemma {:induction false} TaggedNode(o: Outs, names: NameOf, x: IndependentOutbound, n: Name)
    requires Tagged(o, names) && PrintsAs(n, x.tag) && forall t :: t in names ==> names[t] != n
    ensures Tagged(WithNode(o, x), names[x.tag := n])
  {
    FreshTag(names, n, x.tag);
    DistinctWithNode(o, x);
  }

  lemma {:induction false} TaggedChain(o: Outs, names: NameOf, c: ChainInstance, n1: Name, n2: Name)
    requires Tagged(o, names) && PrintsAs(n1, c.tagH1) && PrintsAs(n2, c.tagH2) && n1 != n2
    requires forall t :: t in names ==> names[t] != n1 && names[t] != n2
    ensures Tagged(WithChain(o, c), names[c.tagH1 := n1][c.tagH2 := n2])
  {
    FreshTag(names, n1, c.tagH1);
    FreshTag(names, n2, c.tagH2);
    if c.tagH1 == c.tagH2 { PrintInjective(n1, n2); }
    DistinctWithChain(o, c);
  }

  // ---- Labels as names ----

  ghost predicate HexDigest(digest: Digest) { forall s :: AllHex(digest(s)) }

  lemma {:induction false} LastBar(a: string, x: string, b: string, y: string)
    requires '|' !in x && '|' !in y && a + "|" + x == b + "|" + y
    ensures a == b && x == y
  {
    var w := a + "|" + x;
    BarBefore(a, x, b, y);
    BarBefore(b, y, a, x);
    assert a == w[..|a|] && b == w[..|b|];
    assert x == w[|a| + 1..] && y == w[|b| + 1..];
  }

  lemma {:induction false} BarBefore(a: string, x: string, b: string, y: string)
    requires '|' !in x && a + "|" + x == b + "|" + y
    ensures |b| <= |a|
  {
    var w := a + "|" + x;
    forall i | |a| < i < |w| ensures w[i] != '|' { assert w[i] == x[i - |a| - 1] && w[i] in x; }
    assert w[|b|] == (b + "|" + y)[|b|] == '|';
  }

  lemma {:induction false} ItoaPlain(n: int)
    ensures '|' !in Itoa(n)
  {
    var d := if n < 0 then -n else n;
    assert forall i :: 0 <= i < |Decimal(d)| ==> IsDigit(Decimal(d)[i]);
    assert n < 0 ==> Itoa(n) == "-" + Decimal(d);
  }

  /** Different ids of one kind have different label material. */
  lemma {:induction false} ItemFixesId(r: Resource, s: Resource)
    requires KindOf(r.payload) == KindOf(s.payload) && ItemOf(r) == ItemOf(s)
    ensures r.meta.id == s.meta.id
  {
    var word := if r.payload.Chain? then "chain|" else if r.payload.Policy? then "policy|" else "node|";
    ItoaPlain(r.meta.revision);
    ItoaPlain(s.meta.revision);
    LastBar(word + r.meta.id, Itoa(r.meta.revision), word + s.meta.id, Itoa(s.meta.revision));
    assert (word + r.meta.id)[|word|..] == r.meta.id && (word + s.meta.id)[|word|..] == s.meta.id;
  }

  /** Stems of the collected items under the assigned labels. */
  ghost predicate Labelled(c: Collected, labels: map<string, seq<string>>, stems: map<Item, string>) {
    && stems.Keys == ToSet(c.items)
    && (forall x :: x in stems ==>
        Material(x) in labels && labels[Material(x)] == TagsOf(x.kind, stems[x]) && AllHex(stems[x]))
    && forall x, y :: x in stems && y in stems && x != y && x.kind == y.kind ==> stems[x] != stems[y]
  }

  lemma {:induction false} LabelledBy(c: Collected, digest: Digest, labels: map<string, seq<string>>)
    returns (stems: map<Item, string>)
    requires HexDigest(digest) && DigestsSized(c.items, digest) && ShortestLabels(c.items, digest, labels)
    ensures Labelled(c, labels, stems)
  {
    stems := StemsExist(c.items, digest, labels);
    forall x | x in stems ensures AllHex(stems[x]) { assert AllHex(Hex(x, digest)); }
  }

  lemma {:induction false} HopDigits()
    ensures Itoa(1) == "1" && Itoa(2) == "2"
  {
  }

  lemma {:induction false} LabelNames(kind: ItemKind, stem: string)
    ensures kind.NodeLabel? ==> TagsOf(kind, stem) == [Print(NodeName(stem))]
    ensures kind.PolicyLabel? ==> TagsOf(kind, stem) == [Print(GroupName(stem))]
    ensures kind.ChainLabel? ==> TagsOf(kind, stem) == [Print(HopName(stem, 1)), Print(HopName(stem, 2))]
  {
    HopDigits();
    if kind.ChainLabel? {
      assert Tag(kind, stem, 0) == "c_" + stem + "_h1" && Tag(kind, stem, 1) == "c_" + stem + "_h2";
      assert Print(HopName(stem, 1)) == "c_" + stem + "_h1" && Print(HopName(stem, 2)) == "c_" + stem + "_h2";
    } else {
      assert Tag(kind, stem, 0) == Prefix(kind) + stem;
      assert Print(NodeName(stem)) == "n_" + stem && Print(GroupName(stem)) == "g_" + stem;
    }
  }

  // ---- Tags by resource id ----

  type TagMap = map<Id, seq<string>>

  /** The printed form of a labelled resource: one tag, or two for a chain. */
  ghost function LabelPrint(payload: Payload, stem: string): seq<string> {
    if payload.Chain? then [Print(HopName(stem, 1)), Print(HopName(stem, 2))]
    else if payload.Policy? then [Print(GroupName(stem))]
    else [Print(NodeName(stem))]
  }

  /** Each collected resource has its label, printed from a stem no other resource of its kind has. */
  ghost predicate TagsKnown(m: Store, seen: set<Id>, tagOf: TagMap, stemOf: map<Id, string>) {
    && seen <= m.Keys && tagOf.Keys == seen && stemOf.Keys == seen
    && (forall id :: id in seen ==> AllHex(stemOf[id]) && tagOf[id] == LabelPrint(m[id].payload, stemOf[id]))
    && forall x, y {:trigger Apart(m, stemOf, x, y)} :: x in seen && y in seen ==> Apart(m, stemOf, x, y)
  }

  /** Different resources of one kind have different stems. */
  ghost predicate Apart(m: Store, stemOf: map<Id, string>, x: Id, y: Id) {
    x in m && y in m && x in stemOf && y in stemOf && x != y && KindOf(m[x].payload) == KindOf(m[y].payload) ==>
        stemOf[x] != stemOf[y]
  }

  lemma {:induction false} ItemsApart(c: Collected, labels: map<string, seq<string>>, stems: map<Item, string>,
                                      r: Resource, s: Resource)
    requires Labelled(c, labels, stems) && ItemOf(r) in stems && ItemOf(s) in stems
    requires KindOf(r.payload) == KindOf(s.payload) && r.meta.id != s.meta.id
    ensures stems[ItemOf(r)] != stems[ItemOf(s)]
  {
    ItemsDiffer(r, s);
  }

  lemma {:induction false} ItemsDiffer(r: Resource, s: Resource)
    requires KindOf(r.payload) == KindOf(s.payload) && r.meta.id != s.meta.id
    ensures ItemOf(r) != ItemOf(s) && ItemOf(r).kind == ItemOf(s).kind
  {
    if ItemOf(r) == ItemOf(s) { ItemFixesId(r, s); }
  }

  lemma {:induction false} LabelIs(c: Collected, labels: map<string, seq<string>>,
                                   stems: map<Item, string>, r: Resource)
    requires Labelled(c, labels, stems) && ItemOf(r) in stems && Outbound(r.payload)
    ensures AllHex(stems[ItemOf(r)]) && Material(ItemOf(r)) in labels
    ensures labels[Material(ItemOf(r))] == LabelPrint(r.payload, stems[ItemOf(r)])
  {
    LabelNames(ItemOf(r).kind, stems[ItemOf(r)]);
  }

  lemma {:induction false} ItemListed(m: Store, c: Collected, id: Id)
    requires CollectedOK(m, c) && id in c.seen
    ensures id in m && Outbound(m[id].payload) && ItemOf(m[id]) in c.items
  {
  }

  /** labels[material] for every collected resource. */
  method LookupTags(m: Store, c: Collected, labels: map<string, seq<string>>, ghost stems: map<Item, string>)
    returns (tagOf: TagMap, ghost stemOf: map<Id, string>)
    requires CollectedOK(m, c) && Labelled(c, labels, stems) && forall id :: id in c.seen ==>
            id in m && m[id].meta.id == id
    ensures TagsKnown(m, c.seen, tagOf, stemOf)
  {
    forall id | id in c.seen
      ensures id in m && ItemOf(m[id]) in stems && Material(ItemOf(m[id])) in labels && AllHex(stems[ItemOf(m[id])])
      ensures labels[Material(ItemOf(m[id]))] == LabelPrint(m[id].payload, stems[ItemOf(m[id])])
    {
      ItemListed(m, c, id);
      LabelIs(c, labels, stems, m[id]);
    }
    tagOf := map id | id in c.seen :: labels[Material(ItemOf(m[id]))];
    stemOf := map id | id in c.seen :: stems[ItemOf(m[id])];
    StemsApart(m, c, labels, stems, stemOf);
  }

  lemma {:induction false} StemsApart(m: Store, c: Collected, labels: map<string, seq<string>>,
                                      stems: map<Item, string>, stemOf: map<Id, string>)
    requires Labelled(c, labels, stems) && stemOf.Keys == c.seen
    requires forall id :: id in c.seen ==>
            id in m && m[id].meta.id == id && ItemOf(m[id]) in stems && stemOf[id] == stems[ItemOf(m[id])]
    ensures forall x, y {:trigger Apart(m, stemOf, x, y)} :: x in c.seen && y in c.seen ==> Apart(m, stemOf, x, y)
  {
    forall x, y | x in c.seen && y in c.seen ensures Apart(m, stemOf, x, y) {
      if x != y && KindOf(m[x].payload) == KindOf(m[y].payload) { ItemsApart(c, labels, stems, m[x], m[y]); }
    }
  }

  // ---- Labelled nodes and chains ----

  function HopAt(m: Store, r: Resource, i: nat): Resource
    requires r.payload.Chain?
  {
    if i < |r.payload.hops| && r.payload.hops[i] in m then m[r.payload.hops[i]] else r
  }

  function ChainOf(m: Store, r: Resource, tagH1: string, tagH2: string): ChainInstance
    requires r.payload.Chain?
  {
    ChainInstance(r.meta.id, r.meta.revision, tagH1, tagH2, HopAt(m, r, 0), HopAt(m, r, 1))
  }

  /** Resources of one kind from the store, all labelled, no id twice. */
  ghost predicate KindList(m: Store, seen: set<Id>, rs: seq<Resource>, kind: Kind) {
    && (forall i, j :: 0 <= i < j < |rs| ==> rs[i].meta.id != rs[j].meta.id)
    && forall i :: 0 <= i < |rs| ==>
        rs[i].meta.id in seen && rs[i].meta.id in m && m[rs[i].meta.id] == rs[i] && KindOf(rs[i].payload) == kind
  }

  /** used holds stems of the first i resources only. */
  ghost predicate StemsUsed(stemOf: map<Id, string>, rs: seq<Resource>, i: nat, used: set<string>)
    requires i <= |rs|
  {
    forall s :: s in used ==> exists k :: 0 <= k < i && rs[k].meta.id in stemOf && stemOf[rs[k].meta.id] == s
  }

  lemma {:induction false} StemFresh(m: Store, seen: set<Id>, tagOf: TagMap, stemOf: map<Id, string>,
                                     rs: seq<Resource>, kind: Kind, i: nat, used: set<string>)
    requires TagsKnown(m, seen, tagOf, stemOf) && KindList(m, seen, rs, kind) && i < |rs|
    requires StemsUsed(stemOf, rs, i, used)
    ensures rs[i].meta.id in stemOf && stemOf[rs[i].meta.id] !in used
    ensures StemsUsed(stemOf, rs, i + 1, used + {stemOf[rs[i].meta.id]})
  {
    assert rs[i].meta.id in stemOf;
    forall s | s in used
      ensures s != stemOf[rs[i].meta.id] && exists k ::
              0 <= k < i + 1 && rs[k].meta.id in stemOf && stemOf[rs[k].meta.id] == s
    {
      var k :| 0 <= k < i && rs[k].meta.id in stemOf && stemOf[rs[k].meta.id] == s;
      assert Apart(m, stemOf, rs[i].meta.id, rs[k].meta.id);
    }
  }

  /** Names handed out so far: nodes, hops and members only with these stems. */
  ghost predicate Within(names: NameOf, nodes: set<string>, chains: set<string>, groups: set<string>) {
    forall t :: t in names ==> NameWithin(names[t], nodes, chains, groups)
  }

  ghost predicate NameWithin(n: Name, nodes: set<string>, chains: set<string>, groups: set<string>) {
    match n
    case NodeName(stem) => stem in nodes
    case HopName(stem, _) => stem in chains
    case GroupName(_) => false
    case MemberNode(stem, _) => stem in groups
    case MemberHop(stem, _, _) => stem in groups
  }

  function NodeOut(tagOf: TagMap, r: Resource): IndependentOutbound {
    IndependentOutbound(if r.meta.id in tagOf && |tagOf[r.meta.id]| > 0 then tagOf[r.meta.id][0] else "", r)
  }

  function ChainOut(m: Store, tagOf: TagMap, r: Resource): ChainInstance
    requires r.payload.Chain?
  {
    if r.meta.id in tagOf && |tagOf[r.meta.id]| > 1
    then ChainOf(m, r, tagOf[r.meta.id][0], tagOf[r.meta.id][1]) else ChainOf(m, r, "", "")
  }

  /** The outbounds of the first i nodes. */
  function NodeOuts(tagOf: TagMap, rs: seq<Resource>, i: nat): Outs
    requires i <= |rs|
  {
    if i == 0 then Outs([], []) else WithNode(NodeOuts(tagOf, rs, i - 1), NodeOut(tagOf, rs[i - 1]))
  }

  /** o extended with the first i chains. */
  function ChainOuts(m: Store, tagOf: TagMap, rs: seq<Resource>, o: Outs, i: nat): Outs
    requires i <= |rs|
  {
    if i == 0 then o
    else
      var front := ChainOuts(m, tagOf, rs, o, i - 1);
      if rs[i - 1].payload.Chain? then WithChain(front, ChainOut(m, tagOf, rs[i - 1])) else front
  }

  /** One node more. */
  lemma {:induction false} NodeStep(m: Store, seen: set<Id>, rs: seq<Resource>, tagOf: TagMap,
                                    stemOf: map<Id, string>, o: Outs, i: nat, names: NameOf, used: set<string>)
    returns (names': NameOf, used': set<string>)
    requires TagsKnown(m, seen, tagOf, stemOf) && KindList(m, seen, rs, NodeKind) && i < |rs|
    requires Tagged(o, names) && Within(names, used, {}, {}) && StemsUsed(stemOf, rs, i, used)
    ensures Tagged(WithNode(o, NodeOut(tagOf, rs[i])), names')
    ensures Within(names', used', {}, {}) && StemsUsed(stemOf, rs, i + 1, used')
  {
    StemFresh(m, seen, tagOf, stemOf, rs, NodeKind, i, used);
    var x, n := NodeOut(tagOf, rs[i]), NodeName(stemOf[rs[i].meta.id]);
    assert PrintsAs(n, x.tag);
    TaggedNode(o, names, x, n);
    names', used' := names[x.tag := n], used + {n.stem};
  }

  lemma {:induction false} NodesTagged(m: Store, seen: set<Id>, rs: seq<Resource>, tagOf: TagMap,
                                       stemOf: map<Id, string>, i: nat)
    returns (names: NameOf, used: set<string>)
    requires TagsKnown(m, seen, tagOf, stemOf) && KindList(m, seen, rs, NodeKind) && i <= |rs|
    ensures Tagged(NodeOuts(tagOf, rs, i), names) && Within(names, used, {}, {}) && StemsUsed(stemOf, rs, i, used)
  {
    ghost var o := Outs([], []);
    names, used := map[], {};
    for k := 0 to i
      invariant o == NodeOuts(tagOf, rs, k)
      invariant Tagged(o, names) && Within(names, used, {}, {}) && StemsUsed(stemOf, rs, k, used)
    {
      names, used := NodeStep(m, seen, rs, tagOf, stemOf, o, k, names, used);
      o := WithNode(o, NodeOut(tagOf, rs[k]));
    }
  }

  /** One chain more. */
  lemma {:induction false} ChainStep(m: Store, seen: set<Id>, rs: seq<Resource>, tagOf: TagMap,
                                     stemOf: map<Id, string>, nodes: set<string>, o: Outs, i: nat, names: NameOf,
                                     used: set<string>)
    returns (names': NameOf, used': set<string>)
    requires TagsKnown(m, seen, tagOf, stemOf) && KindList(m, seen, rs, ChainKind) && i < |rs|
    requires Tagged(o, names) && Within(names, nodes, used, {}) && StemsUsed(stemOf, rs, i, used)
    ensures rs[i].payload.Chain? && Tagged(WithChain(o, ChainOut(m, tagOf, rs[i])), names')
    ensures Within(names', nodes, used', {}) && StemsUsed(stemOf, rs, i + 1, used')
  {
    StemFresh(m, seen, tagOf, stemOf, rs, ChainKind, i, used);
    assert rs[i].payload.Chain?;
    var stem, x := stemOf[rs[i].meta.id], ChainOut(m, tagOf, rs[i]);
    assert PrintsAs(HopName(stem, 1), x.tagH1) && PrintsAs(HopName(stem, 2), x.tagH2);
    TaggedChain(o, names, x, HopName(stem, 1), HopName(stem, 2));
    names', used' := names[x.tagH1 := HopName(stem, 1)][x.tagH2 := HopName(stem, 2)], used + {stem};
  }

  lemma {:induction false} ChainsTagged(m: Store, seen: set<Id>, rs: seq<Resource>, tagOf: TagMap,
                                        stemOf: map<Id, string>,
                                        o: Outs, base: NameOf, nodes: set<string>, i: nat)
    returns (names: NameOf, used: set<string>)
    requires TagsKnown(m, seen, tagOf, stemOf) && KindList(m, seen, rs, ChainKind) && i <= |rs|
    requires Tagged(o, base) && Within(base, nodes, {}, {})
    ensures Tagged(ChainOuts(m, tagOf, rs, o, i), names) && Within(names, nodes, used, {})
    ensures StemsUsed(stemOf, rs, i, used)
  {
    ghost var o' := o;
    names, used := base, {};
    for k := 0 to i
      invariant o' == ChainOuts(m, tagOf, rs, o, k)
      invariant Tagged(o', names) && Within(names, nodes, used, {}) && StemsUsed(stemOf, rs, k, used)
    {
      names, used := ChainStep(m, seen, rs, tagOf, stemOf, nodes, o', k, names, used);
      o' := WithChain(o', ChainOut(m, tagOf, rs[k]));
    }
  }

  /** graph.Independents for the collected nodes. */
  method BuildNodes(rs: seq<Resource>, tagOf: TagMap) returns (o: Outs)
    ensures o == NodeOuts(tagOf, rs, |rs|)
  {
    o := Outs([], []);
    for i := 0 to |rs|
      invariant o == NodeOuts(tagOf, rs, i)
    {
      o := WithNode(o, NodeOut(tagOf, rs[i]));
    }
  }

  /** graph.Chains for the collected chains. */
  method BuildChains(m: Store, rs: seq<Resource>, tagOf: TagMap, o: Outs) returns (o': Outs)
    requires forall i :: 0 <= i < |rs| ==> rs[i].payload.Chain?
    ensures o' == ChainOuts(m, tagOf, rs, o, |rs|)
  {
    o' := o;
    for i := 0 to |rs|
      invariant o' == ChainOuts(m, tagOf, rs, o, i)
    {
      o' := WithChain(o', ChainOut(m, tagOf, rs[i]));
    }
  }
}
