/**
 Routing compilation (internal/compiler/orchestration.go): match conditions and ordered rules.

 A compiled condition is text (kinds, values, terms). Its meaning is given by an evaluator that
 knows only the text; the source meaning is the field-wise reading of the match itself.
 */
module Routing {
  import opened Prelude
  import opened IR

  const MAX_RULES := 20000

  datatype Condition = Condition(kind: string, values: seq<string>, terms: seq<Condition>)

  datatype RouteRule = RouteRule(condition: Condition, target: string, fieldPath: string)

  datatype CompileError = RuleLimit(path: string) | UnmappedRuleSet(path: string)

  /** Any packet: which literals it satisfies, its port and its network. */
  datatype Packet = Packet(
    domain: string -> bool, suffix: string -> bool, cidr: string -> bool, port: nat, network: Network)

  function NetworkName(n: Network): string { if n.TCP? then "tcp" else "udp" }

  // ---- Meaning of compiled text ----

  /** Port text is a number, or a lower and an upper bound around a colon. */
  predicate PortMatches(text: string, port: nat) {
    var at := IndexOf(text, ':');
    if at < 0 then Atoi(text) == Some(port)
    else
      var lo, hi := Atoi(text[..at]), Atoi(text[at + 1..]);
      lo.Some? && hi.Some? && lo.value <= port <= hi.value
  }

  ghost predicate ValueMatches(kind: string, value: string, p: Packet) {
    if kind == "domain" then p.domain(value)
    else if kind == "domain_suffix" then p.suffix(value)
    else if kind == "ip_cidr" then p.cidr(value)
    else if kind == "port" then PortMatches(value, p.port)
    else kind == "network" && value == NetworkName(p.network)
  }

  ghost predicate Eval(c: Condition, p: Packet) {
    if c.kind == "and" then forall i :: 0 <= i < |c.terms| ==> Eval(c.terms[i], p)
    else if c.kind == "or" then exists i :: 0 <= i < |c.terms| && Eval(c.terms[i], p)
    else exists v :: v in c.values && ValueMatches(c.kind, v, p)
  }

  // ---- Meaning of the source ----

  ghost predicate PortsMatch(ports: seq<PortRange>, p: Packet) {
    exists r :: r in ports && r.lo <= p.port <= r.hi
  }

  ghost predicate EntryMatches(e: RuleSetEntry, p: Packet) {
    match e
    case DomainEntry(d, suffix) => if suffix then p.suffix(d) else p.domain(d)
    case CIDREntry(c) => p.cidr(c)
  }

  function EntriesOf(store: map<Id, Resource>, id: Id): seq<RuleSetEntry> {
    if id in store && store[id].payload.RuleSet? then store[id].payload.entries else []
  }

  ghost predicate RuleSetsMatch(ids: seq<Id>, store: map<Id, Resource>, p: Packet) {
    exists id, e :: id in ids && e in EntriesOf(store, id) && EntryMatches(e, p)
  }

  /** AND across populated fields, OR within a field, OR across rule-set entries. */
  ghost predicate Matches(m: RouteMatch, store: map<Id, Resource>, p: Packet) {
    && (m.domainExact == [] || exists d :: d in m.domainExact && p.domain(d))
    && (m.domainSuffix == [] || exists d :: d in m.domainSuffix && p.suffix(d))
    && (m.ipCidrs == [] || exists c :: c in m.ipCidrs && p.cidr(c))
    && (m.ports == [] || PortsMatch(m.ports, p))
    && (m.networks == [] || p.network in m.networks)
    && (m.ruleSetIds == [] || RuleSetsMatch(m.ruleSetIds, store, p))
  }

  ghost predicate RuleSetUsable(store: map<Id, Resource>, id: Id, dns: bool) {
    && id in store && store[id].payload.RuleSet?
    && (dns ==> forall e :: e in store[id].payload.entries ==> e.DomainEntry?)
  }

  /** Every rule set exists, and a DNS match uses domain entries only. */
  ghost predicate Compilable(m: RouteMatch, store: map<Id, Resource>, dns: bool) {
    forall id :: id in m.ruleSetIds ==> RuleSetUsable(store, id, dns)
  }

  // ---- Printing ports ----

  function PortText(r: PortRange): string {
    if r.lo != r.hi then Itoa(r.lo) + ":" + Itoa(r.hi) else Itoa(r.lo)
  }

  lemma {:induction false} NoColon(s: string)
    requires AllDigits(s)
    ensures IndexOf(s, ':') == -1
  {
  }

  /** Printed port ranges are read back as the same range. */
  lemma {:induction false} PortTextMeaning(r: PortRange, port: nat)
    ensures PortMatches(PortText(r), port) <==> r.lo <= port <= r.hi
  {
    ItoaRoundTrip(r.lo);
    ItoaRoundTrip(r.hi);
    if r.lo == r.hi {
      NoColon(Itoa(r.lo));
    } else {
      FirstAt(Itoa(r.lo), ':', Itoa(r.hi));
    }
  }

  // ---- routeCondition ----

  ghost predicate AllTerms(terms: seq<Condition>, p: Packet) {
    forall i :: 0 <= i < |terms| ==> Eval(terms[i], p)
  }

  ghost predicate AnyTerm(terms: seq<Condition>, p: Packet) {
    exists i :: 0 <= i < |terms| && Eval(terms[i], p)
  }

  ghost predicate Field(kind: string, values: seq<string>, p: Packet) {
    values == [] || exists v :: v in values && ValueMatches(kind, v, p)
  }

  lemma {:induction false} AllTermsAppend(terms: seq<Condition>, t: Condition, p: Packet)
    ensures AllTerms(terms + [t], p) <==> AllTerms(terms, p) && Eval(t, p)
  {
    var more := terms + [t];
    assert more[|terms|] == t && forall i :: 0 <= i < |terms| ==> more[i] == terms[i];
  }

  lemma {:induction false} AnyTermAppend(terms: seq<Condition>, t: Condition, p: Packet)
    ensures AnyTerm(terms + [t], p) <==> AnyTerm(terms, p) || Eval(t, p)
  {
    var more := terms + [t];
    assert more[|terms|] == t && forall i :: 0 <= i < |terms| ==> more[i] == terms[i];
  }

  /** add: a populated field becomes one more term. */
  method AddField(terms: seq<Condition>, kind: string, values: seq<string>) returns (terms': seq<Condition>)
    requires kind != "and" && kind != "or"
    ensures forall p :: AllTerms(terms', p) <==> AllTerms(terms, p) && Field(kind, values, p)
  {
    terms' := terms;
    if |values| > 0 {
      terms' := terms + [Condition(kind, values, [])];
      forall p ensures AllTerms(terms', p) <==> AllTerms(terms, p) && Field(kind, values, p) {
        AllTermsAppend(terms, Condition(kind, values, []), p);
      }
    }
  }

  method PortValues(ports: seq<PortRange>) returns (values: seq<string>)
    ensures values == Map(PortText, ports)
  {
    values := [];
    for i := 0 to |ports|
      invariant values == Map(PortText, ports[..i])
    {
      var value := Itoa(ports[i].lo);
      if ports[i].hi != ports[i].lo { value := value + ":" + Itoa(ports[i].hi); }
      assert ports[..i + 1] == ports[..i] + [ports[i]];
      MapAppend(PortText, ports[..i], [ports[i]]);
      values := values + [value];
    }
    assert ports[..|ports|] == ports;
  }

  method NetworkValues(networks: seq<Network>) returns (values: seq<string>)
    ensures values == Map(NetworkName, networks)
  {
    values := [];
    for i := 0 to |networks|
      invariant values == Map(NetworkName, networks[..i])
    {
      assert networks[..i + 1] == networks[..i] + [networks[i]];
      MapAppend(NetworkName, networks[..i], [networks[i]]);
      values := values + [NetworkName(networks[i])];
    }
    assert networks[..|networks|] == networks;
  }

  function EntryTerm(e: RuleSetEntry): Condition {
    match e
    case DomainEntry(d, suffix) => Condition(if suffix then "domain_suffix" else "domain", [d], [])
    case CIDREntry(c) => Condition("ip_cidr", [c], [])
  }

  lemma {:induction false} EntryTermMeaning(e: RuleSetEntry, p: Packet)
    ensures Eval(EntryTerm(e), p) <==> EntryMatches(e, p)
  {
    var c := EntryTerm(e);
    assert c.values[0] in c.values;
  }

  ghost predicate AnyEntry(entries: seq<RuleSetEntry>, p: Packet) {
    exists e :: e in entries && EntryMatches(e, p)
  }

  lemma {:induction false} AnyEntryAppend(entries: seq<RuleSetEntry>, e: RuleSetEntry, p: Packet)
    ensures AnyEntry(entries + [e], p) <==> AnyEntry(entries, p) || EntryMatches(e, p)
  {
    assert e in entries + [e];
  }

  /** The entry loop: one alternative per entry, refused when a DNS match meets a CIDR entry. */
  method EntryTerms(terms: seq<Condition>, entries: seq<RuleSetEntry>, dns: bool)
    returns (ok: bool, terms': seq<Condition>)
    ensures ok <==> (dns ==> forall e :: e in entries ==> e.DomainEntry?)
    ensures ok ==> forall p :: AnyTerm(terms', p) <==> AnyTerm(terms, p) || AnyEntry(entries, p)
  {
    ok, terms' := true, terms;
    var i := 0;
    while i < |entries|
      invariant 0 <= i <= |entries|
      invariant dns ==> forall k :: 0 <= k < i ==> entries[k].DomainEntry?
      invariant forall p :: AnyTerm(terms', p) <==> AnyTerm(terms, p) || AnyEntry(entries[..i], p)
    {
      var e := entries[i];
      if e.CIDREntry? && dns {
        assert e in entries;
        ok := false;
        return;
      }
      assert entries[..i + 1] == entries[..i] + [e];
      forall p ensures AnyTerm(terms' + [EntryTerm(e)], p) <==> AnyTerm(terms', p) || EntryMatches(e, p) {
        AnyTermAppend(terms', EntryTerm(e), p);
        EntryTermMeaning(e, p);
      }
      forall p ensures AnyEntry(entries[..i + 1], p) <==> AnyEntry(entries[..i], p) || EntryMatches(e, p) {
        AnyEntryAppend(entries[..i], e, p);
      }
      terms' := terms' + [EntryTerm(e)];
      i := i + 1;
    }
    assert entries[..|entries|] == entries;
  }

  lemma {:induction false} RuleSetsAppend(ids: seq<Id>, id: Id, store: map<Id, Resource>, p: Packet)
    ensures RuleSetsMatch(ids + [id], store, p) <==> RuleSetsMatch(ids, store, p) || AnyEntry(EntriesOf(store, id), p)
  {
    if AnyEntry(EntriesOf(store, id), p) {
      var e :| e in EntriesOf(store, id) && EntryMatches(e, p);
      assert id in ids + [id];
    }
    if RuleSetsMatch(ids, store, p) {
      var d, e :| d in ids && e in EntriesOf(store, d) && EntryMatches(e, p);
      assert d in ids + [id];
    }
  }

  /** The rule-set loop: refused exactly when some set is missing or unusable, else the OR of all entries. */
  method RuleSetTerms(ids: seq<Id>, store: map<Id, Resource>, dns: bool) returns (ok: bool, terms: seq<Condition>)
    ensures ok <==> forall id :: id in ids ==> RuleSetUsable(store, id, dns)
    ensures ok ==> forall p :: AnyTerm(terms, p) <==> RuleSetsMatch(ids, store, p)
  {
    ok, terms := true, [];
    var i := 0;
    while i < |ids|
      invariant 0 <= i <= |ids|
      invariant forall k :: 0 <= k < i ==> RuleSetUsable(store, ids[k], dns)
      invariant forall p :: AnyTerm(terms, p) <==> RuleSetsMatch(ids[..i], store, p)
    {
      assert ids[i] in ids;
      if ids[i] !in store || !store[ids[i]].payload.RuleSet? { ok := false; return; }
      assert EntriesOf(store, ids[i]) == store[ids[i]].payload.entries;
      ok, terms := EntryTerms(terms, store[ids[i]].payload.entries, dns);
      if !ok { return; }
      assert ids[..i + 1] == ids[..i] + [ids[i]];
      forall p ensures RuleSetsMatch(ids[..i + 1], store, p) <==>
          RuleSetsMatch(ids[..i], store, p) || AnyEntry(EntriesOf(store, ids[i]), p) {
        RuleSetsAppend(ids[..i], ids[i], store, p);
      }
      i := i + 1;
    }
    assert ids[..|ids|] == ids;
  }

  lemma {:induction false} PortValueAt(ports: seq<PortRange>, i: nat, p: Packet)
    requires i < |ports|
    ensures ValueMatches("port", Map(PortText, ports)[i], p) <==> ports[i].lo <= p.port <= ports[i].hi
  {
    PortTextMeaning(ports[i], p.port);
  }

  lemma {:induction false} PortsField(ports: seq<PortRange>, p: Packet)
    ensures Field("port", Map(PortText, ports), p) <==> ports == [] || PortsMatch(ports, p)
  {
    var values := Map(PortText, ports);
    if ports != [] {
      if PortsMatch(ports, p) {
        var i :| 0 <= i < |ports| && ports[i].lo <= p.port <= ports[i].hi;
        PortValueAt(ports, i, p);
        assert values[i] in values;
      }
      if v :| v in values && ValueMatches("port", v, p) {
        var i :| 0 <= i < |values| && values[i] == v;
        PortValueAt(ports, i, p);
        assert ports[i] in ports;
      }
    }
  }

  lemma {:induction false} NetworksField(networks: seq<Network>, p: Packet)
    ensures Field("network", Map(NetworkName, networks), p) <==> networks == [] || p.network in networks
  {
    var values := Map(NetworkName, networks);
    if networks != [] {
      if p.network in networks {
        var i :| 0 <= i < |networks| && networks[i] == p.network;
        assert values[i] in values;
      }
      if v :| v in values && ValueMatches("network", v, p) {
        var i :| 0 <= i < |values| && values[i] == v;
        assert networks[i] == p.network;
      }
    }
  }

  lemma {:induction false} LiteralFields(m: RouteMatch, p: Packet)
    ensures Field("domain", m.domainExact, p) <==> m.domainExact == [] || exists d :: d in m.domainExact && p.domain(d)
    ensures Field("domain_suffix", m.domainSuffix, p) <==> m.domainSuffix == [] || exists d ::
            d in m.domainSuffix && p.suffix(d)
    ensures Field("ip_cidr", m.ipCidrs, p) <==> m.ipCidrs == [] || exists c :: c in m.ipCidrs && p.cidr(c)
  {
    assert forall d :: ValueMatches("domain", d, p) <==> p.domain(d);
    assert forall d :: ValueMatches("domain_suffix", d, p) <==> p.suffix(d);
    assert forall c :: ValueMatches("ip_cidr", c, p) <==> p.cidr(c);
  }

  ghost predicate PlainFields(m: RouteMatch, p: Packet) {
    && Field("domain", m.domainExact, p) && Field("domain_suffix", m.domainSuffix, p) && Field("ip_cidr", m.ipCidrs, p)
    && Field("port", Map(PortText, m.ports), p) && Field("network", Map(NetworkName, m.networks), p)
  }

  lemma {:induction false} PlainFieldsMeaning(m: RouteMatch, store: map<Id, Resource>, p: Packet)
    ensures Matches(m, store, p) <==> PlainFields(m, p) && (m.ruleSetIds == [] || RuleSetsMatch(m.ruleSetIds, store, p))
  {
    LiteralFields(m, p);
    PortsField(m.ports, p);
    NetworksField(m.networks, p);
  }

  method PlainTerms(m: RouteMatch) returns (terms: seq<Condition>)
    ensures forall p :: AllTerms(terms, p) <==> PlainFields(m, p)
  {
    terms := AddField([], "domain", m.domainExact);
    terms := AddField(terms, "domain_suffix", m.domainSuffix);
    terms := AddField(terms, "ip_cidr", m.ipCidrs);
    var ports := PortValues(m.ports);
    var networks := NetworkValues(m.networks);
    terms := AddField(terms, "port", ports);
    terms := AddField(terms, "network", networks);
  }

  lemma {:induction false} Unwrap(terms: seq<Condition>, p: Packet)
    ensures Eval(if |terms| == 1 then terms[0] else Condition("and", [], terms), p) <==> AllTerms(terms, p)
  {
  }

  /** routeCondition: refused exactly when not compilable; otherwise it means what the match means. */
  method RouteCondition(m: RouteMatch, store: map<Id, Resource>, dns: bool) returns (r: Option<Condition>)
    ensures r.Some? <==> Compilable(m, store, dns)
    ensures r.Some? ==> forall p :: Eval(r.value, p) <==> Matches(m, store, p)
  {
    var terms := PlainTerms(m);
    ghost var plain := terms;
    if |m.ruleSetIds| > 0 {
      var ok, alternatives := RuleSetTerms(m.ruleSetIds, store, dns);
      if !ok { return None; }
      terms := terms + [Condition("or", [], alternatives)];
      forall p ensures AllTerms(terms, p) <==> AllTerms(plain, p) && RuleSetsMatch(m.ruleSetIds, store, p) {
        AllTermsAppend(plain, Condition("or", [], alternatives), p);
        assert Eval(Condition("or", [], alternatives), p) <==> AnyTerm(alternatives, p);
      }
    }
    r := Some(if |terms| == 1 then terms[0] else Condition("and", [], terms));
    forall p ensures Eval(r.value, p) <==> Matches(m, store, p) {
      Unwrap(terms, p);
      PlainFieldsMeaning(m, store, p);
    }
  }

  // ---- Ordered rules ----

  /** A profile rule with its action already resolved to a tag. */
  datatype SourceRule = SourceRule(match_: RouteMatch, target: string, enabled: bool)

  /** The source reading: the first enabled matching rule decides, else the final target. */
  ghost function Decide(rules: seq<SourceRule>, store: map<Id, Resource>, final: string, p: Packet): string {
    if rules == [] then final
    else if rules[0].enabled && Matches(rules[0].match_, store, p) then rules[0].target
    else Decide(rules[1..], store, final, p)
  }

  /** First match over the compiled rules. */
  ghost function FirstMatch(rules: seq<RouteRule>, final: string, p: Packet): string {
    if rules == [] then final
    else if Eval(rules[0].condition, p) then rules[0].target
    else FirstMatch(rules[1..], final, p)
  }

  function EntryCount(ids: seq<Id>, store: map<Id, Resource>): nat {
    if ids == [] then 0 else |EntriesOf(store, ids[0])| + EntryCount(ids[1..], store)
  }

  /** How many normalised rules a match counts for. */
  function Weight(m: RouteMatch, store: map<Id, Resource>): nat {
    var count := |m.domainExact| + |m.domainSuffix| + |m.ipCidrs| + |m.ports| + |m.networks|
        + EntryCount(m.ruleSetIds, store);
    if count < 1 then 1 else count
  }

  function TotalWeight(rules: seq<SourceRule>, store: map<Id, Resource>): nat {
    if rules == [] then 0
    else (if rules[0].enabled then Weight(rules[0].match_, store) else 0) + TotalWeight(rules[1..], store)
  }

  ghost predicate AllCompilable(rules: seq<SourceRule>, store: map<Id, Resource>, dns: bool) {
    forall i :: 0 <= i < |rules| && rules[i].enabled ==> Compilable(rules[i].match_, store, dns)
  }

  /** out compiles the enabled rules of rules, in order. */
  ghost predicate CompiledFrom(out: seq<RouteRule>, rules: seq<SourceRule>, store: map<Id, Resource>) {
    if rules == [] then out == []
    else if rules[0].enabled then
      && out != [] && out[0].target == rules[0].target
      && (forall p :: Eval(out[0].condition, p) <==> Matches(rules[0].match_, store, p))
      && CompiledFrom(out[1..], rules[1..], store)
    else CompiledFrom(out, rules[1..], store)
  }

  /** Routing compilation preserves meaning for every packet. */
  lemma {:induction false} MeaningPreserved(out: seq<RouteRule>, rules: seq<SourceRule>, store: map<Id, Resource>,
                                            final: string, p: Packet)
    requires CompiledFrom(out, rules, store)
    ensures FirstMatch(out, final, p) == Decide(rules, store, final, p)
    decreases |rules|
  {
    if rules != [] {
      MeaningPreserved(if rules[0].enabled then out[1..] else out, rules[1..], store, final, p);
    }
  }

  lemma {:induction false} CompiledAppend(out: seq<RouteRule>, rules: seq<SourceRule>, store: map<Id, Resource>,
                                          rule: SourceRule, more: seq<RouteRule>)
    requires CompiledFrom(out, rules, store) && CompiledFrom(more, [rule], store)
    ensures CompiledFrom(out + more, rules + [rule], store)
    decreases |rules|
  {
    if rules == [] {
      assert out + more == more && rules + [rule] == [rule];
    } else {
      assert (rules + [rule])[1..] == rules[1..] + [rule];
      if rules[0].enabled {
        CompiledAppend(out[1..], rules[1..], store, rule, more);
        assert (out + more)[1..] == out[1..] + more;
      } else {
        CompiledAppend(out, rules[1..], store, rule, more);
      }
    }
  }

  lemma {:induction false} WeightAppend(rules: seq<SourceRule>, rule: SourceRule, store: map<Id, Resource>)
    ensures TotalWeight(rules + [rule], store) ==
              TotalWeight(rules, store) + if rule.enabled then Weight(rule.match_, store) else 0
  {
    if rules == [] {
      assert rules + [rule] == [rule];
    } else {
      assert (rules + [rule])[1..] == rules[1..] + [rule];
      WeightAppend(rules[1..], rule, store);
    }
  }

  lemma {:induction false} WeightGrows(rules: seq<SourceRule>, i: nat, store: map<Id, Resource>)
    requires i <= |rules|
    ensures TotalWeight(rules[..i], store) <= TotalWeight(rules, store)
    decreases |rules| - i
  {
    if i < |rules| {
      assert rules[..i + 1] == rules[..i] + [rules[i]];
      WeightAppend(rules[..i], rules[i], store);
      WeightGrows(rules, i + 1, store);
    } else {
      assert rules[..i] == rules;
    }
  }

  method CompileRule(rule: SourceRule, store: map<Id, Resource>, dns: bool, path: string) returns (r: Option<RouteRule>)
    requires rule.enabled
    ensures r.Some? <==> Compilable(rule.match_, store, dns)
    ensures r.Some? ==> CompiledFrom([r.value], [rule], store)
  {
    var condition := RouteCondition(rule.match_, store, dns);
    if condition.None? { return None; }
    r := Some(RouteRule(condition.value, rule.target, path));
    assert [r.value][1..] == [] && [rule][1..] == [];
  }

  /**
   The rule loop of prepareOrchestration, for routing and for DNS: it fails exactly when the
   normalised rules exceed the limit or an enabled rule does not compile.
   */
  method CompileRules(rules: seq<SourceRule>, store: map<Id, Resource>, dns: bool, used: nat)
    returns (r: Result<seq<RouteRule>, CompileError>, used': nat)
    requires used <= MAX_RULES
    ensures r.Ok? <==> used + TotalWeight(rules, store) <= MAX_RULES && AllCompilable(rules, store, dns)
    ensures r.Ok? ==> CompiledFrom(r.value, rules, store) && used' == used + TotalWeight(rules, store)
  {
    used' := used;
    var out := [];
    var i := 0;
    while i < |rules|
      invariant 0 <= i <= |rules|
      invariant CompiledFrom(out, rules[..i], store) && AllCompilable(rules[..i], store, dns)
      invariant used' == used + TotalWeight(rules[..i], store) <= MAX_RULES
    {
      var rule := rules[i];
      assert rules[..i + 1] == rules[..i] + [rule];
      WeightAppend(rules[..i], rule, store);
      WeightGrows(rules, i + 1, store);
      if rule.enabled {
        var path := "/payload/rules/" + Itoa(i);
        used' := used' + Weight(rule.match_, store);
        if used' > MAX_RULES { return Err(RuleLimit(path)), used'; }
        var compiled := CompileRule(rule, store, dns, path);
        if compiled.None? { return Err(UnmappedRuleSet(path)), used'; }
        CompiledAppend(out, rules[..i], store, rule, [compiled.value]);
        out := out + [compiled.value];
      } else {
        assert CompiledFrom([], [rule], store) by { assert [rule][1..] == []; }
        CompiledAppend(out, rules[..i], store, rule, []);
        assert out + [] == out;
      }
      i := i + 1;
    }
    assert rules[..|rules|] == rules;
    return Ok(out), used';
  }
}
