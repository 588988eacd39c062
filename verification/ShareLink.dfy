/**
 The parameters of VLESS, Trojan, SOCKS5 and HTTP share links (internal/importparse/emit.go
 shareQuery and encodeShareQuery, internal/importparse/uri.go parseTransport, parseSecurity and
 supportedCombination): printing and parsing are inverse on every representable node.
 */
module ShareLink {
  import opened Nodes
  import opened Prelude
  import opened Query

  const XTLS_VISION := "xtls-rprx-vision"

  datatype Protocol = VLESS | Trojan | SOCKS5 | HTTP

  datatype Node = Node(protocol: Protocol, host: string, transport: Transport, security: Security, flow: Option<string>)

  datatype Scheme = VlessScheme | TrojanScheme | Socks5Scheme | HttpScheme | HttpsScheme

  /** Host normalisation and the text check, as the environment provides them. */
  datatype Env = Env(normalize: string -> Option<string>, safe: string -> bool)

  datatype LinkError = Unsupported | InvalidValue | Ambiguous | UnsafeTLS | RequiredField | Unrepresentable

  // ---- Parameter names ----

  datatype Key =
    | TypeK | PathK | HostK | SecurityK | SniK | AlpnK | FpK | PbkK | SidK | FlowK | EncryptionK
    | AllowInsecureK | InsecureK | SkipVerifyK

  function Text(k: Key): string {
    match k
    case TypeK => "type"
    case PathK => "path"
    case HostK => "host"
    case SecurityK => "security"
    case SniK => "sni"
    case AlpnK => "alpn"
    case FpK => "fp"
    case PbkK => "pbk"
    case SidK => "sid"
    case FlowK => "flow"
    case EncryptionK => "encryption"
    case AllowInsecureK => "allowInsecure"
    case InsecureK => "insecure"
    case SkipVerifyK => "skip-cert-verify"
  }

  /** Length and two letters tell the names apart. */
  function Mark(s: string): (int, char, char)
    requires |s| >= 2
  {
    (|s|, s[0], s[1])
  }

  lemma {:induction false} TextInjective(k: Key, l: Key)
    requires Text(k) == Text(l)
    ensures k == l
  {
    assert Mark(Text(k)) == Mark(Text(l));
  }

  type Values = map<Key, string>

  function Get(m: Values, k: Key): Option<string> { if k in m then Some(m[k]) else None }

  // ---- Printing ----

  function SchemeOf(n: Node): Scheme {
    match n.protocol
    case VLESS => VlessScheme
    case Trojan => TrojanScheme
    case SOCKS5 => Socks5Scheme
    case HTTP => if n.security.TLS? then HttpsScheme else HttpScheme
  }

  predicate Plain(p: Protocol) { p.SOCKS5? || p.HTTP? }

  function Given(s: string): Option<string> { if s == "" then None else Some(s) }

  function GivenList(l: seq<string>): Option<string> { if l == [] then None else Some(Join(l, ',')) }

  function SniOf(n: Node): Option<string> {
    match n.security
    case NoSecurity => None
    case TLS(name, _, _, _) => if name == n.host then None else Given(name)
    case Reality(name, _, _, _, _) => Some(name)
  }

  function SecurityText(n: Node): Option<string> {
    match n.security
    case NoSecurity => if Plain(n.protocol) then None else Some("none")
    case TLS(_, _, _, _) => if n.protocol.HTTP? then None else Some("tls")
    case Reality(_, _, _, _, _) => Some("reality")
  }

  /** What a link says about each parameter; defaults are left out. */
  function Expected(n: Node, k: Key): Option<string> {
    match k
    case TypeK => if n.transport.WebSocket? then Some("ws") else if Plain(n.protocol) then None else Some("tcp")
    case PathK => if n.transport.WebSocket? then Given(n.transport.path) else None
    case HostK => if n.transport.WebSocket? then n.transport.host else None
    case SecurityK => SecurityText(n)
    case SniK => SniOf(n)
    case AlpnK => if n.security.NoSecurity? then None else GivenList(n.security.alpn)
    case FpK =>
      if n.security.TLS? then (if n.security.fingerprint == Some("") then None else n.security.fingerprint)
      else if n.security.Reality? then Some(n.security.realityFingerprint) else None
    case PbkK => if n.security.Reality? then Some(n.security.publicKey) else None
    case SidK => if n.security.Reality? then Some(n.security.shortId) else None
    case FlowK => if n.protocol.VLESS? then n.flow else None
    case _ => None
  }

  predicate Printable(n: Node) {
    && !(n.protocol.Trojan? && n.security.NoSecurity?)
    && !(n.security.TLS? && n.security.verify == Some(false))
    && (n.flow.Some? ==> n.protocol.VLESS?)
  }

  ghost predicate Prints(n: Node, m: Values) { forall k :: Get(m, k) == Expected(n, k) }

  predicate SecurityKey(k: Key) { k in {SecurityK, SniK, AlpnK, FpK, PbkK, SidK} }

  /** The transport's parameters, before a default type is dropped. */
  function TransportPart(n: Node, k: Key): Option<string> {
    if k.TypeK? then Some(if n.transport.WebSocket? then "ws" else "tcp")
    else if k.PathK? || k.HostK? then Expected(n, k) else None
  }

  method PutTransport(n: Node) returns (extra: Values)
    ensures forall k :: Get(extra, k) == TransportPart(n, k)
  {
    extra := map[];
    match n.transport {
      case NativeTCP =>
        extra := extra[TypeK := "tcp"];
      case WebSocket(path, host) =>
        extra := extra[TypeK := "ws"];
        if path != "" { extra := extra[PathK := path]; }
        if host.Some? { extra := extra[HostK := host.value]; }
    }
  }

  method PutTLS(n: Node, m: Values) returns (extra: Values)
    requires n.security.TLS? && forall k :: SecurityKey(k) ==> k !in m
    ensures forall k :: Get(extra, k) == if SecurityKey(k) then Expected(n, k) else Get(m, k)
  {
    extra := m;
    var t := n.security;
    if !n.protocol.HTTP? { extra := extra[SecurityK := "tls"]; }
    if t.serverName != "" && t.serverName != n.host { extra := extra[SniK := t.serverName]; }
    if |t.alpn| > 0 { extra := extra[AlpnK := Join(t.alpn, ',')]; }
    if t.fingerprint.Some? && t.fingerprint.value != "" { extra := extra[FpK := t.fingerprint.value]; }
  }

  method PutReality(n: Node, m: Values) returns (extra: Values)
    requires n.security.Reality? && forall k :: SecurityKey(k) ==> k !in m
    ensures forall k :: Get(extra, k) == if SecurityKey(k) then Expected(n, k) else Get(m, k)
  {
    var t := n.security;
    extra := m[SecurityK := "reality"];
    extra := extra[SniK := t.serverName];
    extra := extra[PbkK := t.publicKey];
    extra := extra[SidK := t.shortId];
    extra := extra[FpK := t.realityFingerprint];
    if |t.alpn| > 0 { extra := extra[AlpnK := Join(t.alpn, ',')]; }
  }

  /** shareQuery and the flow of encodeShareQuery, filling the map step by step. */
  method ShareQuery(n: Node) returns (r: Option<Values>)
    ensures r.Some? <==> Printable(n)
    ensures r.Some? ==> Prints(n, r.value)
  {
    var extra := PutTransport(n);
    forall k | SecurityKey(k) ensures k !in extra { assert Get(extra, k) == TransportPart(n, k); }
    ghost var base := extra;
    match n.security {
      case NoSecurity =>
        if n.protocol.Trojan? { return None; }
        if !Plain(n.protocol) { extra := extra[SecurityK := "none"]; }
      case TLS(_, verify, _, _) =>
        if verify == Some(false) { return None; }
        extra := PutTLS(n, extra);
      case Reality(_, _, _, _, _) =>
        extra := PutReality(n, extra);
    }
    ghost var secured := extra;
    assert forall k :: Get(secured, k) == if SecurityKey(k) then Expected(n, k) else Get(base, k);
    if n.transport.NativeTCP? && Plain(n.protocol) { extra := extra - {TypeK}; }
    if n.flow.Some? {
      if !n.protocol.VLESS? { return None; }
      extra := extra[FlowK := n.flow.value];
    }
    forall k ensures Get(extra, k) == Expected(n, k) {
      assert Get(base, k) == TransportPart(n, k);
      assert Get(secured, k) == if SecurityKey(k) then Expected(n, k) else Get(base, k);
    }
    return Some(extra);
  }

  // ---- Parsing ----

  predicate Allowed(s: Scheme, k: Key) {
    || k in {TypeK, SecurityK, SniK, AlpnK, FpK, AllowInsecureK, InsecureK, SkipVerifyK}
    || (k in {PathK, HostK} && (s.VlessScheme? || s.TrojanScheme?))
    || (k in {EncryptionK, FlowK, PbkK, SidK} && s.VlessScheme?)
  }

  function ParseTransport(env: Env, q: Values): Result<Transport, LinkError> {
    var kind := if TypeK in q then q[TypeK] else "tcp";
    if kind == "tcp" then
      if PathK in q || HostK in q then Err(Unsupported) else Ok(NativeTCP)
    else if kind == "ws" then
      var path := if PathK in q then q[PathK] else "/";
      if HostK !in q then Ok(WebSocket(path, None))
      else
        var host := env.normalize(q[HostK]);
        if host.None? then Err(InvalidValue) else Ok(WebSocket(path, host))
    else Err(Unsupported)
  }

  /** The three spellings of an unverified certificate: a refusal, or how many were given. */
  function Insecure(q: Values): Result<nat, LinkError> {
    var a, b, c := Get(q, AllowInsecureK), Get(q, InsecureK), Get(q, SkipVerifyK);
    if a in {Some("1"), Some("true")} || b in {Some("1"), Some("true")} || c in {Some("1"), Some("true")}
        then Err(UnsafeTLS)
    else if a !in {None, Some("0"), Some("false")} || b !in {None, Some("0"), Some("false")}
            || c !in {None, Some("0"), Some("false")} then Err(InvalidValue)
    else
      var n := (if a.Some? then 1 else 0) + (if b.Some? then 1 else 0) + if c.Some? then 1 else 0;
      if n > 1 then Err(Ambiguous) else Ok(n)
  }

  predicate AlpnItem(env: Env, p: string) { p != "" && |p| <= 255 && env.safe(p) && ' ' !in p }

  predicate AlpnOK(env: Env, l: seq<string>) {
    (forall i :: 0 <= i < |l| ==> AlpnItem(env, l[i])) && forall i, j :: 0 <= i < j < |l| ==> l[i] != l[j]
  }

  function ParseAlpn(env: Env, q: Values): Result<seq<string>, LinkError> {
    if AlpnK !in q then Ok([])
    else
      var l := Split(q[AlpnK], ',');
      if AlpnOK(env, l) then Ok(l) else Err(InvalidValue)
  }

  function ParseName(env: Env, q: Values, host: string): Option<string> {
    if SniK in q then env.normalize(q[SniK]) else Some(host)
  }

  function ParseSecurity(env: Env, q: Values, default_: string, host: string): Result<Security, LinkError> {
    var mode := if SecurityK in q then q[SecurityK] else default_;
    var insecure := Insecure(q);
    if insecure.Err? then Err(insecure.error)
    else if mode == "none" then
      if SniK in q || AlpnK in q || FpK in q || PbkK in q || SidK in q || insecure.value > 0 then Err(Unsupported)
          else Ok(NoSecurity)
    else if mode != "tls" && mode != "reality" then Err(Unsupported)
    else
      var name, alpn := ParseName(env, q, host), ParseAlpn(env, q);
      if name.None? then Err(InvalidValue)
      else if alpn.Err? then Err(alpn.error)
      else if mode == "reality" then
        if SniK !in q || q[SniK] == "" || PbkK !in q || q[PbkK] == "" || SidK !in q || FpK !in q || q[FpK] == ""
            then Err(RequiredField)
        else if insecure.value > 0 then Err(Unsupported)
        else Ok(Reality(name.value, alpn.value, q[FpK], q[PbkK], ToLower(q[SidK])))
      else if PbkK in q || SidK in q then Err(Unsupported)
      else Ok(TLS(name.value, Some(true), alpn.value, Get(q, FpK)))
  }

  function ParseFlow(s: Scheme, q: Values): Result<Option<string>, LinkError> {
    if !s.VlessScheme? then Ok(None)
    else if EncryptionK in q && q[EncryptionK] != "none" then Err(Unsupported)
    else if FlowK !in q then Ok(None)
    else if q[FlowK] != XTLS_VISION then Err(Unsupported) else Ok(Some(q[FlowK]))
  }

  function DefaultSecurity(s: Scheme): string { if s.TrojanScheme? || s.HttpsScheme? then "tls" else "none" }

  function ProtocolOf(s: Scheme): Protocol {
    match s
    case VlessScheme => VLESS
    case TrojanScheme => Trojan
    case Socks5Scheme => SOCKS5
    case _ => HTTP
  }

  /** supportedCombination. */
  predicate Supported(n: Node) {
    && (Plain(n.protocol) ==> n.transport.NativeTCP?)
    && (n.protocol.Trojan? ==> n.security.TLS?)
    && (n.security.Reality? ==> n.protocol.VLESS? && n.transport.NativeTCP?)
    && (n.flow.Some? ==> n.transport.NativeTCP? && !n.security.NoSecurity?)
  }

  /** parseURLNode after the endpoint and the credentials, with the final combination check. */
  function ParseLink(env: Env, s: Scheme, host: string, q: Values): Result<Node, LinkError> {
    if exists k :: k in q && !Allowed(s, k) then Err(Unsupported)
    else
      var flow := ParseFlow(s, q);
      if flow.Err? then Err(flow.error)
      else
        var transport := ParseTransport(env, q);
        if transport.Err? then Err(transport.error)
        else if (s.HttpScheme? || s.HttpsScheme?) && SecurityK in q && q[SecurityK] != ""
                && q[SecurityK] != DefaultSecurity(s) then Err(Ambiguous)
        else
          var security := ParseSecurity(env, q, DefaultSecurity(s), host);
          if security.Err? then Err(security.error)
          else
            var n := Node(ProtocolOf(s), host, transport.value, security.value, flow.value);
            if Supported(n) then Ok(n) else Err(Unsupported)
  }

  // ---- The round trip ----

  /** The normaliser leaves the host as it is. */
  predicate Fixed(env: Env, host: string) { env.normalize(host) == Some(host) }

  predicate AlpnPrintable(env: Env, l: seq<string>) { AlpnOK(env, l) && forall i :: 0 <= i < |l| ==> ',' !in l[i] }

  predicate TransportExact(env: Env, n: Node) {
    n.transport.WebSocket? ==> n.transport.path != "" && (n.transport.host.Some? ==> Fixed(env, n.transport.host.value))
  }

  /** The endpoint's own name is left out and needs no normalising. */
  predicate TLSExact(env: Env, n: Node) {
    n.security.TLS? ==>
      && (n.security.serverName == n.host || (n.security.serverName != "" && Fixed(env, n.security.serverName)))
      && n.security.verify == Some(true) && AlpnPrintable(env, n.security.alpn) && n.security.fingerprint != Some("")
  }

  predicate RealityExact(env: Env, n: Node) {
    n.security.Reality? ==>
      && n.security.serverName != "" && Fixed(env, n.security.serverName) && AlpnPrintable(env, n.security.alpn)
      && n.security.publicKey != "" && n.security.realityFingerprint != ""
          && ToLower(n.security.shortId) == n.security.shortId
  }

  predicate FlowExact(n: Node) { n.flow.Some? ==> n.flow.value == XTLS_VISION && n.protocol.VLESS? }

  /** A node a link can carry. */
  predicate Representable(env: Env, n: Node) {
    Supported(n) && FlowExact(n) && TransportExact(env, n) && TLSExact(env, n) && RealityExact(env, n)
  }

  lemma {:induction false} PrintedKey(n: Node, m: Values, k: Key)
    requires Prints(n, m)
    ensures Get(m, k) == Expected(n, k) && (k in m <==> Expected(n, k).Some?)
    ensures (k in m ==> m[k] == Expected(n, k).value)
  {
  }

  lemma {:induction false} TransportBack(env: Env, n: Node, m: Values)
    requires Prints(n, m)
    ensures ParseTransport(env, m) == Ok(n.transport) <==> TransportExact(env, n)
  {
    PrintedKey(n, m, TypeK);
    PrintedKey(n, m, PathK);
    PrintedKey(n, m, HostK);
  }

  lemma {:induction false} FlowBack(n: Node, m: Values)
    requires Prints(n, m)
    ensures ParseFlow(SchemeOf(n), m) == Ok(n.flow) <==> FlowExact(n)
  {
    PrintedKey(n, m, FlowK);
    PrintedKey(n, m, EncryptionK);
  }

  lemma {:induction false} AlpnBack(env: Env, n: Node, m: Values)
    requires Prints(n, m) && !n.security.NoSecurity?
    ensures ParseAlpn(env, m) == Ok(n.security.alpn) <==> AlpnPrintable(env, n.security.alpn)
  {
    PrintedKey(n, m, AlpnK);
    var l := n.security.alpn;
    if l != [] {
      SplitClean(Join(l, ','), ',');
      if AlpnPrintable(env, l) { SplitJoin(l, ','); }
    }
  }

  lemma {:induction false} NameBack(env: Env, n: Node, m: Values)
    requires Prints(n, m)
    ensures n.security.TLS? ==>
              (ParseName(env, m, n.host) == Some(n.security.serverName) <==>
               n.security.serverName == n.host || (n.security.serverName != "" && Fixed(env, n.security.serverName)))
    ensures n.security.Reality? ==>
            (ParseName(env, m, n.host) == Some(n.security.serverName) <==> Fixed(env, n.security.serverName))
  {
    PrintedKey(n, m, SniK);
  }

  lemma {:induction false} SecureFlags(n: Node, m: Values)
    requires Prints(n, m)
    ensures Insecure(m) == Ok(0)
  {
    PrintedKey(n, m, AllowInsecureK);
    PrintedKey(n, m, InsecureK);
    PrintedKey(n, m, SkipVerifyK);
  }

  /** The mode is read back, through the scheme's default where it was left out. */
  lemma {:induction false} ModeBack(n: Node, m: Values)
    requires Prints(n, m) && Supported(n)
    ensures (if SecurityK in m then m[SecurityK] else DefaultSecurity(SchemeOf(n))) ==
            if n.security.NoSecurity? then "none" else if n.security.TLS? then "tls" else "reality"
  {
    PrintedKey(n, m, SecurityK);
  }

  lemma {:induction false} SecurityBack(env: Env, n: Node, m: Values)
    requires Prints(n, m) && Supported(n)
    ensures ParseSecurity(env, m, DefaultSecurity(SchemeOf(n)), n.host) == Ok(n.security) <==>
            TLSExact(env, n) && RealityExact(env, n)
  {
    SecureFlags(n, m);
    ModeBack(n, m);
    PrintedKey(n, m, SniK);
    PrintedKey(n, m, AlpnK);
    PrintedKey(n, m, FpK);
    PrintedKey(n, m, PbkK);
    PrintedKey(n, m, SidK);
    if !n.security.NoSecurity? {
      NameBack(env, n, m);
      AlpnBack(env, n, m);
    }
  }

  lemma {:induction false} KeysAllowed(n: Node, m: Values, k: Key)
    requires Prints(n, m) && Supported(n) && FlowExact(n) && k in m
    ensures Allowed(SchemeOf(n), k)
  {
    PrintedKey(n, m, k);
  }

  /** What Ok means: the parts read back, and the whole is supported. */
  lemma {:induction false} ParsedParts(env: Env, n: Node, m: Values)
    requires (forall k :: k in m ==> Allowed(SchemeOf(n), k)) && Supported(n) && Prints(n, m)
    ensures ParseLink(env, SchemeOf(n), n.host, m) == Ok(n) <==>
            && ParseFlow(SchemeOf(n), m) == Ok(n.flow) && ParseTransport(env, m) == Ok(n.transport)
            && ParseSecurity(env, m, DefaultSecurity(SchemeOf(n)), n.host) == Ok(n.security)
  {
    PrintedKey(n, m, SecurityK);
  }

  lemma {:induction false} ParsedSupported(env: Env, n: Node, m: Values)
    requires ParseLink(env, SchemeOf(n), n.host, m) == Ok(n)
    ensures Supported(n) && ParseFlow(SchemeOf(n), m) == Ok(n.flow)
  {
  }

  /**
   Parsing the printed parameters rebuilds the node, every omitted default included, if and only if a
   link can carry it.
   */
  lemma {:induction false} LinkRoundTrip(env: Env, n: Node, m: Values)
    requires Prints(n, m)
    ensures ParseLink(env, SchemeOf(n), n.host, m) == Ok(n) <==> Representable(env, n)
  {
    FlowBack(n, m);
    TransportBack(env, n, m);
    if ParseLink(env, SchemeOf(n), n.host, m) == Ok(n) { ParsedSupported(env, n, m); }
    if Supported(n) && FlowExact(n) {
      SecurityBack(env, n, m);
      forall k | k in m ensures Allowed(SchemeOf(n), k) { KeysAllowed(n, m, k); }
      ParsedParts(env, n, m);
    }
  }

  /** The node with its ALPN list as a link tells it: joined and split at the commas. */
  function Resplit(n: Node): Node
    requires !n.security.NoSecurity? && n.security.alpn != []
  {
    n.(security := n.security.(alpn := Split(Join(n.security.alpn, ','), ',')))
  }

  lemma {:induction false} ResplitPrints(n: Node, m: Values)
    requires !n.security.NoSecurity? && n.security.alpn != [] && Prints(n, m)
    ensures Prints(Resplit(n), m)
  {
    JoinSplit(Join(n.security.alpn, ','), ',');
    forall k ensures Get(m, k) == Expected(Resplit(n), k) { PrintedKey(n, m, k); }
  }

  /** A link cannot tell an entry with a comma from two entries: it is read as the node with the list split further. */
  lemma {:induction false} CommaSplits(env: Env, n: Node, m: Values)
    requires !n.security.NoSecurity? && n.security.alpn != [] && Prints(n, m)
    ensures ParseLink(env, SchemeOf(n), n.host, m) == Ok(Resplit(n)) <==> Representable(env, Resplit(n))
    ensures (exists i :: 0 <= i < |n.security.alpn| && ',' in n.security.alpn[i]) ==>
              Resplit(n) != n && ParseLink(env, SchemeOf(n), n.host, m) != Ok(n)
  {
    ResplitPrints(n, m);
    LinkRoundTrip(env, Resplit(n), m);
    LinkRoundTrip(env, n, m);
    SplitClean(Join(n.security.alpn, ','), ',');
  }

  /** A valid VLESS node, but for its ALPN list. */
  function Offering(alpn: seq<string>): Node {
    Node(VLESS, "example.com", NativeTCP, TLS("example.com", Some(true), alpn, None), None)
  }

  /** The entry "a,b" comes back as the entries "a" and "b". */
  lemma {:induction false} CommaLost(env: Env, m: Values)
    requires Prints(Offering(["a,b"]), m) && env.safe("a") && env.safe("b")
    ensures ParseLink(env, VlessScheme, "example.com", m) == Ok(Offering(["a", "b"]))
    ensures Offering(["a", "b"]) != Offering(["a,b"])
  {
    var l := ["a", "b"];
    assert l[1..] == ["b"] && Join(l, ',') == "a,b" == Join(["a,b"], ',');
    SplitJoin(l, ',');
    assert l[0] != l[1];
    CommaSplits(env, Offering(["a,b"]), m);
    assert Offering(l).security.alpn == l && Offering(["a,b"]).security.alpn == ["a,b"];
  }

  // ---- Through the text of the query ----

  const KEYS: set<Key> := {TypeK, PathK, HostK, SecurityK, SniK, AlpnK, FpK, PbkK, SidK, FlowK, EncryptionK,
      AllowInsecureK, InsecureK, SkipVerifyK}

  ghost predicate TextOf(q: Params, m: Values) {
    && (forall t :: t in q ==> exists k :: k in m && Text(k) == t)
    && forall k :: k in m ==> Text(k) in q && q[Text(k)] == m[k]
  }

  /** The parameters under their names. */
  method ByText(m: Values) returns (q: Params)
    ensures TextOf(q, m)
  {
    q := map[];
    var todo := m.Keys;
    while todo != {}
      invariant todo <= m.Keys
      invariant forall t :: t in q ==> exists k :: k in m && k !in todo && Text(k) == t
      invariant forall k :: k in m && k !in todo ==> Text(k) in q && q[Text(k)] == m[k]
    {
      var k :| k in todo;
      forall l | l in m && l !in todo ensures Text(l) != Text(k) { if Text(l) == Text(k) { TextInjective(l, k); } }
      q, todo := q[Text(k) := m[k]], todo - {k};
    }
  }

  /** The known parameters of a parsed query. */
  function Read(q: Params): Values { map k | k in KEYS && Text(k) in q :: q[Text(k)] }

  lemma {:induction false} KeysAll(k: Key)
    ensures k in KEYS
  {
  }

  lemma {:induction false} TextThere(q: Params, m: Values, k: Key)
    requires TextOf(q, m)
    ensures Text(k) in q <==> k in m
    ensures k in m ==> q[Text(k)] == m[k]
  {
    if Text(k) in q {
      var l :| l in m && Text(l) == Text(k);
      TextInjective(l, k);
    }
  }

  lemma {:induction false} ReadBack(q: Params, m: Values)
    requires TextOf(q, m)
    ensures Read(q) == m
  {
    var r := Read(q);
    forall k ensures (k in r <==> k in m) && (k in m ==> r[k] == m[k]) {
      KeysAll(k);
      TextThere(q, m, k);
    }
  }

  /** parseURLNode from the text of the query. */
  function ParseText(env: Env, texts: Texts, s: Scheme, host: string, text: string): Result<Node, LinkError> {
    var q := ParseQuery(text, texts);
    if q.Err? then Err(InvalidValue) else ParseLink(env, s, host, Read(q.value))
  }

  /**
   Printed as text and read strictly, a node comes back if and only if a link can carry it and its texts are
   acceptable.
   */
  lemma {:induction false} LinkTextRoundTrip(env: Env, texts: Texts, n: Node, m: Values, q: Params, ks: seq<string>)
    requires Prints(n, m) && TextOf(q, m) && ParamsOK(q)
    requires Distinct(ks) && ToSet(ks) == q.Keys && forall k :: 0 <= k < |ks| ==> ks[k] in q
    ensures ParseText(env, texts, SchemeOf(n), n.host, Join(Entries(q, ks), '&')) == Ok(n) <==>
            Representable(env, n) && Accepted(q, texts)
  {
    QueryRoundTrip(q, ks, texts);
    ReadBack(q, m);
    LinkRoundTrip(env, n, m);
  }

  /**
   An empty WebSocket path is the one path a link cannot carry: it is read back as the root. A valid node has none;
   this is about shareQuery and the parser taken alone.
   */
  lemma {:induction false} EmptyPathLost(env: Env, n: Node, m: Values)
    requires n.transport.WebSocket? && n.transport.path == "" && Prints(n, m)
    ensures ParseLink(env, SchemeOf(n), n.host, m) != Ok(n)
    ensures ParseTransport(env, m).Ok? ==>
            ParseTransport(env, m).value.WebSocket? && ParseTransport(env, m).value.path == "/"
  {
    LinkRoundTrip(env, n, m);
    PrintedKey(n, m, TypeK);
    PrintedKey(n, m, PathK);
  }

  /** All texts of the node are bytes, as Go strings are. */
  ghost predicate NodeBytes(n: Node) { forall k :: Expected(n, k).Some? ==> AllBytes(Expected(n, k).value) }

  lemma {:induction false} KeyBytes(k: Key)
    ensures Text(k) != "" && AllBytes(Text(k))
  {
  }

  lemma {:induction false} TextParams(n: Node, m: Values, q: Params)
    requires NodeBytes(n) && Prints(n, m) && TextOf(q, m)
    ensures ParamsOK(q)
  {
    forall t | t in q ensures t != "" && AllBytes(t) && AllBytes(q[t]) {
      var k :| k in m && Text(k) == t;
      KeyBytes(k);
      PrintedKey(n, m, k);
    }
  }

  /**
   encodeShareQuery after the question mark: refused for an unprintable node, else the text reads back
   exactly when it can.
   */
  method EncodeShareQuery(n: Node) returns (r: Option<string>, q: Params)
    requires NodeBytes(n)
    ensures r.Some? <==> Printable(n)
    ensures r.Some? ==> forall env, texts ::
              ParseText(env, texts, SchemeOf(n), n.host, r.value) == Ok(n) <==>
                  Representable(env, n) && Accepted(q, texts)
  {
    var m := ShareQuery(n);
    if m.None? { return None, map[]; }
    q := ByText(m.value);
    TextParams(n, m.value, q);
    var text, ks := EncodeQuery(q);
    forall env, texts ensures ParseText(env, texts, SchemeOf(n), n.host, text) == Ok(n) <==>
        Representable(env, n) && Accepted(q, texts) {
      LinkTextRoundTrip(env, texts, n, m.value, q, ks);
    }
    r := Some(text);
  }
}
