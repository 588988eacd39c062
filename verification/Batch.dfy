/**
 Importing and exporting lists of share links (internal/importparse/batch.go, internal/importparse/uri.go
 ParseURI, internal/importparse/emit.go EncodeURI, internal/server/exports.go encodeExport): a list that
 exports is imported again, as text or through one or two Base64 layers, link by link and in order. Text
 is bytes, one character each.
 */
module Batch {
  import opened Prelude
  import opened Query
  import Base64
  import opened Layers
  import opened Listing
  import opened Utf8

  const MAX_DECODED_BYTES := 10 * 1024 * 1024
  const MAX_ENTRIES := 5000
  const MAX_URI_BYTES := 16 * 1024

  const AUTO := "auto"
  const TEXT := "text"

  // ---- One link ----

  /** A node's origin and the connection data a link carries. */
  datatype Node<V> = Node(origin: V, protocol: V, endpoint: V, auth: V, transport: V, security: V, features: V)

  datatype LinkError = URITooLarge | BadEncoding | InvalidURI | UnknownScheme | InvalidLink | InvalidName

  datatype Outcome<V> = Accepted(name: string, node: Node<V>) | Refused(error: LinkError)

  /** What an encoder prints: an endpoint with optional parameters and name, or a VMess document. */
  datatype Link =
    | EndpointLink(front: string, port: nat, params: seq<(string, string)>)
    | DocumentLink(document: string)

  /** The protocols' own encoders and parsers, and the node checks before export. */
  datatype Env<!V> = Env(
    blocked: Node<V> -> Option<string>,
    encode: (string, Node<V>) -> Option<Link>,
    parse: (string, string) -> Option<(string, Node<V>)>)

  const SCHEMES: set<string> := {"vmess", "ss", "vless", "trojan", "socks5", "http", "https"}

  predicate Letter(c: char) { 'a' <= c <= 'z' || 'A' <= c <= 'Z' }

  predicate SchemeText(s: string) {
    forall i :: 0 <= i < |s| ==> Letter(s[i]) || (i > 0 && (IsDigit(s[i]) || s[i] == '+' || s[i] == '-' || s[i] == '.'))
  }

  /** strings.Index of "://". */
  function SchemeEnd(s: string): (at: int)
    ensures -1 <= at && (at >= 0 ==> at + 3 <= |s| && s[at] == ':')
  {
    if |s| < 3 then -1
    else if s[0] == ':' && s[1] == '/' && s[2] == '/' then 0
    else var rest := SchemeEnd(s[1..]); if rest < 0 then -1 else rest + 1
  }

  /** uriScheme. */
  function UriScheme(raw: string): Option<string> {
    var at := SchemeEnd(raw);
    if at <= 0 || !SchemeText(raw[..at]) then None else Some(ToLower(raw[..at]))
  }

  lemma {:induction false} SchemeStart(raw: string)
    requires UriScheme(raw).Some?
    ensures |raw| >= 4 && Letter(raw[0])
  {
    assert raw[..SchemeEnd(raw)][0] == raw[0];
  }

  /** ParseURI. */
  function ParseURI<V>(env: Env<V>, raw: string): Outcome<V> {
    if |raw| > MAX_URI_BYTES then Refused(URITooLarge)
    else if !Valid(raw) then Refused(BadEncoding)
    else if !SafeText(raw) then Refused(InvalidURI)
    else
      var scheme := UriScheme(raw);
      if scheme.None? then Refused(InvalidURI)
      else if scheme.value !in SCHEMES then Refused(UnknownScheme)
      else
        var parsed := env.parse(scheme.value, raw);
        if parsed.None? then Refused(InvalidLink)
        else if parsed.value.0 != "" && !SafeText(parsed.value.0) then Refused(InvalidName)
        else Accepted(parsed.value.0, parsed.value.1)
  }

  // ---- Printing one link ----

  /** url.PathEscape. */
  function EscapeSegment(s: string): string
    requires AllBytes(s)
  {
    if s == "" then ""
    else (if Unreserved(s[0]) || s[0] in {'$', '&', '+', ':', '=', '@'} then [s[0]]
          else ['%', HexDigit(s[0] as int / 16), HexDigit(s[0] as int % 16)]) + EscapeSegment(s[1..])
  }

  function Fragment(name: string): string
    requires AllBytes(name)
  { if name == "" then "" else "#" + EscapeSegment(name)
  }

  predicate ParamsBytes(params: seq<(string, string)>) {
    forall i :: 0 <= i < |params| ==> AllBytes(params[i].0) && AllBytes(params[i].1)
  }

  function Pairs(params: seq<(string, string)>): (r: seq<string>)
    requires ParamsBytes(params)
    ensures |r| == |params| && forall i :: 0 <= i < |params| ==> r[i] == Entry(params[i].0, params[i].1)
  {
    seq(|params|, i requires 0 <= i < |params| => Entry(params[i].0, params[i].1))
  }

  function QueryText(params: seq<(string, string)>): string
    requires ParamsBytes(params)
  {
    if params == [] then "" else "?" + Join(Pairs(params), '&')
  }

  /** Text is bytes. */
  predicate Printable(l: Link) { if l.EndpointLink? then ParamsBytes(l.params) else AllBytes(l.document) }

  function LinkText(l: Link, name: string): string
    requires Printable(l) && AllBytes(name)
  {
    match l
    case EndpointLink(front, port, params) => front + (":" + Itoa(port) + QueryText(params) + Fragment(name))
    case DocumentLink(document) => "vmess://" + Base64.Encode(document, false, true)
  }

  datatype ExportError = ExportError(path: string)

  /** The connection fields, in the order they are compared, each under its path. */
  function Compared<V>(before: Node<V>, after: Node<V>): seq<(string, V, V)> {
    [("/node/protocol", before.protocol, after.protocol), ("/node/endpoint", before.endpoint, after.endpoint),
     ("/node/auth", before.auth, after.auth), ("/node/transport", before.transport, after.transport),
     ("/node/security", before.security, after.security), ("/node/features", before.features, after.features)]
  }

  predicate SameConnection<V(==)>(a: Node<V>, b: Node<V>) { a.(origin := b.origin) == b }

  ghost predicate Restores<V>(o: Outcome<V>, name: string, node: Node<V>) {
    o.Accepted? && o.name == name && SameConnection(o.node, node)
  }

  /** A link that stands for the node: printed by its encoder, and read back to the same name and connection. */
  ghost predicate Exported<V>(env: Env<V>, name: string, node: Node<V>, uri: string) {
    && env.blocked(node).None? && SafeText(name) && AllBytes(name)
    && env.encode(name, node).Some? && Printable(env.encode(name, node).value)
    && uri == LinkText(env.encode(name, node).value, name)
    && Restores(ParseURI(env, uri), name, node)
  }

  ghost predicate CanExport<V>(env: Env<V>, name: string, node: Node<V>) {
    exists uri :: Exported(env, name, node, uri)
  }

  /** EncodeURI: a link comes out exactly when it stands for the node. */
  method EncodeURI<V(==)>(env: Env<V>, name: string, node: Node<V>) returns (r: Result<string, ExportError>)
    ensures r.Ok? <==> CanExport(env, name, node)
    ensures r.Ok? ==> Exported(env, name, node, r.value)
  {
    var blocked := env.blocked(node);
    if blocked.Some? { return Err(ExportError(blocked.value)); }
    if !SafeText(name) { return Err(ExportError("/name")); }
    var link := env.encode(name, node);
    if link.None? || !Printable(link.value) { return Err(ExportError("/node")); }
    ValidBytes(name);
    var uri := LinkText(link.value, name);
    var parsed := ParseURI(env, uri);
    if parsed.Refused? { return Err(ExportError("/node")); }
    if parsed.name != name { return Err(ExportError("/name")); }
    var fields, i := Compared(node, parsed.node), 0;
    while i < |fields|
      invariant 0 <= i <= |fields|
      invariant forall j :: 0 <= j < i ==> fields[j].1 == fields[j].2
    {
      if fields[i].1 != fields[i].2 {
        assert !SameConnection(parsed.node, node);
        return Err(ExportError(fields[i].0));
      }
      i := i + 1;
    }
    assert fields[0].1 == fields[0].2 && fields[1].1 == fields[1].2 && fields[2].1 == fields[2].2;
    assert fields[3].1 == fields[3].2 && fields[4].1 == fields[4].2 && fields[5].1 == fields[5].2;
    assert Exported(env, name, node, uri);
    return Ok(uri);
  }

  // ---- A link has no white space at its ends ----

  lemma {:induction false} DecimalVisible(n: nat)
    ensures AllVisible(Itoa(n))
  {
    var s := Decimal(n);
    assert forall i :: 0 <= i < |s| ==> IsDigit(s[i]) && Visible(s[i]);
  }

  lemma {:induction false} EntryVisible(k: string, v: string)
    requires AllBytes(k) && AllBytes(v)
    ensures AllVisible(Entry(k, v))
  {
    EscapeSafe(k);
    EscapeSafe(v);
    SafeVisible(Escape(k));
    SafeVisible(Escape(v));
    VisibleAppend(Escape(k), "=");
    VisibleAppend(Escape(k) + "=", Escape(v));
  }

  lemma {:induction false} SafeVisible(s: string)
    requires AllSafe(s)
    ensures AllVisible(s)
  {
    forall i | 0 <= i < |s| ensures Visible(s[i]) { assert Safe(s[i]); }
  }

  lemma {:induction false} QueryVisible(params: seq<(string, string)>)
    requires ParamsBytes(params)
    ensures AllVisible(QueryText(params))
  {
    if params != [] {
      var ps := Pairs(params);
      forall i | 0 <= i < |ps| ensures AllVisible(ps[i]) { EntryVisible(params[i].0, params[i].1); }
      VisibleJoin(ps, '&');
      VisibleAppend("?", Join(ps, '&'));
    }
  }

  lemma {:induction false} SegmentVisible(s: string)
    requires AllBytes(s)
    ensures AllVisible(EscapeSegment(s))
  {
    if s != "" {
      SegmentVisible(s[1..]);
      var a := EscapeSegment(s)[..|EscapeSegment(s)| - |EscapeSegment(s[1..])|];
      assert AllVisible(a);
      VisibleAppend(a, EscapeSegment(s[1..]));
      assert EscapeSegment(s) == a + EscapeSegment(s[1..]);
    }
  }

  lemma {:induction false} TailVisible(port: nat, params: seq<(string, string)>, name: string)
    requires ParamsBytes(params) && AllBytes(name)
    ensures AllVisible(":" + Itoa(port) + QueryText(params) + Fragment(name))
  {
    DecimalVisible(port);
    QueryVisible(params);
    SegmentVisible(name);
    if name != "" { VisibleAppend("#", EscapeSegment(name)); }
    VisibleAppend(":", Itoa(port));
    VisibleAppend(":" + Itoa(port), QueryText(params));
    VisibleAppend(":" + Itoa(port) + QueryText(params), Fragment(name));
  }

  lemma {:induction false} LastVisible(a: string, b: string)
    requires b != "" && AllVisible(b)
    ensures Visible((a + b)[|a + b| - 1])
  {
    assert (a + b)[|a + b| - 1] == b[|b| - 1];
  }

  lemma {:induction false} DocumentEnd(document: string)
    requires AllBytes(document)
    ensures var t := "vmess://" + Base64.Encode(document, false, true); Visible(t[|t| - 1])
  {
    var t := Base64.Encode(document, false, true);
    if t == "" {
      LastVisible("vmess:/", "/");
      assert "vmess:/" + "/" == "vmess://" + t;
    } else {
      EncodedVisible(document);
      LastVisible("vmess://", t);
    }
  }

  lemma {:induction false} EncodedVisible(s: string)
    requires AllBytes(s)
    ensures AllVisible(Base64.Encode(s, false, true))
  {
    Base64.EncodedCoded(s, false, true);
    var t := Base64.Encode(s, false, true);
    forall i | 0 <= i < |t| ensures Visible(t[i]) { assert Base64.Coded(t[i], false); }
  }

  lemma {:induction false} LinkEnd(l: Link, name: string)
    requires Printable(l) && AllBytes(name)
    ensures LinkText(l, name) != "" && Visible(LinkText(l, name)[|LinkText(l, name)| - 1])
  {
    match l
    case EndpointLink(front, port, params) =>
      TailVisible(port, params, name);
      LastVisible(front, ":" + Itoa(port) + QueryText(params) + Fragment(name));
    case DocumentLink(document) =>
      DocumentEnd(document);
  }

  /** What importing needs to know of an exported link. */
  predicate Importable(uri: string) {
    Framed(uri) && |uri| >= 4 && Letter(uri[0]) && SafeText(uri) && UriScheme(uri).Some?
  }

  lemma {:induction false} ExportedImportable<V>(env: Env<V>, name: string, node: Node<V>, uri: string)
    requires Exported(env, name, node, uri)
    ensures Importable(uri)
  {
    SchemeStart(uri);
    ValidBytes(name);
    LinkEnd(env.encode(name, node).value, name);
  }

  // ---- Recognising a document ----

  /** containsURI. */
  predicate ContainsURI(data: string) {
    var lines := Split(data, '\n');
    exists i :: 0 <= i < |lines| && UriScheme(TrimSpace(lines[i])).Some?
  }

  /** The first line that is neither blank nor a comment decides. */
  predicate NativeLines(lines: seq<string>) {
    if lines == [] then false
    else
      var line := TrimSpace(lines[0]);
      if line == "" || line[0] == '#' then NativeLines(lines[1..])
      else if UriScheme(line).Some? then false
      else if "- " <= line then true
      else
        var at := IndexOf(line, ':');
        at >= 0 && (at == |line| - 1 || line[at + 1] == ' ' || line[at + 1] == '\t')
  }

  /** nativeDocument. */
  predicate NativeDocument(data: string) {
    var t := TrimSpace(data);
    t != "" && (t[0] == '{' || t[0] == '[' || "---" <= t || "%YAML" <= t || NativeLines(Split(t, '\n')))
  }

  predicate Starts(data: string, magic: seq<int>) {
    |data| >= |magic| && forall i :: 0 <= i < |magic| ==> data[i] as int == magic[i]
  }

  /** compressed: gzip, zip or xz. */
  predicate Compressed(data: string) {
    Starts(data, [0x1F, 0x8B]) || Starts(data, [0x50, 0x4B, 3, 4]) || Starts(data, [0xFD, 0x37, 0x7A, 0x58, 0x5A, 0])
  }

  /** Without a byte order mark. */
  function Unmarked(data: string): string { if Starts(data, [0xEF, 0xBB, 0xBF]) then data[3..] else data }

  /** The checks on a decoded layer. */
  function Inspect(data: string): Option<BatchError> {
    if Compressed(data) then Some(NativeConfig)
    else if !Valid(data) then Some(InvalidUTF8)
    else if TrimSpace(data) == "" then Some(EmptyInput)
    else None
  }

  function Decoded(data: string): Option<string> { Base64.DecodeText(data, true) }

  const PROBE := Probe(NativeDocument, ContainsURI, Decoded, Unmarked, Inspect)

  // ---- Lines and candidates ----

  function ReplaceCRLF(s: string): string {
    if s == "" then ""
    else if |s| >= 2 && s[0] == '\r' && s[1] == '\n' then "\n" + ReplaceCRLF(s[2..])
    else [s[0]] + ReplaceCRLF(s[1..])
  }

  function ReplaceCR(s: string): string {
    if s == "" then "" else [if s[0] == '\r' then '\n' else s[0]] + ReplaceCR(s[1..])
  }

  function LinesOf(data: string): seq<string> { Split(ReplaceCR(ReplaceCRLF(data)), '\n') }

  datatype Import<V> = Import(format: string, layers: nat, candidates: seq<Candidate<Outcome<V>>>)

  function Parser<V>(env: Env<V>): string -> Outcome<V> { raw => ParseURI(env, raw) }

  function Trimmed(lines: seq<string>): seq<string> { Map(TrimSpace, lines) }

  // ---- ParseBounded ----

  function Admit(input: string, maxDecoded: nat): Result<string, BatchError> {
    var data := Unmarked(input);
    if |input| > Base64.EncodedLimit(maxDecoded) then Err(InputTooLarge)
    else if TrimSpace(data) == "" then Err(EmptyInput)
    else if Compressed(data) then Err(NativeConfig)
    else if !Valid(data) then Err(InvalidUTF8)
    else Ok(data)
  }

  function Unwrapped(format: string, data: string, size: nat): Result<Peeled, BatchError> {
    if format == TEXT then Ok(Peeled(data, size, 0)) else Peel(PROBE, format, data, size, 0)
  }

  function Listed<V>(env: Env<V>, p: Peeled, maxDecoded: nat, maxEntries: nat): Result<Import<V>, BatchError> {
    var texts := Trimmed(LinesOf(p.data));
    var count := Filled(texts, |texts|);
    if p.size > maxDecoded then Err(DecodedTooLarge)
    else if NativeDocument(p.data) then Err(NativeConfig)
    else if count > maxEntries then Err(TooManyEntries)
    else if count == 0 then Err(EmptyInput)
    else Ok(Import(if p.layers > 0 then BASE64 else TEXT, p.layers, Candidates(Parser(env), texts, |texts|)))
  }

  /** No format means automatic detection. */
  function KindOf(format: string): string { if format == "" then AUTO else format }

  function Imported<V>(env: Env<V>, format: string, input: string, maxDecoded: int,
                       maxEntries: int): Result<Import<V>, BatchError> {
    var kind := KindOf(format);
    if maxDecoded < 1 || maxDecoded > MAX_DECODED_BYTES || maxEntries < 1 || maxEntries > MAX_ENTRIES
        then Err(InvalidLimits)
    else if kind !in {AUTO, TEXT, BASE64} then Err(InvalidFormat)
    else
      var data := Admit(input, maxDecoded);
      if data.Err? then Err(data.error)
      else
        var peeled := Unwrapped(kind, data.value, |input|);
        if peeled.Err? then Err(peeled.error) else Listed(env, peeled.value, maxDecoded, maxEntries)
  }

  /** ParseBounded. */
  method ParseBounded<V>(env: Env<V>, format: string, input: string, maxDecoded: int, maxEntries: int)
    returns (r: Result<Import<V>, BatchError>)
    ensures r == Imported(env, format, input, maxDecoded, maxEntries)
    ensures r.Ok? ==> Faithful(env, input, r.value, maxEntries)
  {
    if Imported(env, format, input, maxDecoded, maxEntries).Ok? {
      ImportedFaithful(env, format, input, maxDecoded, maxEntries);
    }
    if maxDecoded < 1 || maxDecoded > MAX_DECODED_BYTES || maxEntries < 1 || maxEntries > MAX_ENTRIES {
      return Err(InvalidLimits);
    }
    var kind := KindOf(format);
    if kind != AUTO && kind != TEXT && kind != BASE64 { return Err(InvalidFormat); }
    var data := Admit(input, maxDecoded);
    if data.Err? { return Err(data.error); }
    var peeled: Result<Peeled, BatchError> := Ok(Peeled(data.value, |input|, 0));
    if kind != TEXT { peeled := PeelLayers(PROBE, kind, data.value, |input|); }
    if peeled.Err? { return Err(peeled.error); }
    r := ListLinks(env, peeled.value, maxDecoded, maxEntries);
  }

  method ListLinks<V>(env: Env<V>, p: Peeled, maxDecoded: nat, maxEntries: nat)
    returns (r: Result<Import<V>, BatchError>)
    ensures r == Listed(env, p, maxDecoded, maxEntries)
  {
    if p.size > maxDecoded { return Err(DecodedTooLarge); }
    if NativeDocument(p.data) { return Err(NativeConfig); }
    var lines := LinesOf(p.data);
    var count := CountEntries(TrimSpace, lines, maxEntries);
    if count.None? { return Err(TooManyEntries); }
    if count.value == 0 { return Err(EmptyInput); }
    var candidates := CollectCandidates(TrimSpace, Parser(env), lines);
    return Ok(Import(if p.layers > 0 then BASE64 else TEXT, p.layers, candidates));
  }

  // ---- Every result: complete, in order, within the limits ----

  /** The candidates are all the entries of the input's text, under the layers it says. */
  ghost predicate Faithful<V>(env: Env<V>, input: string, r: Import<V>, maxEntries: int) {
    && 1 <= |r.candidates| <= maxEntries
    && r.layers <= MAX_BASE64_LAYERS && r.format == (if r.layers > 0 then BASE64 else TEXT)
    && var text := Unlayered(PROBE, Unmarked(input), r.layers);
       text.Some? && Complete(Parser(env), Trimmed(LinesOf(text.value)), r.candidates)
  }

  lemma {:induction false} UnwrappedBounded(format: string, data: string, size: nat)
    requires Unwrapped(format, data, size).Ok?
    ensures var p := Unwrapped(format, data, size).value;
            p.layers <= MAX_BASE64_LAYERS && Unlayered(PROBE, data, p.layers) == Some(p.data)
  {
    if format != TEXT { PeelSound(PROBE, format, data, size, 0); }
  }

  lemma {:induction false} ListedFaithful<V>(env: Env<V>, input: string, p: Peeled, maxDecoded: nat, maxEntries: nat)
    requires Listed(env, p, maxDecoded, maxEntries).Ok?
    requires p.layers <= MAX_BASE64_LAYERS && Unlayered(PROBE, Unmarked(input), p.layers) == Some(p.data)
    ensures Faithful(env, input, Listed(env, p, maxDecoded, maxEntries).value, maxEntries)
  {
    CandidatesComplete(Parser(env), Trimmed(LinesOf(p.data)));
  }

  lemma {:induction false} ImportedFaithful<V>(env: Env<V>, format: string, input: string, maxDecoded: int,
                                               maxEntries: int)
    requires Imported(env, format, input, maxDecoded, maxEntries).Ok?
    ensures Faithful(env, input, Imported(env, format, input, maxDecoded, maxEntries).value, maxEntries)
  {
    var kind := KindOf(format);
    var data := Admit(input, maxDecoded).value;
    UnwrappedBounded(kind, data, |input|);
    ListedFaithful(env, input, Unwrapped(kind, data, |input|).value, maxDecoded, maxEntries);
  }
}
