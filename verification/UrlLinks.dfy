/**
 VLESS, Trojan, SOCKS5 and HTTP links as whole texts (internal/importparse/emit.go encodeURLNode,
 internal/importparse/uri.go parseURLNode): which of these nodes export at all. It joins the parameters of
 ShareLink with the self-check of Batch; the authority of the link is printed and read by the environment.
 */
module UrlLinks {
  import opened Nodes
  import opened Prelude
  import opened Query
  import opened Utf8
  import S = ShareLink
  import B = Batch

  // ---- A node in the parts that are compared ----

  datatype Part =
    | ProtocolPart(protocol: S.Protocol)
    | EndpointPart(host: string, port: nat)
    | AuthPart(user: string)
    | TransportPart(transport: Transport)
    | SecurityPart(security: Security)
    | FeaturesPart(flow: Option<string>)
    | OriginPart(origin: string)

  function ToNode(n: S.Node, user: string, port: nat, origin: string): B.Node<Part> {
    B.Node(OriginPart(origin), ProtocolPart(n.protocol), EndpointPart(n.host, port), AuthPart(user),
           TransportPart(n.transport), SecurityPart(n.security), FeaturesPart(n.flow))
  }

  function FromNode(v: B.Node<Part>): Option<(S.Node, string, nat)> {
    if v.protocol.ProtocolPart? && v.endpoint.EndpointPart? && v.auth.AuthPart? && v.transport.TransportPart?
       && v.security.SecurityPart? && v.features.FeaturesPart?
    then Some((S.Node(v.protocol.protocol, v.endpoint.host, v.transport.transport, v.security.security,
                      v.features.flow),
               v.auth.user, v.endpoint.port))
    else None
  }

  datatype Authority = Authority(user: string, host: string, port: nat)

  /**
   What is left to the environment: host normalisation, text checks, the node checks before export, and the
   authority.
   */
  datatype World = World(
    link: S.Env,
    texts: Texts,
    blocked: B.Node<Part> -> Option<string>,
    front: (string, string) -> string,
    read: string -> Option<Authority>)

  // ---- Schemes ----

  function SchemeText(s: S.Scheme): string {
    match s
    case VlessScheme => "vless"
    case TrojanScheme => "trojan"
    case Socks5Scheme => "socks5"
    case HttpScheme => "http"
    case HttpsScheme => "https"
  }

  function SchemeNamed(t: string): Option<S.Scheme> {
    if t == "vless" then Some(S.VlessScheme)
    else if t == "trojan" then Some(S.TrojanScheme)
    else if t == "socks5" then Some(S.Socks5Scheme)
    else if t == "http" then Some(S.HttpScheme)
    else if t == "https" then Some(S.HttpsScheme)
    else None
  }

  lemma {:induction false} SchemeBack(s: S.Scheme)
    ensures SchemeNamed(SchemeText(s)) == Some(s) && SchemeText(s) in B.SCHEMES
    ensures ToLower(SchemeText(s)) == SchemeText(s)
    ensures B.SchemeText(SchemeText(s)) && |SchemeText(s)| > 0 && ':' !in SchemeText(s)
  {
  }

  lemma {:induction false} SchemeEndAt(a: string, rest: string)
    requires ':' !in a
    ensures B.SchemeEnd(a + "://" + rest) == |a|
  {
    var t := a + "://" + rest;
    if a == "" {
      assert t[0] == ':' && t[1] == '/' && t[2] == '/';
    } else {
      SchemeEndAt(a[1..], rest);
      assert t[1..] == a[1..] + "://" + rest;
      assert t[0] == a[0] != ':';
    }
  }

  // ---- Parameters ----

  /** The parameters a link can print, by name. */
  const PRINTED: seq<S.Key> :=
    [S.AlpnK, S.FlowK, S.FpK, S.HostK, S.PathK, S.PbkK, S.SecurityK, S.SidK, S.SniK, S.TypeK]

  function KeysOf(n: S.Node, ks: seq<S.Key>): seq<S.Key> {
    if ks == [] then [] else (if S.Expected(n, ks[0]).Some? then [ks[0]] else []) + KeysOf(n, ks[1..])
  }

  lemma {:induction false} KeysOfHas(n: S.Node, ks: seq<S.Key>, k: S.Key)
    ensures k in KeysOf(n, ks) <==> k in ks && S.Expected(n, k).Some?
  {
    if ks != [] { KeysOfHas(n, ks[1..], k); }
  }

  lemma {:induction false} KeysOfDistinct(n: S.Node, ks: seq<S.Key>)
    requires Distinct(ks)
    ensures Distinct(KeysOf(n, ks))
  {
    if ks != [] {
      KeysOfDistinct(n, ks[1..]);
      KeysOfHas(n, ks[1..], ks[0]);
      assert ks[0] !in ks[1..];
    }
  }

  lemma {:induction false} PrintedKeys(n: S.Node, k: S.Key)
    ensures k in KeysOf(n, PRINTED) <==> S.Expected(n, k).Some?
  {
    KeysOfHas(n, PRINTED, k);
    if S.Expected(n, k).Some? { assert PRINTED[Place(k)] == k; }
  }

  /** The place of a parameter among the printed ones. */
  function Place(k: S.Key): nat {
    match k
    case AlpnK => 0 case FlowK => 1 case FpK => 2 case HostK => 3 case PathK => 4 case PbkK => 5 case SecurityK => 6
    case SidK => 7 case SniK => 8 case TypeK => 9 case _ => 0
  }

  function PairOf(n: S.Node, k: S.Key): (string, string) {
    (S.Text(k), if S.Expected(n, k).Some? then S.Expected(n, k).value else "")
  }

  function ParamsOf(n: S.Node): (r: seq<(string, string)>)
    ensures |r| == |KeysOf(n, PRINTED)| && forall i :: 0 <= i < |r| ==> r[i] == PairOf(n, KeysOf(n, PRINTED)[i])
  {
    var ks := KeysOf(n, PRINTED);
    seq(|ks|, i requires 0 <= i < |ks| => PairOf(n, ks[i]))
  }

  // ---- Printing and reading a link ----

  ghost predicate FrontOK(w: World, user: string, host: string) {
    var f := w.front(user, host); '#' !in f && '?' !in f
  }

  function LinkOf(w: World, v: B.Node<Part>): Option<B.Link> {
    var p := FromNode(v);
    if p.None? || !S.Printable(p.value.0) then None
    else
      var (n, user, port) := p.value;
      Some(B.EndpointLink(SchemeText(S.SchemeOf(n)) + "://" + w.front(user, n.host), port, ParamsOf(n)))
  }

  /** What comes before and after the first c; nothing after when there is none. */
  function Cut(s: string, c: char): (string, string) {
    var at := IndexOf(s, c);
    if at < 0 then (s, "") else (s[..at], s[at + 1..])
  }

  /** Unescaping a fragment: a plus stays a plus. */
  function UnescapeSegment(s: string): Option<string> {
    if s == "" then Some("")
    else if s[0] != '%' then Prepend(s[0], UnescapeSegment(s[1..]))
    else if |s| < 3 || !IsHex(s[1]) || !IsHex(s[2]) then None
    else Prepend((16 * HexValue(s[1]) + HexValue(s[2])) as char, UnescapeSegment(s[3..]))
  }

  function ParseUrl(w: World, scheme: string, raw: string): Option<(string, B.Node<Part>)> {
    var at, s := B.SchemeEnd(raw), SchemeNamed(scheme);
    if at < 0 || s.None? then None
    else
      var (main, fragment) := Cut(raw[at + 3..], '#');
      var (authority, query) := Cut(main, '?');
      var name, a := UnescapeSegment(fragment), w.read(authority);
      if name.None? || a.None? then None
      else
        var n := S.ParseText(w.link, w.texts, s.value, a.value.host, query);
        if n.Err? then None else Some((name.value, ToNode(n.value, a.value.user, a.value.port, "")))
  }

  function EnvOf(w: World): B.Env<Part> {
    B.Env(w.blocked, (name: string, v: B.Node<Part>) => LinkOf(w, v), (scheme: string, raw: string) =>
        ParseUrl(w, scheme, raw))
  }

  // ---- Reading what was printed ----

  lemma {:induction false} SegmentByte(c: char, rest: string)
    requires IsByte(c)
    ensures UnescapeSegment(['%', HexDigit(c as int / 16), HexDigit(c as int % 16)] + rest) ==
            Prepend(c, UnescapeSegment(rest))
  {
    HexRoundTrip(c as int / 16);
    HexRoundTrip(c as int % 16);
    var t := ['%', HexDigit(c as int / 16), HexDigit(c as int % 16)] + rest;
    assert t[0] == '%' && t[1] == HexDigit(c as int / 16) && t[2] == HexDigit(c as int % 16) && t[3..] == rest;
  }

  lemma {:induction false} SegmentRoundTrip(s: string)
    requires AllBytes(s)
    ensures UnescapeSegment(B.EscapeSegment(s)) == Some(s)
  {
    if s != "" {
      SegmentRoundTrip(s[1..]);
      var rest := B.EscapeSegment(s[1..]);
      if Unreserved(s[0]) || s[0] in {'$', '&', '+', ':', '=', '@'} {
        assert ([s[0]] + rest)[1..] == rest;
      } else {
        SegmentByte(s[0], rest);
      }
      assert s == [s[0]] + s[1..];
    }
  }

  lemma {:induction false} CutFirst(a: string, c: char, b: string)
    requires c !in a
    ensures Cut(a + [c] + b, c) == (a, b) && Cut(a, c) == (a, "")
  {
    FirstAt(a, c, b);
  }

  lemma {:induction false} CutOptional(a: string, c: char, b: string, rest: string)
    requires c !in a && (rest == "" ==> b == "") && (rest != "" ==> rest == [c] + b)
    ensures Cut(a + rest, c) == (a, b)
  {
    CutFirst(a, c, b);
    if rest == "" { assert a + rest == a; } else { assert a + rest == a + [c] + b; }
  }

  lemma {:induction false} VisibleSafe(s: string, c: char)
    requires AllSafe(s) && c in {'#', '?'}
    ensures c !in s
  {
  }

  lemma {:induction false} EntryWithout(k: string, v: string, c: char)
    requires AllBytes(k) && AllBytes(v) && c in {'#', '?'}
    ensures c !in Entry(k, v)
  {
    EscapeSafe(k);
    EscapeSafe(v);
    VisibleSafe(Escape(k), c);
    VisibleSafe(Escape(v), c);
  }

  lemma {:induction false} PairsWithout(params: seq<(string, string)>, c: char)
    requires B.ParamsBytes(params) && c in {'#', '?'}
    ensures c !in Join(B.Pairs(params), '&')
  {
    var ps := B.Pairs(params);
    forall i | 0 <= i < |ps| ensures c !in ps[i] { EntryWithout(params[i].0, params[i].1, c); }
    JoinWithout(ps, '&', c);
  }

  lemma {:induction false} PortWithout(port: nat, c: char)
    requires c in {'#', '?', ':'}
    ensures c !in Itoa(port)
  {
    var s := Decimal(port);
    assert forall i :: 0 <= i < |s| ==> IsDigit(s[i]) && s[i] != c;
  }

  lemma {:induction false} QueryCut(a: string, params: seq<(string, string)>)
    requires '?' !in a && B.ParamsBytes(params)
    ensures Cut(a + B.QueryText(params), '?') == (a, Join(B.Pairs(params), '&'))
  {
    var q := Join(B.Pairs(params), '&');
    if params == [] { assert B.Pairs(params) == []; }
    assert B.QueryText(params) == if params == [] then "" else ['?'] + q;
    CutOptional(a, '?', q, B.QueryText(params));
  }

  lemma {:induction false} FragmentCut(main: string, name: string)
    requires '#' !in main && AllBytes(name)
    ensures Cut(main + B.Fragment(name), '#').0 == main
    ensures UnescapeSegment(Cut(main + B.Fragment(name), '#').1) == Some(name)
  {
    SegmentRoundTrip(name);
    var fragment := if name == "" then "" else B.EscapeSegment(name);
    CutOptional(main, '#', fragment, B.Fragment(name));
  }

  lemma {:induction false} Without(a: string, b: string, c: char)
    requires c !in a && c !in b
    ensures c !in a + b
  {
  }

  lemma {:induction false} QueryWithout(params: seq<(string, string)>)
    requires B.ParamsBytes(params)
    ensures '#' !in B.QueryText(params)
  {
    if params != [] {
      PairsWithout(params, '#');
      Without("?", Join(B.Pairs(params), '&'), '#');
    }
  }

  lemma {:induction false} AuthorityWithout(f: string, port: nat, c: char)
    requires c !in f && c in {'#', '?'}
    ensures c !in f + ":" + Itoa(port)
  {
    PortWithout(port, c);
    Without(f, ":", c);
    Without(f + ":", Itoa(port), c);
  }

  lemma {:induction false} Grouped(f: string, a: string, b: string, c: string, d: string)
    ensures f + (a + b + c + d) == f + a + b + c + d
  {
  }

  /** The text after the scheme is cut back into the authority, the query and the fragment. */
  lemma {:induction false} CutBack(f: string, port: nat, params: seq<(string, string)>, name: string)
    requires '#' !in f && '?' !in f && B.ParamsBytes(params) && AllBytes(name)
    ensures var (main, fragment) := Cut(f + (":" + Itoa(port) + B.QueryText(params) + B.Fragment(name)), '#');
            && UnescapeSegment(fragment) == Some(name)
            && Cut(main, '?') == (f + ":" + Itoa(port), Join(B.Pairs(params), '&'))
  {
    var a := f + ":" + Itoa(port);
    AuthorityWithout(f, port, '#');
    AuthorityWithout(f, port, '?');
    QueryWithout(params);
    Without(a, B.QueryText(params), '#');
    QueryCut(a, params);
    FragmentCut(a + B.QueryText(params), name);
    Grouped(f, ":", Itoa(port), B.QueryText(params), B.Fragment(name));
  }

  lemma {:induction false} ParamsAreBytes(n: S.Node)
    requires S.NodeBytes(n)
    ensures B.ParamsBytes(ParamsOf(n))
  {
    var ks := KeysOf(n, PRINTED);
    forall i | 0 <= i < |ks| ensures AllBytes(ParamsOf(n)[i].0) && AllBytes(ParamsOf(n)[i].1) {
      PrintedKeys(n, ks[i]);
      S.KeyBytes(ks[i]);
    }
  }

  // ---- The printed parameters as a map ----

  function ValuesOf(n: S.Node): S.Values { map k | k in S.KEYS && S.Expected(n, k).Some? :: S.Expected(n, k).value }

  lemma {:induction false} ValuesPrint(n: S.Node)
    ensures S.Prints(n, ValuesOf(n))
  {
    forall k ensures S.Get(ValuesOf(n), k) == S.Expected(n, k) { S.KeysAll(k); }
  }

  function NamesOf(n: S.Node): (r: seq<string>)
    ensures |r| == |KeysOf(n, PRINTED)| && forall i :: 0 <= i < |r| ==> r[i] == S.Text(KeysOf(n, PRINTED)[i])
  {
    Map(S.Text, KeysOf(n, PRINTED))
  }

  lemma {:induction false} PrintedDistinct()
    ensures Distinct(PRINTED)
  {
  }

  lemma {:induction false} NamesDistinct(n: S.Node)
    ensures Distinct(NamesOf(n))
  {
    var ks := KeysOf(n, PRINTED);
    PrintedDistinct();
    KeysOfDistinct(n, PRINTED);
    forall i, j | 0 <= i < j < |ks| ensures S.Text(ks[i]) != S.Text(ks[j]) {
      if S.Text(ks[i]) == S.Text(ks[j]) { S.TextInjective(ks[i], ks[j]); }
    }
  }

  lemma {:induction false} NamesAre(n: S.Node, q: Params)
    requires S.TextOf(q, ValuesOf(n))
    ensures ToSet(NamesOf(n)) == q.Keys
    ensures forall i :: 0 <= i < |NamesOf(n)| ==> NamesOf(n)[i] in q && q[NamesOf(n)[i]] == ParamsOf(n)[i].1
  {
    var ks, m := KeysOf(n, PRINTED), ValuesOf(n);
    ValuesPrint(n);
    forall i | 0 <= i < |ks| ensures S.Text(ks[i]) in q && q[S.Text(ks[i])] == ParamsOf(n)[i].1 {
      PrintedKeys(n, ks[i]);
      S.PrintedKey(n, m, ks[i]);
    }
    forall t | t in q ensures t in NamesOf(n) {
      var k :| k in m && S.Text(k) == t;
      S.PrintedKey(n, m, k);
      PrintedKeys(n, k);
      var i :| 0 <= i < |ks| && ks[i] == k;
      assert NamesOf(n)[i] == t;
    }
  }

  /** The parameters under their names. */
  ghost predicate ParamMap(n: S.Node, q: Params) { S.TextOf(q, ValuesOf(n)) }

  lemma {:induction false} PairsAreEntries(n: S.Node, q: Params)
    requires S.NodeBytes(n) && ParamMap(n, q)
    ensures ParamsOK(q) && B.ParamsBytes(ParamsOf(n)) && (forall i :: 0 <= i < |NamesOf(n)| ==> NamesOf(n)[i] in q)
    ensures Entries(q, NamesOf(n)) == B.Pairs(ParamsOf(n))
  {
    ValuesPrint(n);
    S.TextParams(n, ValuesOf(n), q);
    ParamsAreBytes(n);
    NamesAre(n, q);
  }

  /** Reading the printed query gives the node back exactly when a link can carry it. */
  lemma {:induction false} QueryBack(w: World, n: S.Node, q: Params)
    requires S.NodeBytes(n) && ParamMap(n, q) && B.ParamsBytes(ParamsOf(n))
    ensures S.ParseText(w.link, w.texts, S.SchemeOf(n), n.host, Join(B.Pairs(ParamsOf(n)), '&')) == Ok(n) <==>
            S.Representable(w.link, n) && Accepted(q, w.texts)
  {
    PairsAreEntries(n, q);
    ValuesPrint(n);
    NamesAre(n, q);
    NamesDistinct(n);
    S.LinkTextRoundTrip(w.link, w.texts, n, ValuesOf(n), q, NamesOf(n));
  }

  // ---- The parameters are printed in the order of their names ----

  lemma {:induction false} NextLe(i: nat)
    requires i < 9
    ensures StrLe(S.Text(PRINTED[i]), S.Text(PRINTED[i + 1]))
  {
    assert S.Text(PRINTED[i])[0] <= S.Text(PRINTED[i + 1])[0];
  }

  lemma {:induction false} TextLe(i: nat, j: nat)
    requires i <= j < 10
    ensures StrLe(S.Text(PRINTED[i]), S.Text(PRINTED[j]))
  {
    if i == j {
      StrLeReflexive(S.Text(PRINTED[i]));
    } else {
      TextLe(i, j - 1);
      NextLe(j - 1);
      StrLeTransitive(S.Text(PRINTED[i]), S.Text(PRINTED[j - 1]), S.Text(PRINTED[j]));
    }
  }

  ghost predicate InOrder(ks: seq<S.Key>) {
    forall a, b :: 0 <= a < b < |ks| ==> StrLe(S.Text(ks[a]), S.Text(ks[b]))
  }

  lemma {:induction false} KeysSorted(n: S.Node, all: seq<S.Key>)
    requires InOrder(all)
    ensures InOrder(KeysOf(n, all))
  {
    if all != [] {
      assert forall i :: 0 <= i < |all[1..]| ==> all[1..][i] == all[i + 1];
      KeysSorted(n, all[1..]);
      var rest := KeysOf(n, all[1..]);
      forall b | 0 <= b < |rest| ensures StrLe(S.Text(all[0]), S.Text(rest[b])) {
        KeysOfHas(n, all[1..], rest[b]);
        var j :| 0 <= j < |all[1..]| && all[1..][j] == rest[b];
        assert all[j + 1] == rest[b];
      }
    }
  }

  /** So the printed query is what sorting the keys gives. */
  lemma {:induction false} SortedNames(n: S.Node, q: Params, ks: seq<string>)
    requires S.TextOf(q, ValuesOf(n)) && Distinct(ks) && ToSet(ks) == q.Keys && SortedBy(ks, KeyItself)
    ensures ks == NamesOf(n)
  {
    NamesSorted(n);
    NamesAre(n, q);
    NamesDistinct(n);
    OneSorted(ks, NamesOf(n));
  }

  lemma {:induction false} NamesSorted(n: S.Node)
    ensures SortedBy(NamesOf(n), KeyItself)
  {
    forall i, j | 0 <= i < j < |PRINTED| ensures StrLe(S.Text(PRINTED[i]), S.Text(PRINTED[j])) { TextLe(i, j); }
    KeysSorted(n, PRINTED);
    TextsSorted(KeysOf(n, PRINTED), NamesOf(n));
  }

  lemma {:induction false} TextsSorted(ks: seq<S.Key>, names: seq<string>)
    requires |names| == |ks| && forall i :: 0 <= i < |ks| ==> names[i] == S.Text(ks[i])
    requires InOrder(ks)
    ensures SortedBy(names, KeyItself)
  {
    forall i, j | 0 <= i < j < |names| ensures StrLe(KeyItself(names[i]), KeyItself(names[j])) {
      assert StrLe(S.Text(ks[i]), S.Text(ks[j]));
    }
  }

  lemma {:induction false} OneSorted(a: seq<string>, b: seq<string>)
    requires Distinct(a) && Distinct(b) && ToSet(a) == ToSet(b) && SortedBy(a, KeyItself) && SortedBy(b, KeyItself)
    ensures a == b
  {
    DistinctSame(a, b);
    SortedUnique(a, b, KeyItself);
  }

  lemma {:induction false} DistinctCount(a: seq<string>, x: string)
    requires Distinct(a)
    ensures multiset(a)[x] == if x in a then 1 else 0
  {
    if a != [] {
      DistinctCount(a[1..], x);
      assert a == [a[0]] + a[1..] && a[0] !in a[1..];
    }
  }

  lemma {:induction false} DistinctSame(a: seq<string>, b: seq<string>)
    requires Distinct(a) && Distinct(b) && ToSet(a) == ToSet(b)
    ensures multiset(a) == multiset(b)
  {
    forall x ensures multiset(a)[x] == multiset(b)[x] {
      DistinctCount(a, x);
      DistinctCount(b, x);
      assert x in a <==> x in ToSet(a);
      assert x in b <==> x in ToSet(b);
    }
  }

  // ---- Which nodes export ----

  function UrlText(w: World, name: string, n: S.Node, user: string, port: nat): string
    requires B.ParamsBytes(ParamsOf(n)) && AllBytes(name)
  {
    B.LinkText(B.EndpointLink(SchemeText(S.SchemeOf(n)) + "://" + w.front(user, n.host), port, ParamsOf(n)), name)
  }

  lemma {:induction false} UrlShape(w: World, name: string, n: S.Node, user: string, port: nat)
    requires B.ParamsBytes(ParamsOf(n)) && AllBytes(name)
    ensures var scheme, uri := SchemeText(S.SchemeOf(n)), UrlText(w, name, n, user, port);
            && B.SchemeEnd(uri) == |scheme| && B.UriScheme(uri) == Some(scheme)
            && uri[|scheme| + 3..] ==
               w.front(user, n.host) + (":" + Itoa(port) + B.QueryText(ParamsOf(n)) + B.Fragment(name))
  {
    var scheme := SchemeText(S.SchemeOf(n));
    var f := w.front(user, n.host);
    var tail := ":" + Itoa(port) + B.QueryText(ParamsOf(n)) + B.Fragment(name);
    Reassociated(scheme, f, tail);
    SchemeShape(S.SchemeOf(n), f + tail);
  }

  lemma {:induction false} Reassociated(a: string, f: string, tail: string)
    ensures a + "://" + f + tail == a + "://" + (f + tail)
  {
  }

  lemma {:induction false} SchemeShape(s: S.Scheme, body: string)
    ensures var scheme, uri := SchemeText(s), SchemeText(s) + "://" + body;
            B.SchemeEnd(uri) == |scheme| && B.UriScheme(uri) == Some(scheme) && uri[|scheme| + 3..] == body
  {
    SchemeBack(s);
    SchemeEndAt(SchemeText(s), body);
    assert (SchemeText(s) + "://" + body)[..|SchemeText(s)|] == SchemeText(s);
  }

  lemma {:induction false} UrlRead(w: World, name: string, n: S.Node, user: string, port: nat)
    requires B.ParamsBytes(ParamsOf(n)) && AllBytes(name) && FrontOK(w, user, n.host)
    ensures var a := w.read(w.front(user, n.host) + ":" + Itoa(port));
            ParseUrl(w, SchemeText(S.SchemeOf(n)), UrlText(w, name, n, user, port)) ==
            if a.None? then None
            else
              var r := S.ParseText(w.link, w.texts, S.SchemeOf(n), a.value.host, Join(B.Pairs(ParamsOf(n)), '&'));
              if r.Err? then None else Some((name, ToNode(r.value, a.value.user, a.value.port, "")))
  {
    UrlShape(w, name, n, user, port);
    SchemeBack(S.SchemeOf(n));
    CutBack(w.front(user, n.host), port, ParamsOf(n), name);
  }

  lemma {:induction false} SameParts(a: S.Node, n: S.Node, user: string, user': string, port: nat, port': nat,
                                     origin: string, origin': string)
    ensures B.SameConnection(ToNode(a, user, port, origin), ToNode(n, user', port', origin')) <==>
            a == n && user == user' && port == port'
  {
  }

  lemma {:induction false} ParsedHost(w: World, s: S.Scheme, host: string, text: string)
    requires S.ParseText(w.link, w.texts, s, host, text).Ok?
    ensures S.ParseText(w.link, w.texts, s, host, text).value.host == host
  {
  }

  /**
   A node of these protocols exports if and only if it is not blocked, its printed link is plain text within the
   size, its authority reads back, a link can carry it, and its texts are acceptable.
   */
  lemma {:induction false} ExportIff(w: World, name: string, n: S.Node, user: string, port: nat,
                                     origin: string, q: Params)
    requires S.NodeBytes(n) && ParamMap(n, q) && B.ParamsBytes(ParamsOf(n)) && AllBytes(name)
    requires FrontOK(w, user, n.host)
    ensures B.CanExport(EnvOf(w), name, ToNode(n, user, port, origin)) <==>
            && w.blocked(ToNode(n, user, port, origin)).None? && SafeText(name)
            && |UrlText(w, name, n, user, port)| <= B.MAX_URI_BYTES && SafeText(UrlText(w, name, n, user, port))
            && w.read(w.front(user, n.host) + ":" + Itoa(port)) == Some(Authority(user, n.host, port))
            && S.Representable(w.link, n) && Accepted(q, w.texts)
  {
    ExportedUrl(w, name, n, user, port, origin);
    QueryBack(w, n, q);
    if SafeText(name) { RestoredIff(w, name, n, user, port, origin); }
    if S.Representable(w.link, n) { RepresentablePrintable(w.link, n); }
  }

  lemma {:induction false} ExportedUrl(w: World, name: string, n: S.Node, user: string, port: nat, origin: string)
    requires B.ParamsBytes(ParamsOf(n)) && AllBytes(name)
    ensures var v, uri := ToNode(n, user, port, origin), UrlText(w, name, n, user, port);
            B.CanExport(EnvOf(w), name, v) <==>
            w.blocked(v).None? && SafeText(name) && S.Printable(n) && B.Restores(B.ParseURI(EnvOf(w), uri), name, v)
  {
    var v, uri := ToNode(n, user, port, origin), UrlText(w, name, n, user, port);
    assert FromNode(v) == Some((n, user, port));
    if B.CanExport(EnvOf(w), name, v) {
      var u :| B.Exported(EnvOf(w), name, v, u);
    }
    if w.blocked(v).None? && SafeText(name) && S.Printable(n) && B.Restores(B.ParseURI(EnvOf(w), uri), name, v) {
      assert B.Exported(EnvOf(w), name, v, uri);
    }
  }

  lemma {:induction false} RepresentablePrintable(env: S.Env, n: S.Node)
    requires S.Representable(env, n)
    ensures S.Printable(n)
  {
  }

  /** What the self-check of the exporter comes to. */
  lemma {:induction false} RestoredIff(w: World, name: string, n: S.Node, user: string, port: nat, origin: string)
    requires B.ParamsBytes(ParamsOf(n)) && AllBytes(name) && FrontOK(w, user, n.host) && SafeText(name)
    ensures var uri, a := UrlText(w, name, n, user, port), w.read(w.front(user, n.host) + ":" + Itoa(port));
            B.Restores(B.ParseURI(EnvOf(w), uri), name, ToNode(n, user, port, origin)) <==>
            && |uri| <= B.MAX_URI_BYTES && SafeText(uri) && a == Some(Authority(user, n.host, port))
            && S.ParseText(w.link, w.texts, S.SchemeOf(n), n.host, Join(B.Pairs(ParamsOf(n)), '&')) == Ok(n)
  {
    var uri, a := UrlText(w, name, n, user, port), w.read(w.front(user, n.host) + ":" + Itoa(port));
    UrlShape(w, name, n, user, port);
    SchemeBack(S.SchemeOf(n));
    UrlRead(w, name, n, user, port);
    if a.Some? {
      var r := S.ParseText(w.link, w.texts, S.SchemeOf(n), a.value.host, Join(B.Pairs(ParamsOf(n)), '&'));
      if r.Ok? {
        ParsedHost(w, S.SchemeOf(n), a.value.host, Join(B.Pairs(ParamsOf(n)), '&'));
        SameParts(r.value, n, a.value.user, user, a.value.port, port, "", origin);
      }
    }
  }
}
