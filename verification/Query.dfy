/**
 Query strings of share links: percent-escaping (url.QueryEscape and QueryUnescape), splitting, and
 encodeShareQuery against strictQuery (internal/importparse/emit.go and uri.go). Text is bytes, one
 character each.
 */
module Query {
  import opened Prelude

  // ---- Percent-escaping ----

  predicate Unreserved(c: char) {
    'a' <= c <= 'z' || 'A' <= c <= 'Z' || '0' <= c <= '9' || c == '-' || c == '_' || c == '.' || c == '~'
  }

  function HexDigit(n: nat): (c: char)
    requires n < 16
  {
    if n < 10 then '0' + n as char else 'A' + (n - 10) as char
  }

  predicate IsHex(c: char) { '0' <= c <= '9' || 'A' <= c <= 'F' || 'a' <= c <= 'f' }

  function HexValue(c: char): (n: nat)
    requires IsHex(c)
    ensures n < 16
  {
    if '0' <= c <= '9' then c as int - '0' as int
    else if 'A' <= c <= 'F' then c as int - 'A' as int + 10
    else c as int - 'a' as int + 10
  }

  function EscapeByte(c: char): string
    requires IsByte(c)
  {
    if Unreserved(c) then [c] else if c == ' ' then "+" else ['%', HexDigit(c as int / 16), HexDigit(c as int % 16)]
  }

  /** url.QueryEscape. */
  function Escape(s: string): string
    requires AllBytes(s)
  {
    if s == "" then "" else EscapeByte(s[0]) + Escape(s[1..])
  }

  /** url.QueryUnescape; None on a malformed escape. */
  function Unescape(s: string): Option<string> {
    if s == "" then Some("")
    else if s[0] == '%' then
      if |s| < 3 || !IsHex(s[1]) || !IsHex(s[2]) then None
      else Prepend((16 * HexValue(s[1]) + HexValue(s[2])) as char, Unescape(s[3..]))
    else Prepend(if s[0] == '+' then ' ' else s[0], Unescape(s[1..]))
  }

  function Prepend(c: char, rest: Option<string>): Option<string> {
    if rest.None? then None else Some([c] + rest.value)
  }

  lemma {:induction false} HexRoundTrip(n: nat)
    requires n < 16
    ensures IsHex(HexDigit(n)) && HexValue(HexDigit(n)) == n
  {
  }

  lemma {:induction false} UnescapeByte(c: char, rest: string)
    requires IsByte(c)
    ensures Unescape(EscapeByte(c) + rest) == Prepend(c, Unescape(rest))
  {
    var s := EscapeByte(c) + rest;
    if Unreserved(c) || c == ' ' {
      assert s[1..] == rest;
    } else {
      HexRoundTrip(c as int / 16);
      HexRoundTrip(c as int % 16);
      assert s[0] == '%' && s[1] == HexDigit(c as int / 16) && s[2] == HexDigit(c as int % 16) && s[3..] == rest;
    }
  }

  /** Escaping and unescaping are inverse on all bytes. */
  lemma {:induction false} EscapeRoundTrip(s: string)
    requires AllBytes(s)
    ensures Unescape(Escape(s)) == Some(s)
  {
    if s != "" {
      EscapeRoundTrip(s[1..]);
      UnescapeByte(s[0], Escape(s[1..]));
      assert s == [s[0]] + s[1..];
    }
  }

  /** A character that escaped text can contain. */
  predicate Safe(c: char) { Unreserved(c) || c == '%' || c == '+' }

  predicate AllSafe(s: string) { forall i :: 0 <= i < |s| ==> Safe(s[i]) }

  lemma {:induction false} EscapeSafe(s: string)
    requires AllBytes(s)
    ensures AllSafe(Escape(s)) && (s != "" ==> Escape(s) != "")
  {
    if s != "" {
      EscapeSafe(s[1..]);
      assert AllSafe(EscapeByte(s[0]));
      var a, b := EscapeByte(s[0]), Escape(s[1..]);
      assert forall i :: 0 <= i < |a + b| ==> (a + b)[i] == if i < |a| then a[i] else b[i - |a|];
    }
  }

  // ---- Splitting ----

  /** strings.Split by one byte. */
  function Split(s: string, c: char): (parts: seq<string>)
    ensures |parts| > 0
    decreases |s|
  {
    var at := IndexOf(s, c);
    if at < 0 then [s] else [s[..at]] + Split(s[at + 1..], c)
  }

  /** strings.Join by one byte. */
  function Join(parts: seq<string>, c: char): string {
    if parts == [] then "" else if |parts| == 1 then parts[0] else parts[0] + [c] + Join(parts[1..], c)
  }

  lemma {:induction false} SplitJoin(parts: seq<string>, c: char)
    requires parts != [] && forall i :: 0 <= i < |parts| ==> c !in parts[i]
    ensures Split(Join(parts, c), c) == parts
  {
    if |parts| == 1 {
      assert Join(parts, c) == parts[0];
    } else {
      SplitJoin(parts[1..], c);
      SplitFirst(parts[0], c, Join(parts[1..], c));
      assert parts == [parts[0]] + parts[1..];
    }
  }

  lemma {:induction false} SplitFirst(a: string, c: char, b: string)
    requires c !in a
    ensures Split(a + [c] + b, c) == [a] + Split(b, c)
  {
    FirstAt(a, c, b);
  }

  lemma {:induction false} JoinWithout(parts: seq<string>, c: char, d: char)
    requires c != d && forall i :: 0 <= i < |parts| ==> d !in parts[i]
    ensures d !in Join(parts, c)
  {
    if |parts| > 1 { JoinWithout(parts[1..], c, d); }
  }

  lemma {:induction false} JoinSplit(s: string, c: char)
    ensures Join(Split(s, c), c) == s
    decreases |s|
  {
    var at := IndexOf(s, c);
    if at >= 0 {
      var rest := Split(s[at + 1..], c);
      JoinSplit(s[at + 1..], c);
      assert ([s[..at]] + rest)[1..] == rest;
      assert s == s[..at] + [c] + s[at + 1..];
    }
  }

  /** No part holds the separator. */
  lemma {:induction false} SplitClean(s: string, c: char)
    ensures forall i :: 0 <= i < |Split(s, c)| ==> c !in Split(s, c)[i]
    decreases |s|
  {
    var at := IndexOf(s, c);
    if at >= 0 {
      SplitClean(s[at + 1..], c);
      assert forall j :: 0 <= j < at ==> s[..at][j] == s[j];
    }
  }

  // ---- Printing a query ----

  type Params = map<string, string>

  ghost predicate ParamsOK(m: Params) {
    forall k :: k in m ==> k != "" && AllBytes(k) && AllBytes(m[k])
  }

  function Entry(k: string, v: string): string
    requires AllBytes(k) && AllBytes(v)
  {
    Escape(k) + "=" + Escape(v)
  }

  function Entries(m: Params, ks: seq<string>): (es: seq<string>)
    requires ParamsOK(m) && forall i :: 0 <= i < |ks| ==> ks[i] in m
    ensures |es| == |ks| && forall i :: 0 <= i < |ks| ==> es[i] == Entry(ks[i], m[ks[i]])
  {
    seq(|ks|, i requires 0 <= i < |ks| && ParamsOK(m) && ks[i] in m => Entry(ks[i], m[ks[i]]))
  }

  function KeyItself(s: string): string { s }

  /** The keys of the map, in the order sort.Strings gives them. */
  method SortedKeys(m: Params) returns (ks: seq<string>)
    ensures Distinct(ks) && ToSet(ks) == m.Keys && SortedBy(ks, KeyItself)
  {
    ks := [];
    var todo := m.Keys;
    while todo != {}
      invariant todo <= m.Keys && ToSet(ks) == m.Keys - todo && Distinct(ks)
    {
      var k :| k in todo;
      assert ToSet(ks + [k]) == ToSet(ks) + {k} && k !in ToSet(ks);
      ks := ks + [k];
      todo := todo - {k};
    }
    ghost var before := ks;
    SortBySorted(ks, KeyItself);
    ks := SortBy(ks, KeyItself);
    SameElements(before, ks);
    assert ToSet(before) == ToSet(ks);
    DistinctPermuted(before, ks);
  }

  lemma {:induction false} DistinctPermuted<T>(a: seq<T>, b: seq<T>)
    requires Distinct(a) && multiset(a) == multiset(b)
    ensures Distinct(b)
  {
    forall i, j | 0 <= i < j < |b| ensures b[i] != b[j] {
      var x, y := PairPermuted(b, a, i, j);
    }
  }

  /** encodeShareQuery's text after the question mark; empty for no parameter. */
  method EncodeQuery(m: Params) returns (text: string, ks: seq<string>)
    requires ParamsOK(m)
    ensures Distinct(ks) && ToSet(ks) == m.Keys && SortedBy(ks, KeyItself)
    ensures forall i :: 0 <= i < |ks| ==> ks[i] in m
    ensures text == Join(Entries(m, ks), '&')
  {
    var keys := SortedKeys(m);
    ks := keys;
    forall i | 0 <= i < |ks| ensures ks[i] in m { assert ks[i] in ToSet(ks); }
    var parts := [];
    for i := 0 to |keys|
      invariant |parts| == i && forall k :: 0 <= k < i ==> parts[k] == Entry(keys[k], m[keys[k]])
    {
      parts := parts + [Escape(keys[i]) + "=" + Escape(m[keys[i]])];
    }
    assert parts == Entries(m, ks);
    text := Join(parts, '&');
  }

  // ---- Reading a query ----

  datatype QueryError = InvalidQuery | DuplicateKey

  /** Which decoded keys and values are acceptable text. */
  datatype Texts = Texts(key: string -> bool, value: string -> bool)

  function ParseEntry(entry: string, texts: Texts): Option<(string, string)> {
    if entry == "" || ';' in entry then None
    else
      var at := IndexOf(entry, '=');
      var key := Unescape(if at < 0 then entry else entry[..at]);
      var value := Unescape(if at < 0 then "" else entry[at + 1..]);
      if key.None? || key.value == "" || !texts.key(key.value) || value.None? || !texts.value(value.value) then None
      else Some((key.value, value.value))
  }

  /** The parameters of the first i entries. */
  function Parsed(entries: seq<string>, i: nat, texts: Texts): Result<Params, QueryError>
    requires i <= |entries|
  {
    if i == 0 then Ok(map[])
    else
      var front, e := Parsed(entries, i - 1, texts), ParseEntry(entries[i - 1], texts);
      if front.Err? then front
      else if e.None? then Err(InvalidQuery)
      else if e.value.0 in front.value then Err(DuplicateKey)
      else Ok(front.value[e.value.0 := e.value.1])
  }

  lemma {:induction false} ErrorStays(entries: seq<string>, i: nat, j: nat, texts: Texts)
    requires i <= j <= |entries| && Parsed(entries, i, texts).Err?
    ensures Parsed(entries, j, texts) == Parsed(entries, i, texts)
  {
    if i < j { ErrorStays(entries, i, j - 1, texts); }
  }

  /** A whole query; the empty one has no parameter. */
  function ParseQuery(raw: string, texts: Texts): Result<Params, QueryError> {
    if raw == "" then Ok(map[]) else var entries := Split(raw, '&'); Parsed(entries, |entries|, texts)
  }

  /** strictQuery: no empty entry, no separator but the ampersand, no key twice. */
  method StrictQuery(raw: string, texts: Texts) returns (r: Result<Params, QueryError>)
    ensures r == ParseQuery(raw, texts)
  {
    if raw == "" { return Ok(map[]); }
    var entries := Split(raw, '&');
    var out: Params := map[];
    var i := 0;
    while i < |entries|
      invariant 0 <= i <= |entries| && Parsed(entries, i, texts) == Ok(out)
    {
      if Parsed(entries, i + 1, texts).Err? { ErrorStays(entries, i + 1, |entries|, texts); }
      var e := ParseEntry(entries[i], texts);
      if e.None? { return Err(InvalidQuery); }
      if e.value.0 in out { return Err(DuplicateKey); }
      out := out[e.value.0 := e.value.1];
      i := i + 1;
    }
    return Ok(out);
  }

  // ---- The round trip ----

  ghost predicate Accepted(m: Params, texts: Texts) { forall k :: k in m ==> texts.key(k) && texts.value(m[k]) }

  lemma {:induction false} SafeClean(s: string)
    requires AllSafe(s)
    ensures '&' !in s && '=' !in s && ';' !in s
  {
  }

  lemma {:induction false} EntryRoundTrip(k: string, v: string, texts: Texts)
    requires k != "" && AllBytes(k) && AllBytes(v)
    ensures ParseEntry(Entry(k, v), texts) == if texts.key(k) && texts.value(v) then Some((k, v)) else None
    ensures '&' !in Entry(k, v)
  {
    EscapeSafe(k);
    EscapeSafe(v);
    SafeClean(Escape(k));
    SafeClean(Escape(v));
    FirstAt(Escape(k), '=', Escape(v));
    EscapeRoundTrip(k);
    EscapeRoundTrip(v);
    var e := Entry(k, v);
    assert forall i :: 0 <= i < |e| ==> e[i] in Escape(k) || e[i] == '=' || e[i] in Escape(v);
  }

  /** The parameters under the first i keys. */
  function Restricted(m: Params, ks: seq<string>, i: nat): Params
    requires i <= |ks| && forall k :: 0 <= k < |ks| ==> ks[k] in m
  {
    if i == 0 then map[] else Restricted(m, ks, i - 1)[ks[i - 1] := m[ks[i - 1]]]
  }

  lemma {:induction false} RestrictedKeys(m: Params, ks: seq<string>, i: nat, key: string)
    requires i <= |ks| && forall k :: 0 <= k < |ks| ==> ks[k] in m
    ensures key in Restricted(m, ks, i) <==> key in ks[..i]
    ensures key in Restricted(m, ks, i) ==> Restricted(m, ks, i)[key] == m[key]
  {
    if i > 0 {
      RestrictedKeys(m, ks, i - 1, key);
      assert ks[..i] == ks[..i - 1] + [ks[i - 1]];
    }
  }

  lemma {:induction false} RestrictedAll(m: Params, ks: seq<string>)
    requires ToSet(ks) == m.Keys && forall k :: 0 <= k < |ks| ==> ks[k] in m
    ensures Restricted(m, ks, |ks|) == m
  {
    assert ks[..|ks|] == ks;
    forall key ensures (key in Restricted(m, ks, |ks|) <==> key in m)
        && (key in m ==> Restricted(m, ks, |ks|)[key] == m[key]) {
      RestrictedKeys(m, ks, |ks|, key);
      assert key in m <==> key in ToSet(ks);
    }
  }

  /** Entry i reads as key i and its value. */
  ghost predicate Reads(entries: seq<string>, m: Params, ks: seq<string>, texts: Texts) {
    |entries| == |ks| && forall k :: 0 <= k < |ks| ==>
        ks[k] in m && ParseEntry(entries[k], texts) == Some((ks[k], m[ks[k]]))
  }

  lemma {:induction false} ParsedReads(entries: seq<string>, m: Params, ks: seq<string>, i: nat, texts: Texts)
    requires Reads(entries, m, ks, texts) && Distinct(ks) && i <= |ks|
    ensures Parsed(entries, i, texts) == Ok(Restricted(m, ks, i))
  {
    if i > 0 {
      ParsedReads(entries, m, ks, i - 1, texts);
      RestrictedKeys(m, ks, i - 1, ks[i - 1]);
      assert ks[i - 1] !in ks[..i - 1];
    }
  }

  lemma {:induction false} EntriesRead(m: Params, ks: seq<string>, texts: Texts)
    requires ParamsOK(m) && Accepted(m, texts) && forall k :: 0 <= k < |ks| ==> ks[k] in m
    ensures Reads(Entries(m, ks), m, ks, texts)
  {
    forall i | 0 <= i < |ks| ensures ParseEntry(Entries(m, ks)[i], texts) == Some((ks[i], m[ks[i]])) {
      EntryRoundTrip(ks[i], m[ks[i]], texts);
    }
  }

  lemma {:induction false} EntriesSplit(m: Params, ks: seq<string>, texts: Texts)
    requires ParamsOK(m) && ks != [] && forall k :: 0 <= k < |ks| ==> ks[k] in m
    ensures Join(Entries(m, ks), '&') != "" && Split(Join(Entries(m, ks), '&'), '&') == Entries(m, ks)
  {
    var es := Entries(m, ks);
    forall i | 0 <= i < |ks| ensures '&' !in es[i] { EntryRoundTrip(ks[i], m[ks[i]], texts); }
    SplitJoin(es, '&');
    JoinNonempty(es, '&');
  }

  /** A text that is not acceptable is refused, wherever it stands. */
  lemma {:induction false} EntryRefused(m: Params, ks: seq<string>, i: nat, texts: Texts)
    requires ParamsOK(m) && (forall k :: 0 <= k < |ks| ==> ks[k] in m) && i < |ks|
    requires !(texts.key(ks[i]) && texts.value(m[ks[i]]))
    ensures Parsed(Entries(m, ks), |ks|, texts).Err?
  {
    EntryRoundTrip(ks[i], m[ks[i]], texts);
    ParsedRefused(Entries(m, ks), i, texts);
  }

  lemma {:induction false} ParsedRefused(entries: seq<string>, i: nat, texts: Texts)
    requires i < |entries| && ParseEntry(entries[i], texts) == None
    ensures Parsed(entries, |entries|, texts).Err?
  {
    ErrorStays(entries, i + 1, |entries|, texts);
  }

  /**
   Every printed query, the empty one too, reads back as the same parameters or, with an unacceptable text,
   not at all.
   */
  lemma {:induction false} QueryRoundTrip(m: Params, ks: seq<string>, texts: Texts)
    requires ParamsOK(m) && Distinct(ks) && ToSet(ks) == m.Keys && forall k :: 0 <= k < |ks| ==> ks[k] in m
    ensures Accepted(m, texts) ==> ParseQuery(Join(Entries(m, ks), '&'), texts) == Ok(m)
    ensures !Accepted(m, texts) ==> ParseQuery(Join(Entries(m, ks), '&'), texts).Err?
  {
    if ks == [] {
      assert m.Keys == {} && Entries(m, ks) == [];
    } else {
      EntriesSplit(m, ks, texts);
      if Accepted(m, texts) {
        EntriesRead(m, ks, texts);
        ParsedReads(Entries(m, ks), m, ks, |ks|, texts);
        RestrictedAll(m, ks);
      } else {
        var key :| key in m && !(texts.key(key) && texts.value(m[key]));
        assert key in ToSet(ks);
        var i :| 0 <= i < |ks| && ks[i] == key;
        EntryRefused(m, ks, i, texts);
      }
    }
  }

  lemma {:induction false} JoinNonempty(parts: seq<string>, c: char)
    requires parts != [] && parts[0] != []
    ensures Join(parts, c) != ""
  {
  }
}
