/**
 Exported lists come back (internal/server/exports.go encodeExport against internal/importparse/batch.go
 ParseBounded): the whole round trip, through any number of Base64 layers.
 */
module Reimport {
  import opened Prelude
  import opened Query
  import Base64
  import opened Utf8
  import opened Layers
  import opened Listing
  import opened Batch

  // ---- Export ----

  ghost predicate ExportedAll<V>(env: Env<V>, rs: seq<(string, Node<V>)>, lines: seq<string>) {
    |lines| == |rs| && forall i :: 0 <= i < |rs| ==> Exported(env, rs[i].0, rs[i].1, lines[i])
  }

  /** Node i is the first without a link. */
  ghost predicate RefusedAt<V>(env: Env<V>, rs: seq<(string, Node<V>)>, i: nat) {
    i < |rs| && !CanExport(env, rs[i].0, rs[i].1) && forall j :: 0 <= j < i ==> CanExport(env, rs[j].0, rs[j].1)
  }

  /** One padded layer of the standard alphabet, or none. */
  function Content(base64: bool, text: string): string
    requires AllBytes(text)
  {
    Wrap(text, if base64 then [Coding(false, true)] else [])
  }

  lemma {:induction false} ExportedSnoc<V>(env: Env<V>, rs: seq<(string, Node<V>)>, i: nat,
                                           lines: seq<string>, uri: string)
    requires i < |rs| && ExportedAll(env, rs[..i], lines) && Exported(env, rs[i].0, rs[i].1, uri)
    ensures ExportedAll(env, rs[..i + 1], lines + [uri])
  {
    var more := lines + [uri];
    forall j | 0 <= j < i + 1 ensures Exported(env, rs[..i + 1][j].0, rs[..i + 1][j].1, more[j]) {
      assert rs[..i + 1][j] == rs[j];
      if j < i { assert rs[..i][j] == rs[j] && more[j] == lines[j]; }
    }
  }

  lemma {:induction false} FirstRefused<V>(env: Env<V>, rs: seq<(string, Node<V>)>, i: nat, lines: seq<string>)
    requires i < |rs| && ExportedAll(env, rs[..i], lines) && !CanExport(env, rs[i].0, rs[i].1)
    ensures RefusedAt(env, rs, i)
  {
    forall j | 0 <= j < i ensures CanExport(env, rs[j].0, rs[j].1) {
      assert rs[..i][j] == rs[j];
      assert Exported(env, rs[j].0, rs[j].1, lines[j]);
    }
  }

  lemma {:induction false} ExportedBytes<V>(env: Env<V>, rs: seq<(string, Node<V>)>, lines: seq<string>)
    requires ExportedAll(env, rs, lines)
    ensures AllBytes(Join(lines, '\n'))
  {
    forall j | 0 <= j < |lines| ensures Valid(lines[j]) { ExportedImportable(env, rs[j].0, rs[j].1, lines[j]); }
    ValidJoin(lines);
    ValidBytes(Join(lines, '\n'));
  }

  /** The uri_list and base64_uri_list of encodeExport: the first node without a link is reported. */
  method EncodeExport<V(==)>(env: Env<V>, base64: bool, rs: seq<(string, Node<V>)>)
    returns (r: Result<string, (nat, ExportError)>, lines: seq<string>)
    ensures r.Ok? ==>
            ExportedAll(env, rs, lines) && AllBytes(Join(lines, '\n')) && r.value == Content(base64, Join(lines, '\n'))
    ensures r.Err? ==> RefusedAt(env, rs, r.error.0)
  {
    var uris, i := [], 0;
    lines := [];
    while i < |rs|
      invariant 0 <= i <= |rs| && ExportedAll(env, rs[..i], uris)
    {
      var uri := EncodeURI(env, rs[i].0, rs[i].1);
      if uri.Err? {
        FirstRefused(env, rs, i, uris);
        return Err((i, uri.error)), uris;
      }
      ExportedSnoc(env, rs, i, uris, uri.value);
      uris, i := uris + [uri.value], i + 1;
    }
    assert rs[..i] == rs;
    ExportedBytes(env, rs, uris);
    return Ok(Content(base64, Join(uris, '\n'))), uris;
  }

  // ---- What importing sees of a list of links ----

  ghost predicate Links(lines: seq<string>) { lines != [] && forall i :: 0 <= i < |lines| ==> Importable(lines[i]) }

  lemma {:induction false} JoinStart(parts: seq<string>, c: char)
    requires parts != []
    ensures parts[0] <= Join(parts, c)
  {
  }

  lemma {:induction false} NoReturns(s: string)
    requires '\r' !in s
    ensures ReplaceCRLF(s) == s && ReplaceCR(s) == s
  {
    if s != "" {
      NoReturns(s[1..]);
      assert s == [s[0]] + s[1..];
    }
  }

  /** The text of a list: one line a link, and nothing else that import could take it for. */
  lemma {:induction false} ContentShape(lines: seq<string>)
    requires Links(lines)
    ensures var c := Join(lines, '\n');
            Framed(c) && |c| >= 4 && Letter(c[0]) && c[2] >= ' ' && Valid(c) && '\r' !in c && Split(c, '\n') == lines
  {
    forall i | 0 <= i < |lines| ensures Framed(lines[i]) && Valid(lines[i]) && '\n' !in lines[i] && '\r' !in lines[i] {
      assert Importable(lines[i]);
    }
    FramedJoin(lines);
    JoinStart(lines, '\n');
    ValidJoin(lines);
    JoinWithout(lines, '\n', '\r');
    SplitJoin(lines, '\n');
    assert Importable(lines[0]);
  }

  lemma {:induction false} LinksTrimmed(lines: seq<string>)
    requires Links(lines)
    ensures Trimmed(lines) == lines
  {
    forall i | 0 <= i < |lines| ensures TrimSpace(lines[i]) == lines[i] {
      assert Importable(lines[i]);
      FramedKept(lines[i]);
    }
  }

  lemma {:induction false} ContentPlain(c: string)
    requires Framed(c) && |c| >= 4 && Letter(c[0]) && c[2] >= ' '
    ensures TrimSpace(c) == c && !Compressed(c) && Unmarked(c) == c
  {
    FramedKept(c);
  }

  lemma {:induction false} FirstLineLink(lines: seq<string>)
    requires Links(lines)
    ensures !NativeLines(lines) && UriScheme(TrimSpace(lines[0])).Some?
  {
    assert Importable(lines[0]);
    FramedKept(lines[0]);
  }

  lemma {:induction false} NotNative(c: string)
    requires c != "" && TrimSpace(c) == c && Letter(c[0]) && !NativeLines(Split(c, '\n'))
    ensures !NativeDocument(c)
  {
  }

  lemma {:induction false} FirstLineURI(c: string)
    requires UriScheme(TrimSpace(Split(c, '\n')[0])).Some?
    ensures ContainsURI(c)
  {
  }

  lemma {:induction false} ContentRead(lines: seq<string>)
    requires Links(lines)
    ensures var c := Join(lines, '\n'); !PROBE.native(c) && PROBE.link(c)
  {
    var c := Join(lines, '\n');
    ContentShape(lines);
    ContentPlain(c);
    FirstLineLink(lines);
    NotNative(c);
    FirstLineURI(c);
  }

  lemma {:induction false} ContentLines(lines: seq<string>)
    requires Links(lines)
    ensures LinesOf(Join(lines, '\n')) == lines
  {
    ContentShape(lines);
    NoReturns(Join(lines, '\n'));
  }

  lemma {:induction false} ContentAdmitted(lines: seq<string>)
    requires Links(lines)
    ensures AllBytes(Join(lines, '\n')) && Acceptable(Join(lines, '\n'))
  {
    ContentShape(lines);
    ContentPlain(Join(lines, '\n'));
    ValidBytes(Join(lines, '\n'));
  }

  // ---- What importing sees of a Base64 layer ----

  /** Base64 text in either alphabet that starts with a letter, as it does over ASCII. */
  ghost predicate Layer(t: string) {
    t != "" && Letter(t[0]) && forall i :: 0 <= i < |t| ==> Base64.Coded(t[i], false) || Base64.Coded(t[i], true)
  }

  lemma {:induction false} EncodedLayer(s: string, k: Coding)
    requires AllBytes(s) && s != "" && s[0] as int < 128
    ensures Layer(Base64.Encode(s, k.url, k.pad))
  {
    Base64.EncodedCoded(s, k.url, k.pad);
    Base64.EncodeStart(s, k.url, k.pad);
  }

  lemma {:induction false} LayerPlain(t: string)
    requires Layer(t)
    ensures AllBytes(t) && TrimSpace(t) == t && Acceptable(t)
  {
    forall i | 0 <= i < |t| ensures Visible(t[i]) { assert Base64.Coded(t[i], false) || Base64.Coded(t[i], true); }
    FramedKept(t);
    AsciiValid(t);
  }

  lemma {:induction false} LayerWithout(t: string, c: char)
    requires Layer(t) && !Base64.Coded(c, false) && !Base64.Coded(c, true)
    ensures c !in t
  {
    forall i | 0 <= i < |t| ensures t[i] != c { assert Base64.Coded(t[i], false) || Base64.Coded(t[i], true); }
  }

  lemma {:induction false} LayerLine(t: string)
    requires Layer(t)
    ensures UriScheme(t).None? && Split(t, '\n') == [t] && ':' !in t && t[0] !in {'{', '[', '-', '%', '#'}
  {
    LayerWithout(t, '\n');
    LayerWithout(t, ':');
  }

  lemma {:induction false} LayerUnread(t: string)
    requires Layer(t)
    ensures !PROBE.native(t) && !PROBE.link(t)
  {
    LayerPlain(t);
    LayerLine(t);
    assert !NativeLines([t]);
  }

  // ---- Any number of layers, each in its own alphabet and padding ----

  datatype Coding = Coding(url: bool, pad: bool)

  /** The innermost layer first. */
  function Wrap(c: string, ks: seq<Coding>): (t: string)
    requires AllBytes(c)
    ensures AllBytes(t)
  {
    if ks == [] then c
    else
      var inner, k := Wrap(c, ks[..|ks| - 1]), ks[|ks| - 1];
      Base64.EncodedBytes(inner, k.url, k.pad);
      Base64.Encode(inner, k.url, k.pad)
  }

  ghost predicate Acceptable(t: string) { t != "" && PROBE.inspect(t) == None && PROBE.unmark(t) == t }

  lemma {:induction false} WrapAdmitted(lines: seq<string>, ks: seq<Coding>)
    requires Links(lines) && AllBytes(Join(lines, '\n'))
    ensures Acceptable(Wrap(Join(lines, '\n'), ks)) && Letter(Wrap(Join(lines, '\n'), ks)[0])
  {
    if ks == [] {
      ContentAdmitted(lines);
      ContentShape(lines);
    } else {
      var front := ks[..|ks| - 1];
      WrapAdmitted(lines, front);
      EncodedLayer(Wrap(Join(lines, '\n'), front), ks[|ks| - 1]);
      LayerPlain(Wrap(Join(lines, '\n'), ks));
    }
  }

  /** The list under its first 0, 1, ... layers. */
  function Wraps(c: string, ks: seq<Coding>): (r: seq<string>)
    requires AllBytes(c)
    ensures |r| == |ks| + 1 && forall i :: 0 <= i <= |ks| ==> r[i] == Wrap(c, ks[..i])
  {
    seq(|ks| + 1, i requires 0 <= i <= |ks| && AllBytes(c) => Wrap(c, ks[..i]))
  }

  lemma {:induction false} DecodedBack(t: string, k: Coding)
    requires AllBytes(t) && t != ""
    ensures PROBE.decode(Base64.Encode(t, k.url, k.pad)) == Some(t)
  {
    Base64.DecodeTextRoundTrip(t, k.url, k.pad);
  }

  lemma {:induction false} EncodedCovers(t: string, k: Coding)
    requires AllBytes(t) && Acceptable(t) && Letter(t[0])
    ensures Covers(PROBE, Base64.Encode(t, k.url, k.pad), t)
  {
    EncodedLayer(t, k);
    LayerUnread(Base64.Encode(t, k.url, k.pad));
    DecodedBack(t, k);
  }

  lemma {:induction false} WrapCovers(lines: seq<string>, ks: seq<Coding>, i: nat)
    requires Links(lines) && AllBytes(Join(lines, '\n')) && 0 < i <= |ks|
    ensures var c := Join(lines, '\n'); Covers(PROBE, Wrap(c, ks[..i]), Wrap(c, ks[..i - 1]))
  {
    WrapAdmitted(lines, ks[..i - 1]);
    EncodedCovers(Wrap(Join(lines, '\n'), ks[..i - 1]), ks[i - 1]);
    assert ks[..i][..i - 1] == ks[..i - 1];
  }

  lemma {:induction false} WrapsRead(lines: seq<string>, ks: seq<Coding>)
    requires Links(lines) && AllBytes(Join(lines, '\n'))
    ensures Wrapping(PROBE, Wraps(Join(lines, '\n'), ks))
  {
    var c := Join(lines, '\n');
    ContentRead(lines);
    assert ks[..0] == [];
    forall i | 0 < i <= |ks| ensures Covers(PROBE, Wrap(c, ks[..i]), Wrap(c, ks[..i - 1])) { WrapCovers(lines, ks, i); }
  }

  // ---- The round trip ----

  lemma {:induction false} LengthMonotone(m: nat, n: nat)
    requires m <= n
    ensures m <= Base64.EncodedLength(m) <= Base64.EncodedLength(n)
  {
  }

  lemma {:induction false} WrapLength(c: string, ks: seq<Coding>)
    requires AllBytes(c) && ks != []
    ensures |Wrap(c, ks)| <= Base64.EncodedLength(|Wrap(c, ks[..|ks| - 1])|)
  {
    var k := ks[|ks| - 1];
    Base64.EncodeAtMost(Wrap(c, ks[..|ks| - 1]), k.url, k.pad);
  }

  /** Up to two layers over a list within the bound stay within the input limit. */
  lemma {:induction false} WrapFits(c: string, ks: seq<Coding>, maxDecoded: nat)
    requires AllBytes(c) && |c| <= maxDecoded && |ks| <= MAX_BASE64_LAYERS
    ensures |Wrap(c, ks)| <= Base64.EncodedLimit(maxDecoded)
  {
    var m := maxDecoded;
    assert Base64.EncodedLimit(m) == Base64.EncodedLength(Base64.EncodedLength(m));
    LengthMonotone(m, Base64.EncodedLength(m));
    if |ks| > 0 {
      var inner := Wrap(c, ks[..|ks| - 1]);
      WrapLength(c, ks);
      if |ks| == 2 { WrapLength(c, ks[..1]); }
      assert |ks| == 1 ==> ks[..0] == [];
      assert |ks| == 2 ==> ks[..1][..0] == [];
      LengthMonotone(|c|, m);
      assert |inner| <= Base64.EncodedLength(m);
      LengthMonotone(|inner|, Base64.EncodedLength(m));
    } else {
      LengthMonotone(m, m);
    }
  }

  ghost predicate LimitsOK(maxDecoded: int, maxEntries: int) {
    1 <= maxDecoded <= MAX_DECODED_BYTES && 1 <= maxEntries <= MAX_ENTRIES
  }

  /** Automatic detection takes any number of layers, plain text none, base64 at least one. */
  ghost predicate FormatFits(format: string, k: nat) {
    format == "" || format == AUTO || (format == TEXT && k == 0) || (format == BASE64 && k > 0)
  }

  lemma {:induction false} ListedLinks<V>(env: Env<V>, lines: seq<string>, p: Peeled, maxDecoded: nat, maxEntries: nat)
    requires Links(lines) && p.data == Join(lines, '\n')
    ensures Listed(env, p, maxDecoded, maxEntries) ==
            if p.size > maxDecoded then Err(DecodedTooLarge) else if |lines| > maxEntries then Err(TooManyEntries)
            else Ok(Import(if p.layers > 0 then BASE64 else TEXT, p.layers, Candidates(Parser(env), lines, |lines|)))
  {
    ContentRead(lines);
    ContentLines(lines);
    LinksTrimmed(lines);
    LinksFilled(env, lines);
  }

  lemma {:induction false} LinksFilled<V>(env: Env<V>, lines: seq<string>)
    requires Links(lines)
    ensures Filled(lines, |lines|) == |lines| && |Candidates(Parser(env), lines, |lines|)| == |lines|
    ensures forall k :: 0 <= k < |lines| ==>
              Candidates(Parser(env), lines, |lines|)[k] == Candidate(k, k + 1, ParseURI(env, lines[k]))
  {
    forall i | 0 <= i < |lines| ensures lines[i] != "" { assert Importable(lines[i]); }
    AllFilled(Parser(env), lines, |lines|);
  }

  lemma {:induction false} PeelLinks(format: string, lines: seq<string>, ks: seq<Coding>, size: nat)
    requires Links(lines) && AllBytes(Join(lines, '\n')) && (format == BASE64 ==> ks != [])
    ensures var c := Join(lines, '\n');
            Peel(PROBE, format, Wrap(c, ks), size, 0) ==
            if |ks| <= MAX_BASE64_LAYERS then Ok(Peeled(c, if ks == [] then size else |c|, |ks|))
                else Err(TooManyLayers)
  {
    var texts := Wraps(Join(lines, '\n'), ks);
    WrapsRead(lines, ks);
    PeelWrapped(PROBE, format, texts, |ks|, size, 0);
    assert ks[..0] == [] && ks[..|ks|] == ks;
  }

  lemma {:induction false} UnwrapWrapped(format: string, lines: seq<string>, ks: seq<Coding>, size: nat)
    requires Links(lines) && AllBytes(Join(lines, '\n')) && FormatFits(format, |ks|) && format != ""
    requires ks == [] ==> size == |Join(lines, '\n')|
    ensures var c := Join(lines, '\n');
            Unwrapped(format, Wrap(c, ks), size) ==
            if |ks| <= MAX_BASE64_LAYERS then Ok(Peeled(c, |c|, |ks|)) else Err(TooManyLayers)
  {
    if format != TEXT { PeelLinks(format, lines, ks, size); }
  }

  lemma {:induction false} Admitted(t: string, maxDecoded: nat)
    requires Acceptable(t)
    ensures Admit(t, maxDecoded) == if |t| > Base64.EncodedLimit(maxDecoded) then Err(InputTooLarge) else Ok(t)
  {
  }

  function Continued<V>(env: Env<V>, peeled: Result<Peeled, BatchError>, maxDecoded: nat,
                        maxEntries: nat): Result<Import<V>, BatchError> {
    if peeled.Err? then Err(peeled.error) else Listed(env, peeled.value, maxDecoded, maxEntries)
  }

  /** Importing an acceptable text is unwrapping and listing it. */
  lemma {:induction false} ImportedSteps<V>(env: Env<V>, format: string, t: string, maxDecoded: int, maxEntries: int)
    requires Acceptable(t) && LimitsOK(maxDecoded, maxEntries) && KindOf(format) in {AUTO, TEXT, BASE64}
    ensures Imported(env, format, t, maxDecoded, maxEntries) ==
            if |t| > Base64.EncodedLimit(maxDecoded) then Err(InputTooLarge)
            else Continued(env, Unwrapped(KindOf(format), t, |t|), maxDecoded, maxEntries)
  {
    Admitted(t, maxDecoded);
  }

  /** What importing a wrapped list gives: too much of something is the only reason to refuse it. */
  function Verdict<V>(env: Env<V>, lines: seq<string>, ks: seq<Coding>, maxDecoded: nat,
                      maxEntries: nat): Result<Import<V>, BatchError>
    requires AllBytes(Join(lines, '\n'))
  {
    if |Wrap(Join(lines, '\n'), ks)| > Base64.EncodedLimit(maxDecoded) then Err(InputTooLarge)
    else if |ks| > MAX_BASE64_LAYERS then Err(TooManyLayers)
    else if |Join(lines, '\n')| > maxDecoded then Err(DecodedTooLarge)
    else if |lines| > maxEntries then Err(TooManyEntries)
    else Ok(Import(if ks != [] then BASE64 else TEXT, |ks|, Candidates(Parser(env), lines, |lines|)))
  }

  /** A list of links under any layers: one candidate a link, in order, each on its own line, or a limit is exceeded. */
  lemma {:induction false} LinksImported<V>(env: Env<V>, lines: seq<string>, format: string, ks: seq<Coding>,
                                            maxDecoded: int, maxEntries: int)
    requires Links(lines) && AllBytes(Join(lines, '\n')) && LimitsOK(maxDecoded, maxEntries) && FormatFits(format, |ks|)
    ensures Imported(env, format, Wrap(Join(lines, '\n'), ks), maxDecoded, maxEntries) ==
            Verdict(env, lines, ks, maxDecoded, maxEntries)
  {
    var c := Join(lines, '\n');
    var t := Wrap(c, ks);
    WrapAdmitted(lines, ks);
    ImportedSteps(env, format, t, maxDecoded, maxEntries);
    UnwrapWrapped(KindOf(format), lines, ks, |t|);
    ListedLinks(env, lines, Peeled(c, |c|, |ks|), maxDecoded, maxEntries);
  }

  /** So it is imported if and only if it has at most two layers and fits the limits; the input limit adds nothing. */
  lemma {:induction false} LinksImportedIff<V>(env: Env<V>, lines: seq<string>, format: string, ks: seq<Coding>,
                                               maxDecoded: int, maxEntries: int)
    requires Links(lines) && AllBytes(Join(lines, '\n')) && LimitsOK(maxDecoded, maxEntries) && FormatFits(format, |ks|)
    ensures Imported(env, format, Wrap(Join(lines, '\n'), ks), maxDecoded, maxEntries).Ok? <==>
            |ks| <= MAX_BASE64_LAYERS && |Join(lines, '\n')| <= maxDecoded && |lines| <= maxEntries
  {
    LinksImported(env, lines, format, ks, maxDecoded, maxEntries);
    if |ks| <= MAX_BASE64_LAYERS && |Join(lines, '\n')| <= maxDecoded { WrapFits(Join(lines, '\n'), ks, maxDecoded); }
  }

  /**
   Any non-empty list that exports and fits the limits comes back through up to two layers, each in either
   alphabet, padded or not: node by node, with the same name and connection fields.
   */
  lemma {:induction false} RoundTrip<V>(env: Env<V>, rs: seq<(string, Node<V>)>, lines: seq<string>, format: string,
                                        ks: seq<Coding>, maxDecoded: int, maxEntries: int)
    requires rs != [] && ExportedAll(env, rs, lines) && AllBytes(Join(lines, '\n'))
    requires LimitsOK(maxDecoded, maxEntries) && FormatFits(format, |ks|) && |ks| <= MAX_BASE64_LAYERS
    requires |Join(lines, '\n')| <= maxDecoded && |rs| <= maxEntries
    ensures var r := Imported(env, format, Wrap(Join(lines, '\n'), ks), maxDecoded, maxEntries);
            && r.Ok? && r.value.layers == |ks| && |r.value.candidates| == |rs|
            && forall i :: 0 <= i < |rs| ==>
                 && r.value.candidates[i].index == i && r.value.candidates[i].line == i + 1
                 && Restores(r.value.candidates[i].outcome, rs[i].0, rs[i].1)
  {
    forall i | 0 <= i < |lines| ensures Importable(lines[i]) { ExportedImportable(env, rs[i].0, rs[i].1, lines[i]); }
    LinksImported(env, lines, format, ks, maxDecoded, maxEntries);
    LinksImportedIff(env, lines, format, ks, maxDecoded, maxEntries);
    LinksFilled(env, lines);
    var cs := Candidates(Parser(env), lines, |lines|);
    forall i | 0 <= i < |rs| ensures cs[i].index == i && cs[i].line == i + 1
        && Restores(cs[i].outcome, rs[i].0, rs[i].1) {
      assert Exported(env, rs[i].0, rs[i].1, lines[i]);
    }
  }

  lemma {:induction false} ContentColon(lines: seq<string>)
    requires Links(lines)
    ensures ':' in Join(lines, '\n')
  {
    JoinStart(lines, '\n');
    assert Importable(lines[0]);
    assert Join(lines, '\n')[SchemeEnd(lines[0])] == ':';
  }

  lemma {:induction false} PeelRefused(c: string, size: nat)
    requires !PROBE.native(c) && PROBE.decode(c) == None
    ensures Unwrapped(BASE64, c, size) == Err(InvalidBase64)
  {
  }

  /** The base64 format refuses the plain list: it asks for a layer. */
  lemma {:induction false} PlainNeedsLayer<V>(env: Env<V>, lines: seq<string>, maxDecoded: int, maxEntries: int)
    requires Links(lines) && LimitsOK(maxDecoded, maxEntries) && |Join(lines, '\n')| <= maxDecoded
    ensures Imported(env, BASE64, Join(lines, '\n'), maxDecoded, maxEntries) == Err(InvalidBase64)
  {
    var c := Join(lines, '\n');
    ContentAdmitted(lines);
    PlainFits(c, maxDecoded);
    ImportedSteps(env, BASE64, c, maxDecoded, maxEntries);
    PlainUndecoded(lines, |c|);
  }

  lemma {:induction false} PlainFits(c: string, maxDecoded: nat)
    requires AllBytes(c) && |c| <= maxDecoded
    ensures |c| <= Base64.EncodedLimit(maxDecoded)
  {
    WrapFits(c, [], maxDecoded);
  }

  lemma {:induction false} PlainUndecoded(lines: seq<string>, size: nat)
    requires Links(lines)
    ensures Unwrapped(BASE64, Join(lines, '\n'), size) == Err(InvalidBase64)
  {
    ContentRead(lines);
    ContentColon(lines);
    ColonUndecoded(Join(lines, '\n'));
    PeelRefused(Join(lines, '\n'), size);
  }

  lemma {:induction false} ColonUndecoded(c: string)
    requires ':' in c
    ensures PROBE.decode(c) == None
  {
    Base64.ForeignRefused(c, ':');
  }

  lemma {:induction false} EmptyWrap(ks: seq<Coding>)
    ensures Wrap("", ks) == ""
    decreases |ks|
  {
    if ks != [] { EmptyWrap(ks[..|ks| - 1]); }
  }

  /**
   Every exported list, the empty one too: importing it under any layers succeeds if and only if it is not empty,
   has at most two layers and fits the limits.
   */
  lemma {:induction false} ExportImportedIff<V>(env: Env<V>, rs: seq<(string, Node<V>)>, lines: seq<string>,
                                                format: string, ks: seq<Coding>, maxDecoded: int, maxEntries: int)
    requires ExportedAll(env, rs, lines) && AllBytes(Join(lines, '\n'))
    requires LimitsOK(maxDecoded, maxEntries) && FormatFits(format, |ks|)
    ensures Imported(env, format, Wrap(Join(lines, '\n'), ks), maxDecoded, maxEntries).Ok? <==>
            rs != [] && |ks| <= MAX_BASE64_LAYERS && |Join(lines, '\n')| <= maxDecoded && |rs| <= maxEntries
  {
    if rs == [] {
      EmptyWrap(ks);
      EmptyRefused(env, format, maxDecoded, maxEntries);
    } else {
      forall i | 0 <= i < |lines| ensures Importable(lines[i]) { ExportedImportable(env, rs[i].0, rs[i].1, lines[i]); }
      LinksImportedIff(env, lines, format, ks, maxDecoded, maxEntries);
    }
  }

  /** Nothing exported is nothing to import. */
  lemma {:induction false} EmptyRefused<V>(env: Env<V>, format: string, maxDecoded: int, maxEntries: int)
    requires LimitsOK(maxDecoded, maxEntries) && format in {"", AUTO, TEXT, BASE64}
    ensures Imported(env, format, "", maxDecoded, maxEntries) == Err(EmptyInput)
  {
    assert TrimSpace("") == "";
  }
}
