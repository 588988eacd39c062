/**
 Strict Base64 (sections 4 and 5 of RFC 4648), as the import and export of share-link lists use it
 (internal/importparse/batch.go decodeBase64 and EncodedLimit, internal/server/exports.go). Text is
 bytes, one character each.
 */
module Base64 {
  import opened Prelude

  // ---- Alphabets ----

  /** The symbol of six bits, in the standard or the URL-safe alphabet. */
  function Symbol(v: int, url: bool): char
    requires 0 <= v < 64
  {
    if v < 26 then 'A' + v as char
    else if v < 52 then 'a' + (v - 26) as char
    else if v < 62 then '0' + (v - 52) as char
    else if v == 62 then (if url then '-' else '+')
    else if url then '_' else '/'
  }

  /** The six bits of a symbol, or -1. */
  function Bits(c: char, url: bool): (v: int)
    ensures -1 <= v < 64
  {
    if 'A' <= c <= 'Z' then c as int - 'A' as int
    else if 'a' <= c <= 'z' then c as int - 'a' as int + 26
    else if '0' <= c <= '9' then c as int - '0' as int + 52
    else if c == (if url then '-' else '+') then 62
    else if c == (if url then '_' else '/') then 63
    else -1
  }

  lemma {:induction false} SymbolBits(v: int, url: bool)
    requires 0 <= v < 64
    ensures Bits(Symbol(v, url), url) == v && Symbol(v, url) != '='
  {
  }

  lemma {:induction false} BitsSymbol(c: char, url: bool)
    requires Bits(c, url) >= 0
    ensures Symbol(Bits(c, url), url) == c && c != '='
  {
  }

  // ---- Groups ----

  function Quad(a: char, b: char, c: char, url: bool): string
    requires IsByte(a) && IsByte(b) && IsByte(c)
  {
    var x, y, z := a as int, b as int, c as int;
    [Symbol(x / 4, url), Symbol(x % 4 * 16 + y / 16, url), Symbol(y % 16 * 4 + z / 64, url), Symbol(z % 64, url)]
  }

  /** The last two bytes, with or without padding. */
  function Tail2(a: char, b: char, url: bool, pad: bool): string
    requires IsByte(a) && IsByte(b)
  {
    var x, y := a as int, b as int;
    [Symbol(x / 4, url), Symbol(x % 4 * 16 + y / 16, url), Symbol(y % 16 * 4, url)] + if pad then "=" else ""
  }

  function Tail1(a: char, url: bool, pad: bool): string
    requires IsByte(a)
  {
    var x := a as int;
    [Symbol(x / 4, url), Symbol(x % 4 * 16, url)] + if pad then "==" else ""
  }

  /** EncodeToString. */
  function Encode(s: string, url: bool, pad: bool): string
    requires AllBytes(s)
  {
    if |s| == 0 then ""
    else if |s| == 1 then Tail1(s[0], url, pad)
    else if |s| == 2 then Tail2(s[0], s[1], url, pad)
    else Quad(s[0], s[1], s[2], url) + Encode(s[3..], url, pad)
  }

  /** Three bytes from four symbols. */
  function Triple(p: int, q: int, r: int, s: int): string
    requires 0 <= p < 64 && 0 <= q < 64 && 0 <= r < 64 && 0 <= s < 64
  {
    [(p * 4 + q / 16) as char, (q % 16 * 16 + r / 4) as char, (r % 4 * 64 + s) as char]
  }

  /** The final group: its symbols without padding, unused bits zero. */
  function DecodeTail(t: string, url: bool): Option<string>
    requires |t| < 4
  {
    if |t| == 0 then Some("")
    else if |t| == 1 then None
    else
      var p, q := Bits(t[0], url), Bits(t[1], url);
      if p < 0 || q < 0 then None
      else if |t| == 2 then (if q % 16 == 0 then Some([(p * 4 + q / 16) as char]) else None)
      else
        var r := Bits(t[2], url);
        if r < 0 || r % 4 != 0 then None else Some([(p * 4 + q / 16) as char, (q % 16 * 16 + r / 4) as char])
  }

  function Prefixed(front: string, rest: Option<string>): Option<string> {
    if rest.None? then None else Some(front + rest.value)
  }

  /** Symbols only, four at a time. */
  function DecodeRaw(t: string, url: bool): Option<string> {
    if |t| < 4 then DecodeTail(t, url)
    else
      var p, q, r, s := Bits(t[0], url), Bits(t[1], url), Bits(t[2], url), Bits(t[3], url);
      if p < 0 || q < 0 || r < 0 || s < 0 then None else Prefixed(Triple(p, q, r, s), DecodeRaw(t[4..], url))
  }

  /** The text without its padding; None unless the padding is exactly what the length calls for. */
  function Unpad(t: string): Option<string> {
    if |t| % 4 != 0 then None
    else if |t| >= 4 && t[|t| - 1] == '=' then (if t[|t| - 2] == '=' then Some(t[..|t| - 2]) else Some(t[..|t| - 1]))
    else Some(t)
  }

  /** Strict().DecodeString. */
  function Decode(t: string, url: bool, pad: bool): Option<string> {
    if !pad then DecodeRaw(t, url)
    else
      var u := Unpad(t);
      if u.None? then None else DecodeRaw(u.value, url)
  }

  // ---- Round trips ----

  lemma {:induction false} QuadTriple(a: char, b: char, c: char, url: bool)
    requires IsByte(a) && IsByte(b) && IsByte(c)
    ensures var t := Quad(a, b, c, url);
            && Bits(t[0], url) >= 0 && Bits(t[1], url) >= 0 && Bits(t[2], url) >= 0 && Bits(t[3], url) >= 0
            && Triple(Bits(t[0], url), Bits(t[1], url), Bits(t[2], url), Bits(t[3], url)) == [a, b, c]
  {
    var x, y, z := a as int, b as int, c as int;
    SymbolBits(x / 4, url);
    SymbolBits(x % 4 * 16 + y / 16, url);
    SymbolBits(y % 16 * 4 + z / 64, url);
    SymbolBits(z % 64, url);
    Packed(x, y, z);
  }

  lemma {:induction false} Packed(x: int, y: int, z: int)
    requires 0 <= x < 256 && 0 <= y < 256 && 0 <= z < 256
    ensures x / 4 * 4 + (x % 4 * 16 + y / 16) / 16 == x
    ensures (x % 4 * 16 + y / 16) % 16 * 16 + (y % 16 * 4 + z / 64) / 4 == y
    ensures (y % 16 * 4 + z / 64) % 4 * 64 + z % 64 == z
  {
  }

  lemma {:induction false} Packed1(x: int)
    requires 0 <= x < 256
    ensures x / 4 * 4 + (x % 4 * 16) / 16 == x && x % 4 * 16 % 16 == 0
  {
  }

  lemma {:induction false} Packed2(x: int, y: int)
    requires 0 <= x < 256 && 0 <= y < 256
    ensures x / 4 * 4 + (x % 4 * 16 + y / 16) / 16 == x
    ensures (x % 4 * 16 + y / 16) % 16 * 16 + (y % 16 * 4) / 4 == y && y % 16 * 4 % 4 == 0
  {
  }

  lemma {:induction false} Tail1RoundTrip(a: char, url: bool)
    requires IsByte(a)
    ensures DecodeTail(Tail1(a, url, false), url) == Some([a])
  {
    var x := a as int;
    SymbolBits(x / 4, url);
    SymbolBits(x % 4 * 16, url);
    Packed1(x);
  }

  lemma {:induction false} Tail2RoundTrip(a: char, b: char, url: bool)
    requires IsByte(a) && IsByte(b)
    ensures DecodeTail(Tail2(a, b, url, false), url) == Some([a, b])
  {
    var x, y := a as int, b as int;
    SymbolBits(x / 4, url);
    SymbolBits(x % 4 * 16 + y / 16, url);
    SymbolBits(y % 16 * 4, url);
    Packed2(x, y);
  }

  lemma {:induction false} TailRoundTrip(s: string, url: bool)
    requires AllBytes(s) && |s| < 3
    ensures |Encode(s, url, false)| < 4 && DecodeTail(Encode(s, url, false), url) == Some(s)
  {
    if |s| == 1 {
      Tail1RoundTrip(s[0], url);
      assert s == [s[0]];
    } else if |s| == 2 {
      Tail2RoundTrip(s[0], s[1], url);
      assert s == [s[0], s[1]];
    }
  }

  lemma {:induction false} RawStep(a: char, b: char, c: char, rest: string, url: bool)
    requires IsByte(a) && IsByte(b) && IsByte(c)
    ensures DecodeRaw(Quad(a, b, c, url) + rest, url) == Prefixed([a, b, c], DecodeRaw(rest, url))
  {
    QuadTriple(a, b, c, url);
    var t := Quad(a, b, c, url) + rest;
    assert t[0] == Quad(a, b, c, url)[0] && t[1] == Quad(a, b, c, url)[1] && t[2] == Quad(a, b, c, url)[2]
        && t[3] == Quad(a, b, c, url)[3];
    assert t[4..] == rest;
  }

  lemma {:induction false} RawNext(s: string, rest: string, url: bool)
    requires AllBytes(s) && |s| >= 3 && DecodeRaw(rest, url) == Some(s[3..])
    ensures DecodeRaw(Quad(s[0], s[1], s[2], url) + rest, url) == Some(s)
  {
    RawStep(s[0], s[1], s[2], rest, url);
    assert s == [s[0], s[1], s[2]] + s[3..];
  }

  lemma {:induction false} RawRoundTrip(s: string, url: bool)
    requires AllBytes(s)
    ensures DecodeRaw(Encode(s, url, false), url) == Some(s)
  {
    if |s| < 3 {
      TailRoundTrip(s, url);
    } else {
      RawRoundTrip(s[3..], url);
      RawNext(s, Encode(s[3..], url, false), url);
    }
  }

  /** How much padding a length needs. */
  function Padding(n: nat): string { if n % 3 == 1 then "==" else if n % 3 == 2 then "=" else "" }

  lemma {:induction false} Appended(a: string, b: string, c: string)
    ensures a + (b + c) == a + b + c
  {
  }

  lemma {:induction false} PaddingStep(n: nat)
    requires n >= 3
    ensures Padding(n - 3) == Padding(n)
  {
  }

  lemma {:induction false} TailPadded(s: string, url: bool)
    requires AllBytes(s) && |s| < 3
    ensures Encode(s, url, true) == Encode(s, url, false) + Padding(|s|)
  {
  }

  lemma {:induction false} PaddedIs(s: string, url: bool)
    requires AllBytes(s)
    ensures Encode(s, url, true) == Encode(s, url, false) + Padding(|s|)
  {
    if |s| < 3 {
      TailPadded(s, url);
    } else {
      PaddedIs(s[3..], url);
      PaddingStep(|s|);
      Appended(Quad(s[0], s[1], s[2], url), Encode(s[3..], url, false), Padding(|s|));
    }
  }

  /** The length of an encoding without padding. */
  function RawLength(n: nat): nat { n / 3 * 4 + if n % 3 == 0 then 0 else n % 3 + 1 }

  lemma {:induction false} EncodeRawLength(s: string, url: bool)
    requires AllBytes(s)
    ensures |Encode(s, url, false)| == RawLength(|s|)
  {
    if |s| >= 3 { EncodeRawLength(s[3..], url); }
  }

  /** The length of a padded encoding. */
  function EncodedLength(n: nat): nat { (n + 2) / 3 * 4 }

  lemma {:induction false} PaddedLength(n: nat)
    ensures RawLength(n) + |Padding(n)| == EncodedLength(n)
  {
    var q, r := n / 3, n % 3;
    assert n == 3 * q + r;
    assert (n + 2) / 3 == if r == 0 then q else q + 1;
  }

  lemma {:induction false} EncodeLength(s: string, url: bool)
    requires AllBytes(s)
    ensures |Encode(s, url, true)| == EncodedLength(|s|)
  {
    PaddedIs(s, url);
    EncodeRawLength(s, url);
    PaddedLength(|s|);
  }

  predicate SymbolText(t: string, url: bool) { forall i :: 0 <= i < |t| ==> Bits(t[i], url) >= 0 }

  lemma {:induction false} SymbolsAppend(a: string, b: string, url: bool)
    requires SymbolText(a, url) && SymbolText(b, url)
    ensures SymbolText(a + b, url)
  {
  }

  lemma {:induction false} TailSymbols(s: string, url: bool)
    requires AllBytes(s) && |s| < 3
    ensures SymbolText(Encode(s, url, false), url)
  {
    if |s| == 1 {
      SymbolBits(s[0] as int / 4, url);
      SymbolBits(s[0] as int % 4 * 16, url);
    } else if |s| == 2 {
      SymbolBits(s[0] as int / 4, url);
      SymbolBits(s[0] as int % 4 * 16 + s[1] as int / 16, url);
      SymbolBits(s[1] as int % 16 * 4, url);
    }
  }

  lemma {:induction false} EncodeSymbols(s: string, url: bool)
    requires AllBytes(s)
    ensures SymbolText(Encode(s, url, false), url)
  {
    if |s| < 3 {
      TailSymbols(s, url);
    } else {
      EncodeSymbols(s[3..], url);
      QuadTriple(s[0], s[1], s[2], url);
      SymbolsAppend(Quad(s[0], s[1], s[2], url), Encode(s[3..], url, false), url);
    }
  }

  lemma {:induction false} UnpadAppend(u: string, n: nat, url: bool)
    requires |u| == RawLength(n) && SymbolText(u, url)
    ensures Unpad(u + Padding(n)) == Some(u)
  {
    var t := u + Padding(n);
    assert n % 3 == 1 ==> t[..|t| - 2] == u && t[|t| - 1] == '=' && t[|t| - 2] == '=';
    assert n % 3 == 2 ==>
        t[..|t| - 1] == u && t[|t| - 1] == '=' && t[|t| - 2] == u[|u| - 1] && Bits(u[|u| - 1], url) >= 0;
    assert n % 3 == 0 ==> t == u && (|u| > 0 ==> Bits(u[|u| - 1], url) >= 0);
  }

  lemma {:induction false} UnpadPadded(s: string, url: bool)
    requires AllBytes(s)
    ensures Unpad(Encode(s, url, true)) == Some(Encode(s, url, false))
  {
    PaddedIs(s, url);
    EncodeRawLength(s, url);
    EncodeSymbols(s, url);
    UnpadAppend(Encode(s, url, false), |s|, url);
  }

  /** Decoding an encoding gives the bytes back, in both alphabets, with and without padding. */
  lemma {:induction false} RoundTrip(s: string, url: bool, pad: bool)
    requires AllBytes(s)
    ensures Decode(Encode(s, url, pad), url, pad) == Some(s)
  {
    RawRoundTrip(s, url);
    UnpadPadded(s, url);
  }

  // ---- Strictness: only encodings decode ----

  lemma {:induction false} Unpacked(p: int, q: int, r: int, s: int)
    requires 0 <= p < 64 && 0 <= q < 64 && 0 <= r < 64 && 0 <= s < 64
    ensures var x, y, z := p * 4 + q / 16, q % 16 * 16 + r / 4, r % 4 * 64 + s;
            && 0 <= x < 256 && 0 <= y < 256 && 0 <= z < 256
            && x / 4 == p && x % 4 * 16 + y / 16 == q && y % 16 * 4 + z / 64 == r && z % 64 == s
  {
  }

  lemma {:induction false} QuadBack(t: string, url: bool)
    requires |t| == 4 && SymbolText(t, url)
    ensures var d := Triple(Bits(t[0], url), Bits(t[1], url), Bits(t[2], url), Bits(t[3], url));
            AllBytes(d) && Quad(d[0], d[1], d[2], url) == t
  {
    Unpacked(Bits(t[0], url), Bits(t[1], url), Bits(t[2], url), Bits(t[3], url));
    BitsSymbol(t[0], url);
    BitsSymbol(t[1], url);
    BitsSymbol(t[2], url);
    BitsSymbol(t[3], url);
  }

  lemma {:induction false} Tail1Back(t: string, url: bool)
    requires |t| == 2 && DecodeTail(t, url).Some?
    ensures var d := DecodeTail(t, url).value; AllBytes(d) && |d| == 1 && Tail1(d[0], url, false) == t
  {
    BitsSymbol(t[0], url);
    BitsSymbol(t[1], url);
    Unpacked(Bits(t[0], url), Bits(t[1], url), 0, 0);
  }

  lemma {:induction false} Tail2Back(t: string, url: bool)
    requires |t| == 3 && DecodeTail(t, url).Some?
    ensures var d := DecodeTail(t, url).value; AllBytes(d) && |d| == 2 && Tail2(d[0], d[1], url, false) == t
  {
    BitsSymbol(t[0], url);
    BitsSymbol(t[1], url);
    BitsSymbol(t[2], url);
    Unpacked(Bits(t[0], url), Bits(t[1], url), Bits(t[2], url), 0);
  }

  lemma {:induction false} TailBack(t: string, url: bool)
    requires |t| < 4 && DecodeTail(t, url).Some?
    ensures var d := DecodeTail(t, url).value; AllBytes(d) && |d| < 3 && Encode(d, url, false) == t
  {
    if |t| == 2 {
      Tail1Back(t, url);
    } else if |t| == 3 {
      Tail2Back(t, url);
    }
  }

  lemma {:induction false} EncodeCons(a: char, b: char, c: char, rest: string, url: bool)
    requires IsByte(a) && IsByte(b) && IsByte(c) && AllBytes(rest)
    ensures AllBytes([a, b, c] + rest)
    ensures Encode([a, b, c] + rest, url, false) == Quad(a, b, c, url) + Encode(rest, url, false)
  {
    assert ([a, b, c] + rest)[3..] == rest;
  }

  /** A text that decodes is the encoding of what it decodes to: nothing else is accepted. */
  lemma {:induction false} RawStrict(t: string, url: bool)
    requires DecodeRaw(t, url).Some?
    ensures AllBytes(DecodeRaw(t, url).value) && Encode(DecodeRaw(t, url).value, url, false) == t
  {
    if |t| < 4 {
      TailBack(t, url);
    } else {
      RawStrict(t[4..], url);
      QuadBack(t[..4], url);
      var d := Triple(Bits(t[0], url), Bits(t[1], url), Bits(t[2], url), Bits(t[3], url));
      EncodeCons(d[0], d[1], d[2], DecodeRaw(t[4..], url).value, url);
      assert d == [d[0], d[1], d[2]] && t == t[..4] + t[4..];
    }
  }

  lemma {:induction false} RawLengthTail(n: nat)
    ensures RawLength(n) % 4 == if n % 3 == 0 then 0 else n % 3 + 1
  {
  }

  lemma {:induction false} Repadded(t: string, u: string, n: nat)
    requires Unpad(t) == Some(u) && |u| == RawLength(n)
    ensures t == u + Padding(n)
  {
    RawLengthTail(n);
    var l := |t|;
    if l >= 4 && t[l - 1] == '=' {
      if t[l - 2] == '=' {
        assert n % 3 == 1 && t == t[..l - 2] + "==";
      } else {
        assert n % 3 == 2 && t == t[..l - 1] + "=";
      }
    }
  }

  /** Decoding accepts a text exactly when it is the encoding of the result, padding and unused bits included. */
  lemma {:induction false} DecodeStrict(t: string, url: bool, pad: bool)
    requires Decode(t, url, pad).Some?
    ensures AllBytes(Decode(t, url, pad).value) && Encode(Decode(t, url, pad).value, url, pad) == t
  {
    if !pad {
      RawStrict(t, url);
    } else {
      var u := Unpad(t).value;
      RawStrict(u, url);
      var s := DecodeRaw(u, url).value;
      EncodeRawLength(s, url);
      Repadded(t, u, |s|);
      PaddedIs(s, url);
    }
  }

  // ---- decodeBase64 ----

  predicate Ignored(c: char) { c == ' ' || c == '\t' || c == '\r' || c == '\n' }

  function Stripped(s: string): string {
    if s == "" then "" else (if Ignored(s[0]) then "" else [s[0]]) + Stripped(s[1..])
  }

  lemma {:induction false} NothingStripped(s: string)
    requires forall i :: 0 <= i < |s| ==> !Ignored(s[i])
    ensures Stripped(s) == s
  {
    if s != "" {
      NothingStripped(s[1..]);
      assert s == [s[0]] + s[1..];
    }
  }

  /** decodeBase64: the alphabet and the padding are recognised from the text. */
  function DecodeText(raw: string, whitespace: bool): Option<string> {
    var t := if whitespace then Stripped(raw) else raw;
    if t == "" || (exists i :: 0 <= i < |t| && Ignored(t[i])) then None
    else Decode(t, '-' in t || '_' in t, '=' in t)
  }

  /** A symbol or padding. */
  predicate Coded(c: char, url: bool) { Bits(c, url) >= 0 || c == '=' }

  lemma {:induction false} CodedText(u: string, n: nat, url: bool)
    requires SymbolText(u, url)
    ensures var t := u + Padding(n);
            && (forall i :: 0 <= i < |t| ==> Coded(t[i], url)) && '=' !in u && ('=' in t <==> n % 3 != 0)
  {
    var t := u + Padding(n);
    assert forall i :: 0 <= i < |t| ==> t[i] == if i < |u| then u[i] else '=';
    forall i | 0 <= i < |u| ensures u[i] != '=' { assert Bits(u[i], url) >= 0; }
    if n % 3 != 0 { assert t[|u|] == '='; }
  }

  lemma {:induction false} EncodedCoded(s: string, url: bool, pad: bool)
    requires AllBytes(s)
    ensures forall i :: 0 <= i < |Encode(s, url, pad)| ==> Coded(Encode(s, url, pad)[i], url)
    ensures '=' in Encode(s, url, pad) <==> pad && |s| % 3 != 0
    ensures |s| % 3 == 0 ==> Encode(s, url, pad) == Encode(s, url, false)
  {
    var u := Encode(s, url, false);
    PaddedIs(s, url);
    EncodeSymbols(s, url);
    CodedText(u, |s|, url);
    assert u + "" == u;
  }

  /** Text of symbols that both alphabets share. */
  predicate Shared(t: string) { forall i :: 0 <= i < |t| ==> t[i] !in {'+', '/', '-', '_'} }

  lemma {:induction false} SharedTail(t: string)
    requires Shared(t) && |t| < 4
    ensures DecodeTail(t, true) == DecodeTail(t, false)
  {
  }

  lemma {:induction false} SharedDecodes(t: string)
    requires Shared(t)
    ensures DecodeRaw(t, true) == DecodeRaw(t, false)
  {
    if |t| < 4 {
      SharedTail(t);
    } else {
      SharedDecodes(t[4..]);
      assert Bits(t[0], true) == Bits(t[0], false) && Bits(t[1], true) == Bits(t[1], false);
      assert Bits(t[2], true) == Bits(t[2], false) && Bits(t[3], true) == Bits(t[3], false);
    }
  }

  /** Recognising the alphabet by the two characters only the URL-safe one has never misleads. */
  lemma {:induction false} AlphabetRecognised(t: string, url: bool, pad: bool)
    requires forall i :: 0 <= i < |t| ==> Coded(t[i], url)
    ensures Decode(t, '-' in t || '_' in t, pad) == Decode(t, url, pad)
  {
    if url && '-' !in t && '_' !in t {
      forall i | 0 <= i < |t| ensures t[i] !in {'+', '/', '-', '_'} { assert Coded(t[i], url); }
      SharedDecodes(t);
      if Unpad(t).Some? { SharedDecodes(Unpad(t).value); }
    } else if !url {
      forall i | 0 <= i < |t| ensures t[i] != '-' && t[i] != '_' { assert Coded(t[i], url); }
    }
  }

  lemma {:induction false} CodedKept(t: string, url: bool)
    requires forall i :: 0 <= i < |t| ==> Coded(t[i], url)
    ensures Stripped(t) == t && forall i :: 0 <= i < |t| ==> !Ignored(t[i])
  {
    forall i | 0 <= i < |t| ensures !Ignored(t[i]) { assert Coded(t[i], url); }
    NothingStripped(t);
  }

  lemma {:induction false} EncodeNonempty(s: string, url: bool, pad: bool)
    requires AllBytes(s) && s != ""
    ensures Encode(s, url, pad) != ""
  {
    PaddedIs(s, url);
    EncodeRawLength(s, url);
  }

  /** Whatever was encoded, in either alphabet, padded or not, is recognised and decoded. */
  lemma {:induction false} DecodeTextRoundTrip(s: string, url: bool, pad: bool)
    requires AllBytes(s) && s != ""
    ensures DecodeText(Encode(s, url, pad), true) == Some(s)
  {
    var t := Encode(s, url, pad);
    EncodedCoded(s, url, pad);
    EncodeNonempty(s, url, pad);
    CodedKept(t, url);
    AlphabetRecognised(t, url, '=' in t);
    RoundTrip(s, url, pad);
    RoundTrip(s, url, false);
  }

  /** EncodedLimit. */
  function EncodedLimit(decoded: nat): nat { ((decoded + 2) / 3 * 4 + 2) / 3 * 4 }

  /** It is exactly the length of two padded layers. */
  lemma {:induction false} EncodedLimitExact(s: string)
    requires AllBytes(s)
    ensures AllBytes(Encode(s, false, true)) && |Encode(Encode(s, false, true), false, true)| == EncodedLimit(|s|)
  {
    EncodedBytes(s, false, true);
    EncodeLength(s, false);
    EncodeLength(Encode(s, false, true), false);
  }

  lemma {:induction false} EncodedBytes(s: string, url: bool, pad: bool)
    requires AllBytes(s)
    ensures AllBytes(Encode(s, url, pad))
  {
    EncodedCoded(s, url, pad);
    var t := Encode(s, url, pad);
    forall i | 0 <= i < |t| ensures IsByte(t[i]) { assert Coded(t[i], url); }
  }

  /** No encoding is longer than the padded one. */
  lemma {:induction false} EncodeAtMost(s: string, url: bool, pad: bool)
    requires AllBytes(s)
    ensures |Encode(s, url, pad)| <= EncodedLength(|s|)
  {
    PaddedIs(s, url);
    EncodeLength(s, url);
  }

  /** The first symbol holds the upper bits of the first byte, so over ASCII it is a letter. */
  lemma {:induction false} EncodeStart(s: string, url: bool, pad: bool)
    requires AllBytes(s) && s != "" && s[0] as int < 128
    ensures Encode(s, url, pad) != "" && ('A' <= Encode(s, url, pad)[0] <= 'Z' || 'a' <= Encode(s, url, pad)[0] <= 'z')
  {
    assert Encode(s, url, pad)[0] == Symbol(s[0] as int / 4, url);
  }

  lemma {:induction false} StrippedKeeps(s: string, c: char)
    requires c in s && !Ignored(c)
    ensures c in Stripped(s)
  {
    if s[0] != c { StrippedKeeps(s[1..], c); }
  }

  lemma {:induction false} DecodedCoded(raw: string)
    requires DecodeText(raw, true).Some?
    ensures forall x :: x in Stripped(raw) ==> Coded(x, false) || Coded(x, true)
  {
    var t := Stripped(raw);
    var url, pad := '-' in t || '_' in t, '=' in t;
    DecodeStrict(t, url, pad);
    var s := Decode(t, url, pad).value;
    EncodedCoded(s, url, pad);
    forall i | 0 <= i < |t| ensures Coded(t[i], url) { }
  }

  /** A text with a character outside both alphabets does not decode. */
  lemma {:induction false} ForeignRefused(raw: string, c: char)
    requires c in raw && !Ignored(c) && !Coded(c, false) && !Coded(c, true)
    ensures DecodeText(raw, true) == None
  {
    StrippedKeeps(raw, c);
    if DecodeText(raw, true).Some? { DecodedCoded(raw); }
  }
}
