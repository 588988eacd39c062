/**
 What the Go library says about byte text: UTF-8 validity (section 4 of RFC 3629), white space trimming,
 and the control-free text of internal/importparse/uri.go safeText.
 */
module Utf8 {
  import opened Prelude
  import opened Query

  predicate Cont(c: char) { 0x80 <= c as int < 0xC0 }

  /** The bytes of the first rune, or 0 when none is well formed. */
  function RuneLength(s: string): (n: nat)
    ensures n <= |s|
  {
    if s == "" then 0
    else
      var a := s[0] as int;
      if a < 0x80 then 1
      else if 0xC2 <= a <= 0xDF then (if |s| >= 2 && Cont(s[1]) then 2 else 0)
      else if 0xE0 <= a <= 0xEF then
        if |s| >= 3 && Cont(s[1]) && Cont(s[2]) && (a == 0xE0 ==> s[1] as int >= 0xA0) && (a == 0xED ==>
            s[1] as int < 0xA0) then 3 else 0
      else if 0xF0 <= a <= 0xF4 then
        if |s| >= 4 && Cont(s[1]) && Cont(s[2]) && Cont(s[3]) && (a == 0xF0 ==> s[1] as int >= 0x90) && (a == 0xF4 ==>
            s[1] as int < 0x90) then 4 else 0
      else 0
  }

  /** utf8.Valid. */
  predicate Valid(s: string)
    decreases |s|
  {
    s == "" || (RuneLength(s) > 0 && Valid(s[RuneLength(s)..]))
  }

  lemma {:induction false} RuneLengthAppend(a: string, b: string)
    requires RuneLength(a) > 0
    ensures RuneLength(a + b) == RuneLength(a) && (a + b)[RuneLength(a)..] == a[RuneLength(a)..] + b
  {
  }

  lemma {:induction false} ValidAppend(a: string, b: string)
    requires Valid(a) && Valid(b)
    ensures Valid(a + b)
    decreases |a|
  {
    if a == "" {
      assert a + b == b;
    } else {
      var n := RuneLength(a);
      RuneLengthAppend(a, b);
      ValidAppend(a[n..], b);
    }
  }

  predicate AllAscii(s: string) { forall i :: 0 <= i < |s| ==> s[i] as int < 0x80 }

  lemma {:induction false} AsciiValid(s: string)
    requires AllAscii(s)
    ensures Valid(s)
  {
    if s != "" { AsciiValid(s[1..]); }
  }

  lemma {:induction false} ValidBytes(s: string)
    requires Valid(s)
    ensures AllBytes(s)
    decreases |s|
  {
    if s != "" {
      var n := RuneLength(s);
      ValidBytes(s[n..]);
      assert forall i :: 0 <= i < |s| ==> s[i] == if i < n then s[i] else s[n..][i - n];
    }
  }

  lemma {:induction false} ValidJoin(parts: seq<string>)
    requires forall i :: 0 <= i < |parts| ==> Valid(parts[i])
    ensures Valid(Join(parts, '\n'))
  {
    if |parts| > 1 {
      ValidJoin(parts[1..]);
      AsciiValid(['\n']);
      ValidAppend(parts[0], ['\n']);
      ValidAppend(parts[0] + ['\n'], Join(parts[1..], '\n'));
    }
  }

  /** safeText: valid, and no control character. */
  predicate SafeText(s: string) { Valid(s) && forall i :: 0 <= i < |s| ==> s[i] >= ' ' && s[i] as int != 0x7F }

  // ---- TrimSpace ----

  predicate Blank(c: char) { 9 <= c as int <= 13 || c == ' ' }

  /** U+0085 and U+00A0. */
  predicate Blank2(a: char, b: char) { a as int == 0xC2 && (b as int == 0x85 || b as int == 0xA0) }

  /** U+1680, U+2000 to U+200A, U+2028, U+2029, U+202F, U+205F and U+3000. */
  predicate Blank3(a: char, b: char, c: char) {
    var (x, y, z) := (a as int, b as int, c as int);
    || (x == 0xE1 && y == 0x9A && z == 0x80)
    || (x == 0xE2 && y == 0x80 && (0x80 <= z <= 0x8A || z == 0xA8 || z == 0xA9 || z == 0xAF))
    || (x == 0xE2 && y == 0x81 && z == 0x9F)
    || (x == 0xE3 && y == 0x80 && z == 0x80)
  }

  /** The bytes of the white space character that text starts with, or 0. */
  function BlankStart(s: string): (n: nat)
    ensures n <= |s|
  {
    if |s| >= 1 && Blank(s[0]) then 1
    else if |s| >= 2 && Blank2(s[0], s[1]) then 2
    else if |s| >= 3 && Blank3(s[0], s[1], s[2]) then 3 else 0
  }

  function BlankEnd(s: string): (n: nat)
    ensures n <= |s|
  {
    var l := |s|;
    if l >= 1 && Blank(s[l - 1]) then 1
    else if l >= 2 && Blank2(s[l - 2], s[l - 1]) then 2
    else if l >= 3 && Blank3(s[l - 3], s[l - 2], s[l - 1]) then 3 else 0
  }

  function TrimLeft(s: string): string
    decreases |s|
  {
    if BlankStart(s) == 0 then s else TrimLeft(s[BlankStart(s)..])
  }

  function TrimRight(s: string): string
    decreases |s|
  {
    if BlankEnd(s) == 0 then s else TrimRight(s[..|s| - BlankEnd(s)])
  }

  function TrimSpace(s: string): string { TrimRight(TrimLeft(s)) }

  /** What prints in ASCII. */
  predicate Visible(c: char) { 0x21 <= c as int <= 0x7E }

  predicate Framed(s: string) { s != "" && Visible(s[0]) && Visible(s[|s| - 1]) }

  lemma {:induction false} FramedKept(s: string)
    requires Framed(s)
    ensures TrimSpace(s) == s
  {
    assert BlankStart(s) == 0 && BlankEnd(s) == 0;
  }

  predicate AllVisible(s: string) { forall i :: 0 <= i < |s| ==> Visible(s[i]) }

  lemma {:induction false} VisibleAppend(a: string, b: string)
    requires AllVisible(a) && AllVisible(b)
    ensures AllVisible(a + b)
  {
  }

  lemma {:induction false} VisibleJoin(parts: seq<string>, c: char)
    requires Visible(c) && forall i :: 0 <= i < |parts| ==> AllVisible(parts[i])
    ensures AllVisible(Join(parts, c))
  {
    if |parts| > 1 {
      VisibleJoin(parts[1..], c);
      VisibleAppend(parts[0], [c]);
      VisibleAppend(parts[0] + [c], Join(parts[1..], c));
    }
  }

  lemma {:induction false} FramedJoin(parts: seq<string>)
    requires parts != [] && forall i :: 0 <= i < |parts| ==> Framed(parts[i])
    ensures Framed(Join(parts, '\n')) && Join(parts, '\n')[0] == parts[0][0]
  {
    if |parts| > 1 {
      FramedJoin(parts[1..]);
    }
  }
}
