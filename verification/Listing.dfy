/**
 Numbering the entries of a text, line by line (internal/importparse/batch.go ParseBounded): blank lines
 are skipped but counted, so every entry keeps its place and its line.
 */
module Listing {
  import opened Prelude

  datatype Candidate<+T> = Candidate(index: nat, line: nat, outcome: T)

  /** How many of the first n lines are not blank. */
  function Filled(texts: seq<string>, n: nat): nat
    requires n <= |texts|
  {
    if n == 0 then 0 else Filled(texts, n - 1) + if texts[n - 1] == "" then 0 else 1
  }

  lemma {:induction false} FilledMonotone(texts: seq<string>, m: nat, n: nat)
    requires m <= n <= |texts|
    ensures Filled(texts, m) <= Filled(texts, n)
  {
    if m < n { FilledMonotone(texts, m, n - 1); }
  }

  function Candidates<T>(parse: string -> T, texts: seq<string>, n: nat): (r: seq<Candidate<T>>)
    requires n <= |texts|
    ensures |r| == Filled(texts, n)
  {
    if n == 0 then []
    else
      var before := Candidates(parse, texts, n - 1);
      if texts[n - 1] == "" then before else before + [Candidate(|before|, n, parse(texts[n - 1]))]
  }

  /** The counting loop: None as soon as there are too many entries. */
  method CountEntries(trim: string -> string, lines: seq<string>, maxEntries: nat) returns (r: Option<nat>)
    ensures var n := Filled(Map(trim, lines), |lines|); r == if n > maxEntries then None else Some(n)
  {
    var count, i := 0, 0;
    ghost var texts := Map(trim, lines);
    while i < |lines|
      invariant 0 <= i <= |lines| && count == Filled(texts, i) && count <= maxEntries
    {
      i := i + 1;
      if trim(lines[i - 1]) != "" {
        count := count + 1;
        if count > maxEntries {
          FilledMonotone(texts, i, |lines|);
          return None;
        }
      }
    }
    return Some(count);
  }

  method CollectCandidates<T>(trim: string -> string, parse: string -> T, lines: seq<string>)
    returns (r: seq<Candidate<T>>)
    ensures r == Candidates(parse, Map(trim, lines), |lines|)
  {
    r := [];
    var line := 0;
    while line < |lines|
      invariant 0 <= line <= |lines| && r == Candidates(parse, Map(trim, lines), line)
    {
      var raw := trim(lines[line]);
      line := line + 1;
      if raw != "" { r := r + [Candidate(|r|, line, parse(raw))]; }
    }
  }

  /** Candidate k is the entry of its own line; lines grow; every other line is blank. */
  ghost predicate Complete<T>(parse: string -> T, texts: seq<string>, cs: seq<Candidate<T>>) {
    && (forall k :: 0 <= k < |cs| ==>
        cs[k].index == k && 1 <= cs[k].line <= |texts| && cs[k].outcome == parse(texts[cs[k].line - 1]))
    && (forall j, k :: 0 <= j < k < |cs| ==> cs[j].line < cs[k].line)
    && (forall i :: 0 <= i < |texts| ==> texts[i] == "" || exists k :: 0 <= k < |cs| && cs[k].line == i + 1)
  }

  lemma {:induction false} CandidatePlace<T>(parse: string -> T, texts: seq<string>, n: nat, k: nat)
    requires n <= |texts| && k < Filled(texts, n)
    ensures var c := Candidates(parse, texts, n)[k];
            c.index == k && 1 <= c.line <= n && c.outcome == parse(texts[c.line - 1])
  {
    if k < Filled(texts, n - 1) { CandidatePlace(parse, texts, n - 1, k); }
  }

  lemma {:induction false} CandidateOrder<T>(parse: string -> T, texts: seq<string>, n: nat, j: nat, k: nat)
    requires n <= |texts| && j < k < Filled(texts, n)
    ensures Candidates(parse, texts, n)[j].line < Candidates(parse, texts, n)[k].line
  {
    if k < Filled(texts, n - 1) {
      CandidateOrder(parse, texts, n - 1, j, k);
    } else {
      CandidatePlace(parse, texts, n - 1, j);
    }
  }

  lemma {:induction false} CandidateFound<T>(parse: string -> T, texts: seq<string>, n: nat, i: nat) returns (k: nat)
    requires i < n <= |texts| && texts[i] != ""
    ensures k < Filled(texts, n) && Candidates(parse, texts, n)[k].line == i + 1
  {
    if i == n - 1 {
      k := Filled(texts, n - 1);
    } else {
      k := CandidateFound(parse, texts, n - 1, i);
    }
  }

  lemma {:induction false} CandidatesComplete<T>(parse: string -> T, texts: seq<string>)
    ensures Complete(parse, texts, Candidates(parse, texts, |texts|))
  {
    var n := |texts|;
    var cs := Candidates(parse, texts, n);
    forall k | 0 <= k < |cs| ensures cs[k].index == k && 1 <= cs[k].line <= n
        && cs[k].outcome == parse(texts[cs[k].line - 1]) {
      CandidatePlace(parse, texts, n, k);
    }
    forall j, k | 0 <= j < k < |cs| ensures cs[j].line < cs[k].line { CandidateOrder(parse, texts, n, j, k); }
    forall i | 0 <= i < n && texts[i] != "" ensures exists k :: 0 <= k < |cs| && cs[k].line == i + 1 {
      var k := CandidateFound(parse, texts, n, i);
    }
  }

  /** Without blank lines, entry k is on line k + 1. */
  lemma {:induction false} AllFilled<T>(parse: string -> T, texts: seq<string>, n: nat)
    requires n <= |texts| && forall i :: 0 <= i < |texts| ==> texts[i] != ""
    ensures Filled(texts, n) == n
    ensures forall k :: 0 <= k < n ==> Candidates(parse, texts, n)[k] == Candidate(k, k + 1, parse(texts[k]))
  {
    if n > 0 { AllFilled(parse, texts, n - 1); }
  }
}
