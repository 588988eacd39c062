/**
 The tags a compiled graph uses, as structured names and their printed form
 (internal/compiler/label.go, internal/compiler/orchestration.go, internal/adapter/emit.go).
 */
module Names {
  import opened Prelude

  datatype Name =
    | NodeName(stem: string)
    | HopName(stem: string, hop: nat)
    | GroupName(stem: string)
    | MemberNode(stem: string, index: nat)
    | MemberHop(stem: string, index: nat, hop: nat)

  /** Lower-case hexadecimal digits, as a digest prints them. */
  predicate AllHex(s: string) { forall i :: 0 <= i < |s| ==> IsDigit(s[i]) || 'a' <= s[i] <= 'f' }

  ghost predicate ValidName(n: Name) { AllHex(n.stem) }

  /** What follows the prefix and the stem. */
  function Tail(n: Name): string {
    match n
    case NodeName(_) => ""
    case HopName(_, hop) => "_h" + Itoa(hop)
    case GroupName(_) => ""
    case MemberNode(_, index) => "_m" + Itoa(index) + "_n"
    case MemberHop(_, index, hop) => "_m" + Itoa(index) + "_h" + Itoa(hop)
  }

  function Head(n: Name): char { if n.NodeName? then 'n' else if n.HopName? then 'c' else 'g' }

  /** prefix + stem + suffix. */
  function Print(n: Name): string { [Head(n), '_'] + n.stem + Tail(n) }

  lemma {:induction false} TailStart(n: Name)
    ensures Tail(n) != "" ==> Tail(n)[0] == '_'
  {
  }

  /** A hexadecimal stem ends where the tail's underscore begins. */
  lemma {:induction false} StemSplit(s: string, a: string, t: string, b: string)
    requires AllHex(s) && AllHex(t) && s + a == t + b
    requires (a == "" || a[0] == '_') && (b == "" || b[0] == '_')
    ensures s == t && a == b
  {
    var w := s + a;
    assert forall i :: 0 <= i < |s| ==> w[i] == s[i] && w[i] != '_';
    assert forall i :: 0 <= i < |t| ==> w[i] == t[i] && w[i] != '_';
    assert |s| < |w| ==> w[|s|] == '_';
    assert |t| < |w| ==> w[|t|] == '_';
    assert |s| == |t|;
    assert s == w[..|s|] && t == w[..|t|];
    assert a == w[|s|..] && b == w[|t|..];
  }

  lemma {:induction false} DigitSplit(s: string, a: string, t: string, b: string)
    requires AllDigits(s) && AllDigits(t) && s + a == t + b
    requires (a == "" || a[0] == '_') && (b == "" || b[0] == '_')
    ensures s == t && a == b
  {
    StemSplit(s, a, t, b);
  }

  lemma {:induction false} ItoaSame(m: nat, n: nat)
    requires Itoa(m) == Itoa(n)
    ensures m == n
  {
    ItoaRoundTrip(m);
    ItoaRoundTrip(n);
  }

  lemma {:induction false} MemberTailInjective(i: nat, a: string, j: nat, b: string)
    requires |a| >= 2 && |b| >= 2 && a[0] == '_' && b[0] == '_'
    requires "_m" + Itoa(i) + a == "_m" + Itoa(j) + b
    ensures i == j && a == b
  {
    Parts("_m", Itoa(i), a);
    Parts("_m", Itoa(j), b);
    DigitSplit(Itoa(i), a, Itoa(j), b);
    ItoaSame(i, j);
  }

  lemma {:induction false} HopInjective(i: nat, j: nat)
    requires "_h" + Itoa(i) == "_h" + Itoa(j)
    ensures i == j
  {
    assert ("_h" + Itoa(i))[2..] == Itoa(i) && ("_h" + Itoa(j))[2..] == Itoa(j);
    ItoaSame(i, j);
  }

  function MemberSuffix(n: Name): string
    requires n.MemberNode? || n.MemberHop?
  {
    if n.MemberNode? then "_n" else "_h" + Itoa(n.hop)
  }

  lemma {:induction false} TailInjective(x: Name, y: Name)
    requires Head(x) == Head(y) && x.stem == y.stem && Tail(x) == Tail(y)
    ensures x == y
  {
    if x.HopName? {
      HopInjective(x.hop, y.hop);
    } else if x.MemberNode? || x.MemberHop? {
      assert y.MemberNode? || y.MemberHop?;
      assert Tail(x) == "_m" + Itoa(x.index) + MemberSuffix(x) && Tail(y) == "_m" + Itoa(y.index) + MemberSuffix(y);
      MemberTailInjective(x.index, MemberSuffix(x), y.index, MemberSuffix(y));
      assert MemberSuffix(x)[1] == MemberSuffix(y)[1];
      if x.MemberHop? { HopInjective(x.hop, y.hop); }
    }
  }

  lemma {:induction false} PrintParts(n: Name)
    ensures Print(n)[0] == Head(n) && Print(n)[1] == '_' && Print(n)[2..] == n.stem + Tail(n)
  {
    Parts([Head(n), '_'], n.stem, Tail(n));
  }

  lemma {:induction false} Parts(a: string, b: string, c: string)
    ensures (a + b + c)[|a|..] == b + c && (a + b + c)[..|a|] == a
    ensures forall i :: 0 <= i < |a| ==> (a + b + c)[i] == a[i]
  {
  }

  /** Different names print differently, so no two outbounds or groups can share a tag. */
  lemma {:induction false} PrintInjective(x: Name, y: Name)
    requires ValidName(x) && ValidName(y) && Print(x) == Print(y)
    ensures x == y
  {
    TailStart(x);
    TailStart(y);
    PrintParts(x);
    PrintParts(y);
    StemSplit(x.stem, Tail(x), y.stem, Tail(y));
    TailInjective(x, y);
  }

  // ---- Reserved tags (strings.ToLower then a fixed list) ----

  const RESERVED: seq<string> := ["in", "block", "direct", "reject", "global", "compatible", "pass", "dns-out"]

  predicate IsReservedTag(tag: string) { ToLower(tag) in RESERVED }

  /** No printed name is reserved: every one has an underscore in second place. */
  lemma {:induction false} PrintNotReserved(n: Name)
    ensures Print(n) != "" && !IsReservedTag(Print(n))
  {
    PrintParts(n);
    var t := ToLower(Print(n));
    assert t[1] == '_';
    forall i | 0 <= i < |RESERVED| ensures RESERVED[i] != t {
      assert |RESERVED[i]| >= 2 && RESERVED[i][1] != '_';
    }
  }

  lemma {:induction false} DirectReserved()
    ensures IsReservedTag("direct")
  {
    assert ToLower("direct") == "direct" && RESERVED[2] == "direct";
  }
}
