/** The verifier's suggested service field names (framework/cmd/verify/rules/rules.go:
    isSubsequence, computeAcronym, isValidServiceFieldName, isSiblingServiceType), for ASCII
    names. */
module Acronym {
  import opened Text

  predicate IsUpper(c: char) { 'A' <= c <= 'Z' }
  predicate IsLower(c: char) { 'a' <= c <= 'z' }

  // ---------- the greedy check ----------

  lemma {:induction false} DropHead<T(!new)>(a: seq<T>, b: seq<T>)
    requires a != [] && Subsequence(a, b)
    ensures Subsequence(a[1..], b)
    decreases |b|
  {
    if Subsequence(a, b[1..]) {
      DropHead(a, b[1..]);
    }
  }

  /** Taking the first match loses nothing. */
  lemma GreedyStep<T(!new)>(a: seq<T>, b: seq<T>)
    requires b != []
    ensures a != [] && a[0] == b[0] ==> (Subsequence(a, b) <==> Subsequence(a[1..], b[1..]))
    ensures a != [] && a[0] != b[0] ==> (Subsequence(a, b) <==> Subsequence(a, b[1..]))
  {
    if a != [] && Subsequence(a, b[1..]) {
      DropHead(a, b[1..]);
    }
  }

  method IsSubsequence(sub: string, str: string) returns (ok: bool)
    ensures ok <==> Subsequence(ToLower(sub), ToLower(str))
  {
    hide Subsequence;
    var s, t := ToLower(sub), ToLower(str);
    var subIdx, i := 0, 0;
    while i < |t| && subIdx < |s|
      invariant 0 <= i <= |t| && 0 <= subIdx <= |s|
      invariant Subsequence(s, t) <==> Subsequence(s[subIdx..], t[i..])
    {
      GreedyStep(s[subIdx..], t[i..]);
      assert s[subIdx..][1..] == s[subIdx + 1..] && t[i..][1..] == t[i + 1..];
      if t[i] == s[subIdx] {
        subIdx := subIdx + 1;
      }
      i := i + 1;
    }
    Exhausted(s[subIdx..], t[i..]);
    ok := subIdx == |s|;
  }

  lemma Exhausted(a: string, b: string)
    ensures a == "" ==> Subsequence(a, b)
    ensures a != "" && b == "" ==> !Subsequence(a, b)
  {
  }

  /** Strictly increasing positions of `b` that spell `a`. */
  ghost predicate Embeds<T(!new)>(a: seq<T>, b: seq<T>, at: seq<nat>) {
    && |at| == |a|
    && (forall i, j :: 0 <= i < j < |at| ==> at[i] < at[j])
    && (forall i :: 0 <= i < |at| ==> at[i] < |b| && b[at[i]] == a[i])
  }

  lemma {:induction false} SubsequenceEmbeds<T(!new)>(a: seq<T>, b: seq<T>) returns (at: seq<nat>)
    requires Subsequence(a, b)
    ensures Embeds(a, b, at)
    decreases |b|
  {
    if a == [] {
      at := [];
    } else if Subsequence(a, b[1..]) {
      var rest := SubsequenceEmbeds(a, b[1..]);
      at := seq(|rest|, i requires 0 <= i < |rest| => rest[i] + 1);
    } else {
      var rest := SubsequenceEmbeds(a[1..], b[1..]);
      at := [0] + seq(|rest|, i requires 0 <= i < |rest| => rest[i] + 1);
    }
  }

  lemma {:induction false} EmbeddingIsSubsequence<T(!new)>(a: seq<T>, b: seq<T>, at: seq<nat>)
    requires Embeds(a, b, at)
    ensures Subsequence(a, b)
    decreases |b|
  {
    if a != [] {
      assert at[0] < |b|;
      if at[0] == 0 {
        var rest := seq(|at| - 1, i requires 0 <= i < |at| - 1 => at[i + 1] - 1);
        EmbeddingIsSubsequence(a[1..], b[1..], rest);
      } else {
        assert forall i :: 0 < i < |at| ==> at[0] < at[i];
        var rest := seq(|at|, i requires 0 <= i < |at| => at[i] - 1);
        EmbeddingIsSubsequence(a, b[1..], rest);
      }
    }
  }

  /** The greedy loop answers whether an increasing embedding exists. */
  lemma SubsequenceIff<T(!new)>(a: seq<T>, b: seq<T>)
    ensures Subsequence(a, b) <==> exists at :: Embeds(a, b, at)
  {
    if Subsequence(a, b) {
      var at := SubsequenceEmbeds(a, b);
    }
    if at :| Embeds(a, b, at) {
      EmbeddingIsSubsequence(a, b, at);
    }
  }

  // ---------- names ----------

  predicate OccursAt(s: string, part: string, i: nat) {
    i + |part| <= |s| && s[i..i + |part|] == part
  }

  predicate Contains(s: string, part: string) {
    exists i: nat :: i <= |s| && OccursAt(s, part, i)
  }

  /** The type's name without package and pointer. */
  function Leaf(typeStr: string): string {
    var parts := Split(typeStr, '.');
    parts[|parts| - 1]
  }

  function Bare(leaf: string): string {
    if "*" <= leaf then leaf[1..] else leaf
  }

  predicate IsSiblingServiceType(typeStr: string) {
    && !("*" <= typeStr)
    && HasSuffix(typeStr, "Service")
    && !Contains(typeStr, "ServiceBase")
    && !Contains(typeStr, "QueueService")
    && Leaf(typeStr) != "Service"
    && (|Split(typeStr, '.')| > 1 ==> Split(typeStr, '.')[0] == "ports")
  }

  function Capitals(s: string): string {
    if s == "" then ""
    else Capitals(s[..|s| - 1]) + (if IsUpper(s[|s| - 1]) then [LowerChar(s[|s| - 1])] else [])
  }

  method ComputeAcronym(typeStr: string) returns (letters: string)
    ensures letters == Capitals(Bare(Leaf(typeStr)))
  {
    var leaf := Bare(Leaf(typeStr));
    letters := [];
    for i := 0 to |leaf|
      invariant letters == Capitals(leaf[..i])
    {
      assert leaf[..i + 1][..i] == leaf[..i];
      if IsUpper(leaf[i]) {
        letters := letters + [LowerChar(leaf[i])];
      }
    }
    assert leaf[..|leaf|] == leaf;
  }

  ghost predicate IsValidServiceFieldName(name: string, typeStr: string) {
    && name != ""
    && !IsUpper(name[0])
    && !HasSuffix(name, "Service") && !HasSuffix(name, "Svc")
    && 2 <= |name| <= 4
    && (forall i :: 0 <= i < |name| ==> IsLower(name[i]))
    && name[|name| - 1] == 's'
    && Subsequence(ToLower(name), ToLower(Bare(Leaf(typeStr))))
  }

  method CheckServiceFieldName(name: string, typeStr: string) returns (ok: bool)
    ensures ok <==> IsValidServiceFieldName(name, typeStr)
  {
    hide Subsequence, Leaf, Bare;
    if name == "" || IsUpper(name[0]) || HasSuffix(name, "Service") || HasSuffix(name, "Svc") {
      return false;
    }
    if |name| < 2 || |name| > 4 {
      return false;
    }
    for i := 0 to |name|
      invariant forall j :: 0 <= j < i ==> IsLower(name[j])
    {
      if !IsLower(name[i]) {
        return false;
      }
    }
    if name[|name| - 1] != 's' {
      return false;
    }
    ok := IsSubsequence(name, Bare(Leaf(typeStr)));
  }

  // ---------- the suggestion is accepted ----------

  lemma {:induction false} CapitalsAppend(a: string, b: string)
    ensures Capitals(a + b) == Capitals(a) + Capitals(b)
    decreases |b|
  {
    if b == "" {
      assert a + b == a;
    } else {
      assert (a + b)[..|a + b| - 1] == a + b[..|b| - 1] && (a + b)[|a + b| - 1] == b[|b| - 1];
      CapitalsAppend(a, b[..|b| - 1]);
    }
  }

  lemma {:induction false} CapitalsAreLower(s: string)
    ensures forall i :: 0 <= i < |Capitals(s)| ==> IsLower(Capitals(s)[i])
  {
    if s != "" {
      CapitalsAreLower(s[..|s| - 1]);
    }
  }

  lemma {:induction false} CapitalsSubsequence(s: string)
    ensures Subsequence(Capitals(s), ToLower(s))
  {
    if s != "" {
      var front, c := s[..|s| - 1], s[|s| - 1];
      CapitalsSubsequence(front);
      assert ToLower(s) == ToLower(front) + [LowerChar(c)];
      SubsequenceRefl([LowerChar(c)]);
      SubsequenceAppend(Capitals(front), ToLower(front), if IsUpper(c) then [LowerChar(c)] else [], [LowerChar(c)]);
    }
  }

  lemma LowerFixed(s: string)
    requires forall i :: 0 <= i < |s| ==> IsLower(s[i])
    ensures ToLower(s) == s
  {
  }

  /** A character in front starts a new first part or grows the old one. */
  lemma LeafCons(c: char, s: string)
    ensures Leaf([c] + s) == Leaf(s) || Leaf([c] + s) == [c] + Leaf(s)
  {
    assert ([c] + s)[1..] == s;
  }

  lemma SuffixCons(c: char, s: string, suffix: string)
    requires HasSuffix(s, suffix)
    ensures HasSuffix([c] + s, suffix)
  {
    assert ([c] + s)[1 + |s| - |suffix|..] == s[|s| - |suffix|..];
  }

  /** The part after the last dot keeps a dotless suffix. */
  lemma {:induction false} LeafSuffix(typeStr: string, suffix: string)
    requires HasSuffix(typeStr, suffix) && '.' !in suffix
    ensures HasSuffix(Leaf(typeStr), suffix)
  {
    if typeStr == suffix {
      SplitOne(typeStr, '.');
    } else {
      hide Split, Leaf;
      var c, rest := typeStr[0], typeStr[1..];
      assert rest[|rest| - |suffix|..] == typeStr[|typeStr| - |suffix|..];
      LeafSuffix(rest, suffix);
      assert typeStr == [c] + rest;
      LeafCons(c, rest);
      SuffixCons(c, Leaf(rest), suffix);
    }
  }

  lemma {:induction false} NoCapitals(s: string)
    requires forall i :: 0 <= i < |s| ==> !IsUpper(s[i])
    ensures Capitals(s) == ""
  {
    if s != "" {
      NoCapitals(s[..|s| - 1]);
    }
  }

  lemma ServiceCapital()
    ensures Capitals("Service") == "s"
  {
    hide Capitals;
    NoCapitals("ervice");
    OneCapital('S');
    CapitalsAppend("S", "ervice");
    assert "Service" == "S" + "ervice";
  }

  lemma OneCapital(c: char)
    requires IsUpper(c)
    ensures Capitals([c]) == [LowerChar(c)]
  {
    assert [c][..0] == "";
  }

  /** For every sibling service type the suggested name is accepted for that type exactly when
      the type's leaf has two to four capitals. */
  lemma SuggestionAcceptedIff(typeStr: string)
    requires IsSiblingServiceType(typeStr)
    ensures var name := Capitals(Bare(Leaf(typeStr)));
      IsValidServiceFieldName(name, typeStr) <==> 2 <= |name| <= 4
  {
    hide Subsequence, Leaf, Capitals, Contains;
    LeafSuffix(typeStr, "Service");
    var leaf := Bare(Leaf(typeStr));
    assert |Leaf(typeStr)| == 7 ==> Leaf(typeStr) == "Service";
    assert leaf == leaf[..|leaf| - 7] + "Service";
    CapitalsAppend(leaf[..|leaf| - 7], "Service");
    ServiceCapital();
    CapitalsAreLower(leaf);
    CapitalsSubsequence(leaf);
    var name := Capitals(leaf);
    LowerFixed(name);
    assert name[|name| - 1] == 's';
    NoCapitalSuffix(name);
  }

  lemma NoCapitalSuffix(name: string)
    requires forall i :: 0 <= i < |name| ==> IsLower(name[i])
    ensures !HasSuffix(name, "Service") && !HasSuffix(name, "Svc")
  {
    forall suffix: string | suffix != "" && HasSuffix(name, suffix) ensures IsLower(suffix[0]) {
      assert name[|name| - |suffix|] == suffix[0];
    }
    assert "Service"[0] == 'S' && "Svc"[0] == 'S';
  }
}
