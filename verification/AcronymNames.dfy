/** The naming rule's parts spelled out on the text of types and names
    (framework/cmd/verify/rules/rules.go: isSiblingServiceType, computeAcronym,
    isValidServiceFieldName). */
module AcronymNames {
  import opened Text
  import opened TextFacts
  import opened Acronym

  lemma CapitalsIff(c: char)
    ensures IsUpper(c) <==> c in UPPER
    ensures IsLower(c) <==> c in LOWER
  {
    LettersIff(c);
  }

  lemma ContainsIff(s: string, part: string)
    ensures Contains(s, part) <==> exists a, b :: s == a + part + b
  {
    if Contains(s, part) {
      var i: nat :| i <= |s| && OccursAt(s, part, i);
      assert s == s[..i] + part + s[i + |part|..];
    }
    if a, b :| s == a + part + b {
      assert s[|a|..|a| + |part|] == part;
      assert OccursAt(s, part, |a|);
    }
  }

  lemma EndsIff(s: string, suffix: string)
    ensures HasSuffix(s, suffix) <==> exists a :: s == a + suffix
  {
    if HasSuffix(s, suffix) {
      assert s == s[..|s| - |suffix|] + suffix;
    }
  }

  // ---------- the leaf of a type ----------

  /** The leaf is what follows the last dot. */
  lemma {:induction false} LeafAfter(front: string, leaf: string)
    requires '.' !in leaf
    ensures Leaf(leaf) == leaf && Leaf(front + "." + leaf) == leaf
  {
    SplitOne(leaf, '.');
    if front == "" {
      assert "" + "." + leaf == "" + ['.'] + leaf;
      SplitCons("", leaf, '.');
    } else {
      LeafAfter(front[1..], leaf);
      var rest := front[1..] + "." + leaf;
      assert front + "." + leaf == [front[0]] + rest;
      TwoParts(front[1..], leaf);
      LeafPast(front[0], rest);
    }
  }

  lemma LeafPast(c: char, s: string)
    requires |Split(s, '.')| > 1
    ensures Leaf([c] + s) == Leaf(s)
  {
    SplitPast(c, s);
    hide Split;
  }

  lemma SplitPast(c: char, s: string)
    ensures Split([c] + s, '.') ==
      if c == '.' then [""] + Split(s, '.') else [[c] + Split(s, '.')[0]] + Split(s, '.')[1..]
  {
    assert ([c] + s)[1..] == s && ([c] + s)[0] == c;
  }

  lemma {:induction false} TwoParts(front: string, leaf: string)
    ensures |Split(front + "." + leaf, '.')| > 1
  {
    var s := front + "." + leaf;
    if front == "" {
      assert s[0] == '.';
    } else {
      assert s[1..] == front[1..] + "." + leaf;
      TwoParts(front[1..], leaf);
    }
  }

  /** A pointer's star is dropped, once. */
  lemma BareIs(leaf: string)
    ensures Bare("*" + leaf) == leaf
    ensures (leaf == "" || leaf[0] != '*') ==> Bare(leaf) == leaf
  {
  }

  // ---------- sibling services ----------

  /** The parts of the rule that do not look at the package. */
  ghost predicate NamesService(typeStr: string, leaf: string) {
    && (typeStr == "" || typeStr[0] != '*')
    && (exists a :: typeStr == a + "Service")
    && !(exists a, b :: typeStr == a + "ServiceBase" + b)
    && !(exists a, b :: typeStr == a + "QueueService" + b)
    && leaf != "Service"
  }

  /** An unqualified type is a sibling service if its name ends in Service, is not just that, and
      names neither a base nor a queue service. */
  lemma SiblingUnqualifiedIff(leaf: string)
    requires '.' !in leaf
    ensures IsSiblingServiceType(leaf) <==> NamesService(leaf, leaf)
  {
    LeafAfter("", leaf);
    SplitOne(leaf, '.');
    EndsIff(leaf, "Service");
    ContainsIff(leaf, "ServiceBase");
    ContainsIff(leaf, "QueueService");
  }

  /** A qualified type must in addition come from the ports package. */
  lemma SiblingQualifiedIff(pkg: string, rest: string)
    requires '.' !in pkg
    ensures IsSiblingServiceType(pkg + "." + rest) <==>
      pkg == "ports" && NamesService(pkg + "." + rest, Leaf(pkg + "." + rest))
  {
    var typeStr := pkg + "." + rest;
    assert typeStr == pkg + ['.'] + rest;
    SplitCons(pkg, rest, '.');
    EndsIff(typeStr, "Service");
    ContainsIff(typeStr, "ServiceBase");
    ContainsIff(typeStr, "QueueService");
    assert (pkg + "." + rest)[0] == if pkg == "" then '.' else pkg[0];
  }

  // ---------- accepted names ----------

  /** A name is accepted if and only if it is two to four lower-case letters, the last an s, that
      occur in order in the type's leaf. Whatever else the rule tests follows. */
  lemma ValidIff(name: string, front: string, leaf: string)
    requires '.' !in leaf && (leaf == "" || leaf[0] != '*')
    ensures IsValidServiceFieldName(name, front + "." + leaf) <==>
      && 2 <= |name| <= 4
      && (forall i :: 0 <= i < |name| ==> name[i] in LOWER)
      && name[|name| - 1] == 's'
      && exists at :: Embeds(name, ToLower(leaf), at)
  {
    hide Subsequence, Leaf, Embeds;
    LeafAfter(front, leaf);
    BareIs(leaf);
    forall i | 0 <= i < |name| ensures IsLower(name[i]) <==> name[i] in LOWER {
      CapitalsIff(name[i]);
    }
    if forall i :: 0 <= i < |name| ==> IsLower(name[i]) {
      LowerFixed(name);
      NoCapitalSuffix(name);
    }
    SubsequenceIff(name, ToLower(leaf));
  }
}
