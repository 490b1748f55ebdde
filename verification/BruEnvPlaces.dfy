/** How often, and where, a name stands in an environment file after the sync
    (framework/cmd/brunogen/generator/bru.go: addMissingEnvVars). */
module BruEnvPlaces {
  import opened Text
  import opened BruParams
  import opened BruEnv

  // ---------- how often a name ends up defined ----------

  function DefLines(lines: seq<string>, name: string): nat {
    if lines == [] then 0
    else (if Defines(TrimSpace(lines[0]), name) then 1 else 0) + DefLines(lines[1..], name)
  }

  predicate BlockAssigns(line: string, name: string) {
    OneLine(TrimSpace(line)) && Defines(Inner(TrimSpace(line)), name)
  }

  /** One-line blocks that assign the name. */
  function BlockLines(lines: seq<string>, name: string): nat {
    if lines == [] then 0 else (if BlockAssigns(lines[0], name) then 1 else 0) + BlockLines(lines[1..], name)
  }

  /** Places where a rewrite puts the missing names: one-line blocks and ends of open blocks. */
  function Spots(lines: seq<string>, inVars: bool): nat {
    if lines == [] then 0
    else
      var here := RewriteLine(lines[0], [], inVars);
      (if here.inserted then 1 else 0) + Spots(lines[1..], here.inVars)
  }

  function Times(names: seq<string>, name: string): nat {
    if names == [] then 0 else (if names[0] == name then 1 else 0) + Times(names[1..], name)
  }

  lemma {:induction false} DefLinesAppend(a: seq<string>, b: seq<string>, name: string)
    ensures DefLines(a + b, name) == DefLines(a, name) + DefLines(b, name)
  {
    hide Defines, TrimSpace;
    if a == [] {
      assert a + b == b;
    } else {
      assert (a + b)[0] == a[0] && (a + b)[1..] == a[1..] + b;
      DefLinesAppend(a[1..], b, name);
    }
  }

  lemma DefLinesOne(line: string, name: string)
    ensures DefLines([line], name) == if Defines(TrimSpace(line), name) then 1 else 0
  {
    hide Defines, TrimSpace;
    assert [line][1..] == [];
  }

  lemma {:induction false} DefLinesPositive(lines: seq<string>, name: string)
    ensures DefLines(lines, name) > 0 <==> AnyDefines(lines, name)
  {
    hide Defines, TrimSpace, AnyDefines;
    if lines == [] {
      NoneDefined(name);
    } else {
      DefLinesPositive(lines[1..], name);
      DefLinesOne(lines[0], name);
      assert lines == [lines[0]] + lines[1..];
      AnyAppend([lines[0]], lines[1..], name);
      OneDefined(lines[0], name);
    }
  }

  lemma NoneDefined(name: string)
    ensures !AnyDefines([], name)
  {
  }

  lemma OneDefined(line: string, name: string)
    ensures AnyDefines([line], name) <==> Defines(TrimSpace(line), name)
  {
    hide Defines, TrimSpace;
    assert [line][0] == line;
  }

  lemma {:induction false} BlockLinesPositive(lines: seq<string>, name: string)
    ensures BlockLines(lines, name) > 0 <==> exists i :: 0 <= i < |lines| && BlockAssigns(lines[i], name)
  {
    hide BlockAssigns;
    if lines != [] {
      BlockLinesPositive(lines[1..], name);
      if i :| 0 <= i < |lines| && BlockAssigns(lines[i], name) && i > 0 {
        assert lines[1..][i - 1] == lines[i];
      }
      if i :| 0 <= i < |lines[1..]| && BlockAssigns(lines[1..][i], name) {
        assert lines[i + 1] == lines[1..][i];
      }
    }
  }

  /** A new line trims to its name and a colon, and defines no other name. */
  lemma NewLineTrims(name: string)
    requires VarName(name)
    ensures TrimSpace(NewLine(name)) == name + ":"
  {
    hide TrimSpace, TrimRight, TrimLeft, VarName, IsSpace;
    NameStarts(name);
    PadFacts();
    assert NewLine(name) == ("  " + (name + ":")) + " ";
    TrimSpaceBlank("  " + (name + ":"), " ");
    TrimSpaceFirst("  ", name + ":");
    TrimRightKeeps(name, ":");
  }

  lemma NewLineDefinesOnly(other: string, name: string)
    requires VarName(other) && VarName(name)
    ensures Defines(TrimSpace(NewLine(other)), name) <==> other == name
  {
    hide TrimSpace;
    NewLineTrims(other);
    var t := other + ":";
    assert t[|other|] == ':' && (name + " ")[|name|] == ' ';
    assert forall c :: c in t ==> VarChar(c) || c == ':';
    assert !VarChar(':') && !VarChar(' ');
    if name + ":" <= t {
      assert (name + ":")[|name|] == t[|name|] == ':';
      assert name == t[..|name|] == other;
    }
    if name + " " <= t {
      PrefixChars(name + " ", t);
    }
  }

  lemma PrefixChars(a: string, b: string)
    requires a <= b
    ensures forall c :: c in a ==> c in b
  {
    assert forall i :: 0 <= i < |a| ==> a[i] == b[i];
  }

  lemma {:induction false} NewLinesCount(missing: seq<string>, name: string)
    requires VarNames(missing) && VarName(name)
    ensures DefLines(NewLines(missing), name) == Times(missing, name)
  {
    hide Defines, TrimSpace, NewLine, VarName;
    if missing != [] {
      assert NewLines(missing)[1..] == NewLines(missing[1..]);
      NewLinesCount(missing[1..], name);
      NewLineDefinesOnly(missing[0], name);
    }
  }

  lemma TrimTwice(s: string)
    ensures TrimSpace("  " + TrimSpace(s)) == TrimSpace(s)
  {
    hide IsSpace, TrimLeft, TrimRight;
    var t := TrimSpace(s);
    Blank2();
    if t == "" {
      TrimLeftSkips("  ", "");
      assert "  " + "" == "  ";
      TrimRightBlank("", "");
      TrimNothing();
    } else {
      assert t[0] == TrimLeft(s)[0];
      TrimSpaceFirst("  ", t);
      TrimRightFixed(t);
    }
  }

  lemma Blank2()
    ensures Blank("  ")
  {
  }

  lemma TrimNothing()
    ensures TrimLeft("") == "" && TrimRight("") == ""
  {
  }

  lemma BracesDefineNothing(name: string)
    requires VarName(name)
    ensures !Defines(TrimSpace("vars {"), name) && !Defines(TrimSpace("}"), name) && !Defines(TrimSpace(""), name)
  {
    hide TrimSpace;
    TrimBraces();
    NameStarts(name);
    HeaderDefinesNothing("vars {", name);
    assert (name + ":")[0] == name[0] && (name + " ")[0] == name[0];
  }

  lemma TrimBraces()
    ensures TrimSpace("vars {") == "vars {" && TrimSpace("}") == "}" && TrimSpace("") == ""
  {
    hide TrimSpace;
    TrimSpaceFixed("vars {");
    TrimSpaceFixed("}");
    TrimEmpty();
  }

  lemma TrimEmpty()
    ensures TrimSpace("") == ""
  {
  }

  /** Around the lines of an expanded block nothing defines a name. */
  lemma WrappedCount(mid: seq<string>, missing: seq<string>, name: string)
    requires VarNames(missing) && VarName(name)
    ensures DefLines(["vars {"] + mid + NewLines(missing) + ["}"], name) == DefLines(mid, name) + Times(missing, name)
  {
    hide Defines, TrimSpace, VarName, NewLines, DefLines;
    BracesDefineNothing(name);
    DefLinesOne("vars {", name);
    DefLinesOne("}", name);
    NewLinesCount(missing, name);
    DefLinesAppend(["vars {"], mid, name);
    DefLinesAppend(["vars {"] + mid, NewLines(missing), name);
    DefLinesAppend(["vars {"] + mid + NewLines(missing), ["}"], name);
  }

  lemma InnerCount(trimmed: string, name: string)
    requires OneLine(trimmed) && VarName(name)
    ensures DefLines(if Inner(trimmed) != "" then ["  " + Inner(trimmed)] else [], name)
         == if Defines(Inner(trimmed), name) then 1 else 0
  {
    hide Defines, TrimSpace, OneLine, VarName, DefLines;
    BracesDefineNothing(name);
    TrimBraces();
    TrimTwice(trimmed[Brace(trimmed) + 1..|trimmed| - 1]);
    DefLinesOne("  " + Inner(trimmed), name);
    NoLines(name);
  }

  lemma NoLines(name: string)
    ensures DefLines([], name) == 0
  {
  }

  lemma LineCount(line: string, missing: seq<string>, inVars: bool, name: string)
    requires VarNames(missing) && VarName(name)
    ensures var here := RewriteLine(line, missing, inVars);
      DefLines(here.out, name) == (if Defines(TrimSpace(line), name) then 1 else 0)
        + (if here.inserted then Times(missing, name) else 0) + (if BlockAssigns(line, name) then 1 else 0)
  {
    hide Defines, TrimSpace, OneLine, OpensVars, Inner, VarName, DefLines, NewLines;
    DefLinesOne(line, name);
    if OneLine(TrimSpace(line)) {
      var inner := Inner(TrimSpace(line));
      WrappedCount(if inner != "" then ["  " + inner] else [], missing, name);
      InnerCount(TrimSpace(line), name);
      OneLineIsHeader(TrimSpace(line));
      HeaderDefinesNothing(TrimSpace(line), name);
    } else {
      NewLinesCount(missing, name);
      DefLinesAppend(NewLines(missing), [line], name);
    }
  }

  lemma OneLineIsHeader(trimmed: string)
    requires OneLine(trimmed)
    ensures OpensVars(trimmed)
  {
  }

  lemma SameFlags(line: string, missing: seq<string>, inVars: bool)
    ensures RewriteLine(line, missing, inVars).inVars == RewriteLine(line, [], inVars).inVars
    ensures RewriteLine(line, missing, inVars).inserted == RewriteLine(line, [], inVars).inserted
  {
    hide TrimSpace, OneLine, OpensVars, Expanded, NewLines;
  }

  /** A rewrite defines a name on the lines that did, once more for every copy it inserts, and
      once for every one-line block that assigned it. */
  lemma {:induction false} RewriteCount(lines: seq<string>, missing: seq<string>, inVars: bool, name: string)
    requires VarNames(missing) && VarName(name)
    ensures DefLines(Rewrite(lines, missing, inVars).lines, name)
         == DefLines(lines, name) + Spots(lines, inVars) * Times(missing, name) + BlockLines(lines, name)
  {
    hide Defines, TrimSpace, RewriteLine, VarName, Times, BlockAssigns;
    if lines != [] {
      var here := RewriteLine(lines[0], missing, inVars);
      LineCount(lines[0], missing, inVars, name);
      SameFlags(lines[0], missing, inVars);
      RewriteCount(lines[1..], missing, here.inVars, name);
      DefLinesAppend(here.out, Rewrite(lines[1..], missing, here.inVars).lines, name);
      OneMore(Spots(lines[1..], here.inVars), Times(missing, name));
    }
  }

  lemma OneMore(n: nat, k: nat)
    ensures (n + 1) * k == n * k + k
  {
  }

  lemma {:induction false} InsertedIffSpots(lines: seq<string>, missing: seq<string>, inVars: bool)
    ensures Rewrite(lines, missing, inVars).inserted <==> Spots(lines, inVars) > 0
  {
    hide RewriteLine;
    if lines != [] {
      SameFlags(lines[0], missing, inVars);
      InsertedIffSpots(lines[1..], missing, RewriteLine(lines[0], missing, inVars).inVars);
    }
  }

  lemma {:induction false} NoSpotsNoBlocks(lines: seq<string>, inVars: bool, name: string)
    requires Spots(lines, inVars) == 0
    ensures BlockLines(lines, name) == 0
  {
    hide TrimSpace, OneLine, OpensVars, Inner, Defines, Expanded;
    if lines != [] {
      NoSpotsNoBlocks(lines[1..], RewriteLine(lines[0], [], inVars).inVars, name);
    }
  }

  lemma FallbackCount(before: seq<string>, missing: seq<string>, name: string)
    requires before != [] && VarNames(missing) && VarName(name)
    ensures DefLines(WithFallback(before, missing), name) == DefLines(before, name) + Times(missing, name)
  {
    hide Defines, TrimSpace, VarName, NewLines, DefLines;
    var front := before[..|before| - 1];
    var kept := if before[|before| - 1] != "" then before else front;
    assert before == front + [before[|before| - 1]];
    DefLinesAppend(front, [before[|before| - 1]], name);
    DefLinesOne("", name);
    DefLinesOne("vars {", name);
    DefLinesOne("}", name);
    BracesDefineNothing(name);
    NewLinesCount(missing, name);
    DefLinesAppend(["}"], [""], name);
    assert ["}"] + [""] == ["}", ""];
    DefLinesAppend(["vars {"], NewLines(missing), name);
    DefLinesAppend(["vars {"] + NewLines(missing), ["}", ""], name);
    DefLinesAppend(kept, FallbackLines(missing), name);
  }

  /** The lines of the result: untouched, rewritten, or with a block appended. */
  function ResultOf(before: seq<string>, missing: seq<string>): seq<string>
    requires before != []
  {
    if missing == [] then before
    else if Rewrite(before, missing, false).inserted then Rewrite(before, missing, false).lines
    else WithFallback(before, missing)
  }

  lemma SyncLines(content: string, envVars: seq<string>)
    requires VarNames(envVars)
    ensures Split(AddMissing(content, envVars).0, '\n') == ResultOf(Split(content, '\n'), Missing(content, envVars))
    ensures VarNames(Missing(content, envVars))
  {
    hide Split, Join, VarName, Rewrite, Contains, FallbackLines, NewLines, WithFallback, Missing, AddMissing;
    var before, missing := Split(content, '\n'), Missing(content, envVars);
    MissingSpec(content, envVars);
    ThreeResults(content, envVars);
    if missing != [] {
      forall i | 0 <= i < |missing| ensures VarName(missing[i]) {
        assert missing[i] in missing;
      }
      if Rewrite(before, missing, false).inserted {
        InsertedLines(before, missing);
      } else {
        NothingInserted(before, missing, false);
        AppendedLines(content, missing);
      }
    }
  }

  lemma InsertedLines(before: seq<string>, missing: seq<string>)
    requires before != [] && OneLiners(before) && VarNames(missing)
    ensures var lines := Rewrite(before, missing, false).lines; Split(Join(lines, '\n'), '\n') == lines
  {
    hide Split, Join, VarName, Rewrite, NewLines;
    NewLinesOneLiners(missing);
    RewriteOneLiners(before, missing, false);
    RewriteNotEmpty(before, missing, false);
    SplitJoin(Rewrite(before, missing, false).lines, '\n');
  }

  lemma AppendedLines(content: string, missing: seq<string>)
    requires VarNames(missing)
    ensures var before := Split(content, '\n');
      WithFallback(before, missing)
        == Split(content + (if before[|before| - 1] != "" then "\n" else "") + Join(FallbackLines(missing), '\n'), '\n')
  {
    hide Split, Join, VarName, FallbackLines, WithFallback, NewLines;
    NewLinesOneLiners(missing);
    var lines := FallbackResult(content, missing);
  }

  /** How many lines of the synced text define a name. */
  lemma SyncCount(content: string, envVars: seq<string>, name: string)
    requires VarNames(envVars) && VarName(name)
    ensures var before, missing := Split(content, '\n'), Missing(content, envVars);
      DefLines(Split(AddMissing(content, envVars).0, '\n'), name) == DefLines(before, name) +
        if missing == [] then 0
        else (if Spots(before, false) > 0 then Spots(before, false) else 1) * Times(missing, name)
             + BlockLines(before, name)
  {
    hide Split, Join, VarName, Rewrite, Contains, DefLines, Spots, BlockLines, Times, Missing, WithFallback, AddMissing;
    var before, missing := Split(content, '\n'), Missing(content, envVars);
    SyncLines(content, envVars);
    if missing != [] {
      RewriteCount(before, missing, false, name);
      InsertedIffSpots(before, missing, false);
      if Spots(before, false) == 0 {
        NoSpotsNoBlocks(before, false, name);
        FallbackCount(before, missing, name);
      }
    }
  }

  /** A line defines the name, or a one-line block assigns it. */
  predicate Assigns(content: string, name: string) {
    var lines := Split(content, '\n');
    AnyDefines(lines, name) || exists i :: 0 <= i < |lines| && BlockAssigns(lines[i], name)
  }

  lemma {:induction false} TimesPositive(names: seq<string>, name: string)
    ensures Times(names, name) > 0 <==> name in names
  {
    if names != [] {
      TimesPositive(names[1..], name);
      assert names == [names[0]] + names[1..];
    }
  }

  /** The sync inserts a name the file already assigns exactly when the name is requested, no
      line defines it, and a one-line block assigns it; it then stands on two lines or more. */
  lemma ReAddedIff(content: string, envVars: seq<string>, name: string)
    requires VarNames(envVars) && VarName(name)
    ensures name in Missing(content, envVars) && Assigns(content, name)
       <==> name in envVars && !Contains(content, name) && BlockLines(Split(content, '\n'), name) > 0
    ensures name in Missing(content, envVars) && Assigns(content, name) ==>
      DefLines(Split(AddMissing(content, envVars).0, '\n'), name) >= 2
  {
    hide Split, Contains, DefLines, Spots, BlockLines, Times, Missing, AddMissing, AnyDefines, BlockAssigns, VarName;
    var before, missing := Split(content, '\n'), Missing(content, envVars);
    NameNotEmpty(name);
    MissingSpec(content, envVars);
    ContainsIffSplit(content, name);
    BlockLinesPositive(before, name);
    if name in missing && Assigns(content, name) {
      SyncCount(content, envVars, name);
      TimesPositive(missing, name);
      var n := if Spots(before, false) > 0 then Spots(before, false) else 1;
      assert n * Times(missing, name) >= 1;
    }
  }

  lemma {:induction false} MissingOnce(content: string, envVars: seq<string>, name: string)
    requires forall i, j :: 0 <= i < j < |envVars| ==> envVars[i] != envVars[j]
    requires name in envVars && !Contains(content, name)
    ensures Times(Missing(content, envVars), name) == 1
  {
    hide Contains;
    var front, v := envVars[..|envVars| - 1], envVars[|envVars| - 1];
    assert envVars == front + [v];
    if v == name {
      MissingSpec(content, front);
      TimesPositive(Missing(content, front), name);
      assert name !in Missing(content, front);
    } else {
      MissingOnce(content, front, name);
    }
    TimesSnoc(Missing(content, front), v, name);
  }

  lemma {:induction false} TimesSnoc(names: seq<string>, v: string, name: string)
    ensures Times(names + [v], name) == Times(names, name) + (if v == name then 1 else 0)
  {
    if names == [] {
      assert names + [v] == [v];
    } else {
      assert (names + [v])[0] == names[0] && (names + [v])[1..] == names[1..] + [v];
      TimesSnoc(names[1..], v, name);
    }
  }

  /** A requested name that was absent is afterwards defined exactly once if and only if the file
      had at most one place to put it and no one-line block that assigned it. */
  lemma DefinedOnceIff(content: string, envVars: seq<string>, name: string)
    requires VarNames(envVars) && forall i, j :: 0 <= i < j < |envVars| ==> envVars[i] != envVars[j]
    requires name in envVars && !Contains(content, name)
    ensures DefLines(Split(AddMissing(content, envVars).0, '\n'), name) == 1
       <==> Spots(Split(content, '\n'), false) <= 1 && BlockLines(Split(content, '\n'), name) == 0
  {
    hide Split, Contains, DefLines, Spots, BlockLines, Times, Missing, AddMissing, AnyDefines, VarName;
    var before := Split(content, '\n');
    assert VarName(name);
    NameNotEmpty(name);
    MissingSpec(content, envVars);
    MissingOnce(content, envVars, name);
    ContainsIffSplit(content, name);
    DefLinesPositive(before, name);
    SyncCount(content, envVars, name);
  }

  const TWO_BLOCKS: seq<string> := ["vars {", "}", "vars {", "}"]

  /** A file with two vars blocks gets an absent name in both. */
  lemma TwoBlocksDouble(name: string)
    requires VarName(name)
    ensures DefLines(Split(AddMissing(Join(TWO_BLOCKS, '\n'), [name]).0, '\n'), name) == 2
  {
    hide Split, Join, DefLines, AddMissing, Missing, TrimSpace, Defines, Spots, VarName, BlockLines, Contains;
    var content := Join(TWO_BLOCKS, '\n');
    SplitJoin(TWO_BLOCKS, '\n');
    TwoSpots();
    NothingDefined(name);
    NameNotEmpty(name);
    DefLinesPositive(TWO_BLOCKS, name);
    ContainsIffSplit(content, name);
    MissingOnce(content, [name], name);
    MissingSpec(content, [name]);
    SyncCount(content, [name], name);
  }

  lemma TwoSpots()
    ensures Spots(TWO_BLOCKS, false) == 2
  {
    hide TrimSpace, RewriteLine;
    BraceLines();
    var one, two, three := ["}"], ["vars {", "}"], ["}", "vars {", "}"];
    assert one[1..] == [] && two[1..] == one && three[1..] == two && TWO_BLOCKS[1..] == three;
    assert Spots(one, true) == 1;
    assert Spots(two, false) == 1;
    assert Spots(three, true) == 2;
  }

  lemma BraceLines()
    ensures RewriteLine("vars {", [], false) == LineStep(["vars {"], true, false)
    ensures RewriteLine("}", [], true) == LineStep(["}"], false, true)
  {
    hide TrimSpace;
    TrimBraces();
  }

  lemma NothingDefined(name: string)
    requires VarName(name)
    ensures DefLines(TWO_BLOCKS, name) == 0 && BlockLines(TWO_BLOCKS, name) == 0
  {
    hide TrimSpace, Defines, VarName, Inner;
    BracesDefineNothing(name);
    TrimBraces();
    var one, two, three := ["}"], ["vars {", "}"], ["}", "vars {", "}"];
    assert one[1..] == [] && two[1..] == one && three[1..] == two && TWO_BLOCKS[1..] == three;
    assert DefLines(one, name) == 0 && BlockLines(one, name) == 0;
    assert DefLines(two, name) == 0 && BlockLines(two, name) == 0;
    assert DefLines(three, name) == 0 && BlockLines(three, name) == 0;
  }

  function Block(name: string, value: string): string {
    "vars {" + (" " + (name + (":" + value)) + " ") + "}"
  }

  /** A file that is one block `vars { FOO: x }` comes back with two lines that define FOO. */
  lemma OneLineBlockDoubles(name: string, value: string)
    requires VarName(name) && '\n' !in value
    ensures DefLines(Split(AddMissing(Block(name, value), [name]).0, '\n'), name) == 2
  {
    hide Split, DefLines, AddMissing, Missing, TrimSpace, Defines, Spots, VarName, BlockLines, OneLine, Block, Contains;
    var line := Block(name, value);
    BlockShape(name, value);
    SplitOne(line, '\n');
    OneLineIsHeader(line);
    HeaderDefinesNothing(line, name);
    DefLinesOne(line, name);
    DefLinesPositive([line], name);
    NameNotEmpty(name);
    ContainsIffSplit(line, name);
    MissingOnce(line, [name], name);
    MissingSpec(line, [name]);
    OneBlock(line, name);
    OneSpot(line);
    SyncCount(line, [name], name);
  }

  lemma OneBlock(line: string, name: string)
    ensures BlockLines([line], name) == if BlockAssigns(line, name) then 1 else 0
  {
    hide BlockAssigns;
    assert [line][1..] == [];
  }

  lemma OneSpot(line: string)
    requires OneLine(TrimSpace(line))
    ensures Spots([line], false) == 1
  {
    hide TrimSpace, OneLine, Expanded;
    assert [line][1..] == [];
  }

  lemma BlockShape(name: string, value: string)
    requires VarName(name) && '\n' !in value
    ensures var line := Block(name, value);
      TrimSpace(line) == line && OneLine(line) && Defines(Inner(line), name) && '\n' !in line
  {
    hide TrimSpace, TrimLeft, TrimRight, VarName;
    var tail := ":" + value;
    var core := name + tail;
    var x := " " + core + " ";
    var line := "vars {" + x + "}";
    NameStarts(name);
    NameNotEmpty(name);
    PadFacts();
    BytesAtLeast(line);
    assert line[0] == 'v' && line[|line| - 1] == '}' && line[|line| - 1..] == "}" && line[..6] == "vars {";
    TrimSpaceFixed(line);
    assert OneLine(line) && Brace(line) == 5 && line[6..|line| - 1] == x;
    TrimSpaceBlank(" " + core, " ");
    assert core[0] == name[0] && tail[0] == ':';
    TrimSpaceFirst(" ", core);
    TrimRightKeeps(name, tail);
    assert Inner(line) == name + TrimRight(tail);
    PrefixThrough(name, TrimRight(tail));
  }

  lemma PrefixThrough(a: string, b: string)
    requires b != ""
    ensures a + [b[0]] <= a + b
  {
  }

  lemma {:induction false} BytesAtLeast(s: string)
    ensures Utf8Length(s) >= |s|
  {
    if s != "" {
      BytesAtLeast(s[1..]);
    }
  }

  // ---------- where an inserted name stands ----------

  /** After an opening line and before any closing one. */
  ghost predicate InBlock(lines: seq<string>, j: int) {
    exists i :: 0 <= i < j < |lines| && OpenBetween(lines, i, j)
  }

  ghost predicate OpenBetween(lines: seq<string>, i: int, j: int)
    requires 0 <= i < j <= |lines|
  {
    OpensVars(TrimSpace(lines[i])) && forall k :: i < k < j ==> TrimSpace(lines[k]) != "}"
  }

  ghost predicate Open(lines: seq<string>) {
    exists i :: 0 <= i < |lines| && OpenBetween(lines, i, |lines|)
  }

  ghost predicate Inside(lines: seq<string>, name: string) {
    exists j :: 0 <= j < |lines| && lines[j] == NewLine(name) && InBlock(lines, j)
  }

  /** No one-line block holds just a closing brace. */
  predicate NoStrayBrace(lines: seq<string>) {
    forall i :: 0 <= i < |lines| ==> OneLine(TrimSpace(lines[i])) ==> Inner(TrimSpace(lines[i])) != "}"
  }

  /** A block opened in `above`, some new lines, and anything after. */
  lemma InsideHere(above: seq<string>, missing: seq<string>, rest: seq<string>, name: string)
    requires Open(above) && VarNames(missing) && name in missing
    ensures Inside(above + NewLines(missing) + rest, name)
  {
    hide TrimSpace, OpensVars, NewLine, VarName;
    var i :| 0 <= i < |above| && OpenBetween(above, i, |above|);
    var n :| 0 <= n < |missing| && missing[n] == name;
    var lines, j := above + NewLines(missing) + rest, |above| + n;
    assert lines[j] == NewLines(missing)[n];
    forall k | i < k < j ensures TrimSpace(lines[k]) != "}" {
      if k < |above| {
        assert lines[k] == above[k];
      } else {
        assert lines[k] == NewLine(missing[k - |above|]);
        NewLineNoBrace(missing[k - |above|]);
      }
    }
    assert lines[i] == above[i];
    assert OpenBetween(lines, i, j);
  }

  lemma NewLineNoBrace(name: string)
    requires VarName(name)
    ensures TrimSpace(NewLine(name)) != "}"
  {
    hide TrimSpace, NewLine;
    NewLineTrims(name);
    assert (name + ":")[0] == name[0];
    NameStarts(name);
  }

  lemma OpenAfter(above: seq<string>, line: string)
    requires OpensVars(TrimSpace(line)) || (Open(above) && TrimSpace(line) != "}")
    ensures Open(above + [line])
  {
    hide TrimSpace, OpensVars;
    var lines := above + [line];
    assert lines[|above|] == line;
    if OpensVars(TrimSpace(line)) {
      assert OpenBetween(lines, |above|, |lines|);
    } else {
      var i :| 0 <= i < |above| && OpenBetween(above, i, |above|);
      assert lines[i] == above[i];
      forall k | i < k < |lines| ensures TrimSpace(lines[k]) != "}" {
        assert k < |above| ==> lines[k] == above[k];
      }
      assert OpenBetween(lines, i, |lines|);
    }
  }

  lemma {:induction false} RewriteInside(lines: seq<string>, missing: seq<string>, inVars: bool, above: seq<string>,
                                         name: string)
    requires VarNames(missing) && name in missing && NoStrayBrace(lines) && (inVars ==> Open(above))
    requires Rewrite(lines, missing, inVars).inserted
    ensures Inside(above + Rewrite(lines, missing, inVars).lines, name)
  {
    hide TrimSpace, OneLine, OpensVars, Inner, Open, Inside, VarName, NewLines;
    var line, trimmed := lines[0], TrimSpace(lines[0]);
    var here := RewriteLine(line, missing, inVars);
    var rest := Rewrite(lines[1..], missing, here.inVars).lines;
    if OneLine(trimmed) {
      var inner := Inner(trimmed);
      var mid := if inner != "" then ["  " + inner] else [];
      TrimBraces();
      OpensHere();
      OpenAfter(above, "vars {");
      TrimTwice(trimmed[Brace(trimmed) + 1..|trimmed| - 1]);
      InnerIsTrimmed(trimmed);
      if inner != "" {
        OpenAfter(above + ["vars {"], "  " + inner);
      } else {
        assert above + ["vars {"] + mid == above + ["vars {"];
      }
      InsideHere(above + ["vars {"] + mid, missing, ["}"] + rest, name);
      assert above + (here.out + rest) == above + ["vars {"] + mid + NewLines(missing) + (["}"] + rest);
    } else if !OpensVars(trimmed) && inVars && trimmed == "}" {
      InsideHere(above, missing, [line] + rest, name);
      assert above + (here.out + rest) == above + NewLines(missing) + ([line] + rest);
    } else {
      if OpensVars(trimmed) || inVars {
        OpenAfter(above, line);
      }
      RewriteInside(lines[1..], missing, here.inVars, above + [line], name);
      assert above + (here.out + rest) == above + [line] + rest;
    }
  }

  lemma OpensHere()
    ensures OpensVars("vars {")
  {
  }

  lemma InnerIsTrimmed(trimmed: string)
    requires OneLine(trimmed)
    ensures Inner(trimmed) == TrimSpace(trimmed[Brace(trimmed) + 1..|trimmed| - 1])
  {
  }

  /** An absent name is put inside a vars block: on a line of its own below one that opens a block,
      with no closing line in between; as long as no one-line block holds just a closing brace,
      which would close its expansion early. */
  lemma InsertedInside(content: string, envVars: seq<string>, name: string) returns (i: nat, j: nat)
    requires VarNames(envVars) && name in envVars && !Contains(content, name)
    requires NoStrayBrace(Split(content, '\n'))
    ensures var lines := Split(AddMissing(content, envVars).0, '\n');
      && Inside(lines, name) && i < j < |lines| && lines[j] == "  " + name + ": "
      && ("vars {" <= TrimSpace(lines[i]) || "vars{" <= TrimSpace(lines[i]))
      && forall k :: i < k < j ==> TrimSpace(lines[k]) != "}"
  {
    hide Split, Contains, Missing, AddMissing, Rewrite, VarName, Inside, Open, NoStrayBrace, NewLines, TrimSpace;
    var before, missing := Split(content, '\n'), Missing(content, envVars);
    MissingSpec(content, envVars);
    SyncLines(content, envVars);
    if Rewrite(before, missing, false).inserted {
      RewriteInside(before, missing, false, [], name);
      assert [] + Rewrite(before, missing, false).lines == Rewrite(before, missing, false).lines;
    } else {
      var kept := if before[|before| - 1] != "" then before else before[..|before| - 1];
      TrimBraces();
      OpensHere();
      OpenAfter(kept, "vars {");
      InsideHere(kept + ["vars {"], missing, ["}", ""], name);
      assert kept + FallbackLines(missing) == kept + ["vars {"] + NewLines(missing) + ["}", ""];
    }
    i, j := InsideAt(Split(AddMissing(content, envVars).0, '\n'), name);
  }

  lemma InsideAt(lines: seq<string>, name: string) returns (i: nat, j: nat)
    requires Inside(lines, name)
    ensures i < j < |lines| && lines[j] == "  " + name + ": "
    ensures "vars {" <= TrimSpace(lines[i]) || "vars{" <= TrimSpace(lines[i])
    ensures forall k :: i < k < j ==> TrimSpace(lines[k]) != "}"
  {
    hide TrimSpace;
    j :| 0 <= j < |lines| && lines[j] == NewLine(name) && InBlock(lines, j);
    i :| 0 <= i < j < |lines| && OpenBetween(lines, i, j);
  }
}
