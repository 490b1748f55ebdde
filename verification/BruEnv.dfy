/** Keeping environment files in step with the generated requests
    (framework/cmd/brunogen/generator/bru.go: containsEnvVar, addMissingEnvVars). */
module BruEnv {
  import opened Text
  import opened BruParams

  predicate Defines(trimmed: string, name: string) {
    name + ":" <= trimmed || name + " " <= trimmed || trimmed == name
  }

  predicate AnyDefines(lines: seq<string>, name: string) {
    exists i :: 0 <= i < |lines| && Defines(TrimSpace(lines[i]), name)
  }

  predicate Contains(content: string, name: string) {
    AnyDefines(ScanLines(content), name)
  }

  method ContainsEnvVar(content: string, name: string) returns (found: bool)
    ensures found <==> Contains(content, name)
  {
    hide Defines, TrimSpace, ScanLines;
    var lines := ScanLines(content);
    for i := 0 to |lines|
      invariant forall j :: 0 <= j < i ==> !Defines(TrimSpace(lines[j]), name)
    {
      if Defines(TrimSpace(lines[i]), name) {
        return true;
      }
    }
    found := false;
  }

  // ---------- rewriting ----------

  predicate OpensVars(trimmed: string) {
    "vars {" <= trimmed || "vars{" <= trimmed
  }

  /** A whole vars block on one line. */
  predicate OneLine(trimmed: string) {
    OpensVars(trimmed) && HasSuffix(trimmed, "}") && Utf8Length(trimmed) > 7
  }

  /** Where the block opens. */
  function Brace(trimmed: string): (i: nat)
    requires OneLine(trimmed)
    ensures i + 2 <= |trimmed| && trimmed[i] == '{' && '{' !in trimmed[..i]
  {
    assert trimmed[|trimmed| - 1] == '}';
    if "vars {" <= trimmed then
      assert trimmed[5] == '{' && trimmed[..5] == "vars ";
      5
    else
      assert trimmed[4] == '{' && trimmed[..4] == "vars";
      4
  }

  /** What stands between the braces of a one-line block. */
  function Inner(trimmed: string): string
    requires OneLine(trimmed)
  {
    TrimSpace(trimmed[Brace(trimmed) + 1..|trimmed| - 1])
  }

  function NewLine(name: string): string { "  " + name + ": " }

  function NewLines(names: seq<string>): (r: seq<string>)
    ensures |r| == |names| && forall i :: 0 <= i < |r| ==> r[i] == NewLine(names[i])
  {
    seq(|names|, i requires 0 <= i < |names| => NewLine(names[i]))
  }

  datatype Rewritten = Rewritten(lines: seq<string>, inserted: bool)

  /** One line's part: what it becomes, whether a vars block is open after it, whether the
      missing names went in here. */
  datatype LineStep = LineStep(out: seq<string>, inVars: bool, inserted: bool)

  function RewriteLine(line: string, missing: seq<string>, inVars: bool): LineStep {
    var trimmed := TrimSpace(line);
    if OneLine(trimmed) then LineStep(Expanded(trimmed, missing), inVars, true)
    else if OpensVars(trimmed) then LineStep([line], true, false)
    else if inVars && trimmed == "}" then LineStep(NewLines(missing) + [line], false, true)
    else LineStep([line], inVars, false)
  }

  /** The rewriting of the lines from a point on, given whether a vars block is open there. */
  function Rewrite(lines: seq<string>, missing: seq<string>, inVars: bool): Rewritten {
    if lines == [] then Rewritten([], false)
    else
      var here := RewriteLine(lines[0], missing, inVars);
      var rest := Rewrite(lines[1..], missing, here.inVars);
      Rewritten(here.out + rest.lines, here.inserted || rest.inserted)
  }

  function Expanded(trimmed: string, missing: seq<string>): seq<string>
    requires OneLine(trimmed)
  {
    var inner := Inner(trimmed);
    ["vars {"] + (if inner != "" then ["  " + inner] else []) + NewLines(missing) + ["}"]
  }

  function Missing(content: string, envVars: seq<string>): seq<string> {
    if envVars == [] then []
    else
      var front := Missing(content, envVars[..|envVars| - 1]);
      var v := envVars[|envVars| - 1];
      if Contains(content, v) then front else front + [v]
  }

  /** The block appended when no vars block took the new lines. */
  function FallbackLines(missing: seq<string>): seq<string> {
    ["vars {"] + NewLines(missing) + ["}", ""]
  }

  function AddMissing(content: string, envVars: seq<string>): (string, bool) {
    var missing := Missing(content, envVars);
    if missing == [] then (content, false)
    else
      var lines := Split(content, '\n');
      var result := Rewrite(lines, missing, false);
      if result.inserted then (Join(result.lines, '\n'), true)
      else
        (content + (if result.lines != [] && result.lines[|result.lines| - 1] != "" then "\n" else "")
          + Join(FallbackLines(missing), '\n'), true)
  }

  /** Its three results. */
  lemma ThreeResults(content: string, envVars: seq<string>)
    ensures var missing := Missing(content, envVars);
            var r := Rewrite(Split(content, '\n'), missing, false);
      AddMissing(content, envVars) ==
        if missing == [] then (content, false)
        else if r.inserted then (Join(r.lines, '\n'), true)
        else (content + (if r.lines != [] && r.lines[|r.lines| - 1] != "" then "\n" else "")
                + Join(FallbackLines(missing), '\n'), true)
  {
    hide Missing, Rewrite, Split, Join, FallbackLines, Contains;
  }

  method AddMissingEnvVars(content: string, envVars: seq<string>) returns (text: string, changed: bool)
    ensures (text, changed) == AddMissing(content, envVars)
  {
    hide TrimSpace, Split, Join, ScanLines, Rewrite, NewLines, FallbackLines;
    var missing := [];
    for i := 0 to |envVars|
      invariant missing == Missing(content, envVars[..i])
    {
      assert envVars[..i + 1][..i] == envVars[..i];
      var found := ContainsEnvVar(content, envVars[i]);
      if !found {
        missing := missing + [envVars[i]];
      }
    }
    assert envVars[..|envVars|] == envVars;
    if missing == [] {
      return content, false;
    }
    var result, inserted := RewriteLines(Split(content, '\n'), missing);
    if !inserted {
      var b := "";
      if result != [] && result[|result| - 1] != "" {
        b := "\n";
      }
      return content + b + Join(FallbackLines(missing), '\n'), true;
    }
    return Join(result, '\n'), true;
  }

  /** The loop over the lines, with its two flags. */
  method RewriteLines(lines: seq<string>, missing: seq<string>) returns (result: seq<string>, inserted: bool)
    ensures Rewritten(result, inserted) == Rewrite(lines, missing, false)
  {
    hide RewriteLine;
    result := [];
    inserted := false;
    var inVars := false;
    for i := 0 to |lines|
      invariant Rewrite(lines, missing, false).lines == result + Rewrite(lines[i..], missing, inVars).lines
      invariant Rewrite(lines, missing, false).inserted == (inserted || Rewrite(lines[i..], missing, inVars).inserted)
    {
      assert lines[i..][0] == lines[i] && lines[i..][1..] == lines[i + 1..];
      var step := RewriteOne(lines[i], missing, inVars);
      result := result + step.out;
      inVars := step.inVars;
      inserted := inserted || step.inserted;
    }
    assert lines[|lines|..] == [] && result + [] == result;
  }

  /** The loop body's branches. */
  method RewriteOne(line: string, missing: seq<string>, inVars: bool) returns (step: LineStep)
    ensures step == RewriteLine(line, missing, inVars)
  {
    hide TrimSpace, OneLine, OpensVars, Expanded, NewLines;
    var trimmed := TrimSpace(line);
    step := LineStep([line], inVars, false);
    if OneLine(trimmed) {
      step := LineStep(Expanded(trimmed, missing), inVars, true);
    } else if OpensVars(trimmed) {
      step := step.(inVars := true);
    } else if inVars && trimmed == "}" {
      step := LineStep(NewLines(missing) + [line], false, true);
    }
  }

  // ---------- scanning sees the split lines ----------

  lemma DefinesNothing(name: string)
    requires name != ""
    ensures !Defines(TrimSpace(""), name)
  {
  }

  /** For a nonempty name it makes no difference that the scanner drops a final empty line and
      carriage returns. */
  lemma ContainsIffSplit(content: string, name: string)
    requires name != ""
    ensures Contains(content, name) <==> AnyDefines(Split(content, '\n'), name)
  {
    hide Defines, TrimSpace, Split, DropCarriage;
    var parts := Split(content, '\n');
    var kept := if parts[|parts| - 1] == "" then parts[..|parts| - 1] else parts;
    var scanned := ScanLines(content);
    assert scanned == DropCarriages(kept);
    forall i | 0 <= i < |kept| ensures TrimSpace(scanned[i]) == TrimSpace(kept[i]) {
      TrimDropCarriage(kept[i]);
    }
    DefinesNothing(name);
    if AnyDefines(parts, name) {
      var i :| 0 <= i < |parts| && Defines(TrimSpace(parts[i]), name);
      assert i < |kept|;
      assert Defines(TrimSpace(scanned[i]), name);
    }
    if AnyDefines(scanned, name) {
      var i :| 0 <= i < |scanned| && Defines(TrimSpace(scanned[i]), name);
      assert parts[i] == kept[i];
    }
  }

  lemma AnyAppend(a: seq<string>, b: seq<string>, name: string)
    ensures AnyDefines(a + b, name) <==> AnyDefines(a, name) || AnyDefines(b, name)
  {
    hide Defines, TrimSpace;
    if AnyDefines(a, name) {
      var i :| 0 <= i < |a| && Defines(TrimSpace(a[i]), name);
      assert (a + b)[i] == a[i];
    }
    if AnyDefines(b, name) {
      var i :| 0 <= i < |b| && Defines(TrimSpace(b[i]), name);
      assert (a + b)[|a| + i] == b[i];
    }
    if AnyDefines(a + b, name) {
      var i :| 0 <= i < |a + b| && Defines(TrimSpace((a + b)[i]), name);
      if i < |a| {
        assert (a + b)[i] == a[i];
      } else {
        assert (a + b)[i] == b[i - |a|];
      }
    }
  }

  // ---------- the new lines define their names ----------

  lemma NameStarts(name: string)
    requires VarName(name)
    ensures !IsSpace(name[0]) && name[0] != 'v' && name[0] != '}' && '\n' !in name
  {
  }

  lemma NewLineDefines(name: string)
    requires VarName(name)
    ensures Defines(TrimSpace(NewLine(name)), name) && '\n' !in NewLine(name)
  {
    hide TrimSpace, TrimRight, TrimLeft, VarName, IsSpace;
    NameStarts(name);
    PadFacts();
    assert NewLine(name) == ("  " + (name + ":")) + " ";
    TrimSpaceBlank("  " + (name + ":"), " ");
    TrimSpaceFirst("  ", name + ":");
    TrimRightKeeps(name, ":");
    TrimRightFixed(":");
  }

  lemma PadFacts()
    ensures Blank("  ") && Blank(" ") && !IsSpace(':') && TrimRight(":") == ":"
  {
  }

  lemma NewLinesDefine(names: seq<string>, name: string)
    requires name in names && VarName(name)
    ensures AnyDefines(NewLines(names), name)
  {
    hide Defines, TrimSpace, NewLine;
    var i :| 0 <= i < |names| && names[i] == name;
    NewLineDefines(name);
    assert NewLines(names)[i] == NewLine(name);
  }

  /** A vars block header defines no variable name. */
  lemma HeaderDefinesNothing(trimmed: string, name: string)
    requires OpensVars(trimmed) && VarName(name)
    ensures !Defines(trimmed, name)
  {
    assert trimmed[0] == 'v';
    NameStarts(name);
    assert (name + ":")[0] == name[0] && (name + " ")[0] == name[0];
  }

  lemma LineDefines(line: string, missing: seq<string>, inVars: bool, name: string)
    requires VarName(name)
    ensures var here := RewriteLine(line, missing, inVars);
      && (AnyDefines([line], name) ==> AnyDefines(here.out, name))
      && (here.inserted && name in missing ==> AnyDefines(here.out, name))
  {
    hide Defines, TrimSpace, OneLine, OpensVars, Inner, VarName, AnyDefines, NewLines, Expanded;
    if name in missing {
      NewLinesDefine(missing, name);
    }
    if OneLine(TrimSpace(line)) {
      OneLineExpands(line, missing, name);
    }
    AnyAppend(NewLines(missing), [line], name);
  }

  /** Rewriting keeps every definition and, where it inserts, adds the missing ones. */
  lemma {:induction false} RewriteDefines(lines: seq<string>, missing: seq<string>, inVars: bool, name: string)
    requires VarName(name)
    ensures var r := Rewrite(lines, missing, inVars);
      && (AnyDefines(lines, name) ==> AnyDefines(r.lines, name))
      && (r.inserted && name in missing ==> AnyDefines(r.lines, name))
  {
    hide RewriteLine, VarName, AnyDefines;
    if lines != [] {
      var here := RewriteLine(lines[0], missing, inVars);
      assert lines == [lines[0]] + lines[1..];
      LineDefines(lines[0], missing, inVars, name);
      RewriteDefines(lines[1..], missing, here.inVars, name);
      AnyAppend([lines[0]], lines[1..], name);
      AnyAppend(here.out, Rewrite(lines[1..], missing, here.inVars).lines, name);
    }
  }

  lemma OneLineExpands(line: string, missing: seq<string>, name: string)
    requires OneLine(TrimSpace(line)) && VarName(name)
    ensures !AnyDefines([line], name)
    ensures AnyDefines(NewLines(missing), name) ==> AnyDefines(Expanded(TrimSpace(line), missing), name)
  {
    hide Defines, TrimSpace, Inner, VarName, NewLines;
    HeaderDefinesNothing(TrimSpace(line), name);
    assert [line][0] == line;
    var inner := Inner(TrimSpace(line));
    var before := ["vars {"] + (if inner != "" then ["  " + inner] else []);
    AnyAppend(before, NewLines(missing), name);
    AnyAppend(before + NewLines(missing), ["}"], name);
  }

  // ---------- no line of the result holds a newline ----------

  predicate OneLiners(lines: seq<string>) {
    forall i :: 0 <= i < |lines| ==> '\n' !in lines[i]
  }

  lemma InnerIsOneLine(line: string)
    requires OneLine(TrimSpace(line)) && '\n' !in line
    ensures '\n' !in "  " + Inner(TrimSpace(line))
  {
    hide TrimSpace, OneLine, Brace;
    SubstringOfTrim(line);
    var trimmed := TrimSpace(line);
    SubstringOfTrim(trimmed[Brace(trimmed) + 1..|trimmed| - 1]);
  }

  lemma SubstringOfTrim(s: string)
    ensures forall c :: c !in s ==> c !in TrimSpace(s)
  {
    hide IsSpace;
    var left := TrimLeft(s);
    assert forall c :: c in left ==> c in s;
  }

  lemma NewLinesOneLiners(missing: seq<string>)
    requires forall i :: 0 <= i < |missing| ==> VarName(missing[i])
    ensures OneLiners(NewLines(missing))
  {
    hide NewLine, VarName;
    forall i | 0 <= i < |missing| ensures '\n' !in NewLines(missing)[i] {
      NewLineDefines(missing[i]);
    }
  }

  lemma LineOneLiners(line: string, missing: seq<string>, inVars: bool)
    requires '\n' !in line && OneLiners(NewLines(missing))
    ensures OneLiners(RewriteLine(line, missing, inVars).out)
  {
    hide TrimSpace, OneLine, OpensVars, NewLines, Inner;
    if OneLine(TrimSpace(line)) {
      InnerIsOneLine(line);
    }
  }

  lemma {:induction false} RewriteOneLiners(lines: seq<string>, missing: seq<string>, inVars: bool)
    requires OneLiners(lines) && OneLiners(NewLines(missing))
    ensures OneLiners(Rewrite(lines, missing, inVars).lines)
  {
    hide RewriteLine, NewLines;
    if lines != [] {
      LineOneLiners(lines[0], missing, inVars);
      RewriteOneLiners(lines[1..], missing, RewriteLine(lines[0], missing, inVars).inVars);
    }
  }

  lemma {:induction false} RewriteNotEmpty(lines: seq<string>, missing: seq<string>, inVars: bool)
    requires lines != []
    ensures Rewrite(lines, missing, inVars).lines != []
  {
    hide TrimSpace, OneLine, OpensVars, NewLines;
  }

  // ---------- the main results ----------

  /** Lines that are whole vars blocks; the only ones a rewrite replaces. */
  function KeptLines(lines: seq<string>): seq<string> {
    if lines == [] then []
    else (if OneLine(TrimSpace(lines[0])) then [] else [lines[0]]) + KeptLines(lines[1..])
  }

  lemma LineKeeps(line: string, missing: seq<string>, inVars: bool)
    ensures Subsequence(if OneLine(TrimSpace(line)) then [] else [line], RewriteLine(line, missing, inVars).out)
  {
    hide TrimSpace, OneLine, OpensVars, Expanded, NewLines, Subsequence;
    SubsequenceRefl([line]);
    EmptySubsequence(RewriteLine(line, missing, inVars).out);
    EmptySubsequence(NewLines(missing));
    SubsequenceAppend([], NewLines(missing), [line], [line]);
    assert [] + [line] == [line];
  }

  lemma {:induction false} RewriteKeeps(lines: seq<string>, missing: seq<string>, inVars: bool)
    ensures Subsequence(KeptLines(lines), Rewrite(lines, missing, inVars).lines)
  {
    hide TrimSpace, OneLine, RewriteLine, Subsequence;
    if lines == [] {
      EmptySubsequence<string>([]);
    } else {
      var here := RewriteLine(lines[0], missing, inVars);
      LineKeeps(lines[0], missing, inVars);
      RewriteKeeps(lines[1..], missing, here.inVars);
      SubsequenceAppend(if OneLine(TrimSpace(lines[0])) then [] else [lines[0]], here.out,
                        KeptLines(lines[1..]), Rewrite(lines[1..], missing, here.inVars).lines);
    }
  }

  /** If nothing was inserted the lines are as they were. */
  lemma {:induction false} NothingInserted(lines: seq<string>, missing: seq<string>, inVars: bool)
    requires !Rewrite(lines, missing, inVars).inserted
    ensures Rewrite(lines, missing, inVars).lines == lines && KeptLines(lines) == lines
  {
    hide TrimSpace, OneLine, OpensVars, Expanded, NewLines;
    if lines != [] {
      NothingInserted(lines[1..], missing, RewriteLine(lines[0], missing, inVars).inVars);
    }
  }

  lemma {:induction false} MissingSpec(content: string, envVars: seq<string>)
    ensures forall v :: v in Missing(content, envVars) <==> v in envVars && !Contains(content, v)
  {
    hide Contains;
    if envVars != [] {
      MissingSpec(content, envVars[..|envVars| - 1]);
      assert envVars == envVars[..|envVars| - 1] + [envVars[|envVars| - 1]];
    }
  }

  predicate VarNames(envVars: seq<string>) {
    forall i :: 0 <= i < |envVars| ==> VarName(envVars[i])
  }

  /** The lines of the result, in each of its three forms. */
  lemma ResultLines(content: string, envVars: seq<string>) returns (lines: seq<string>)
    requires VarNames(envVars)
    ensures lines == Split(AddMissing(content, envVars).0, '\n')
    ensures Subsequence(KeptLines(Split(content, '\n')), lines)
    ensures forall v :: v in envVars ==> AnyDefines(lines, v)
  {
    hide Split, Join, AnyDefines, VarName, ScanLines, Rewrite, KeptLines, Contains, Subsequence, FallbackLines;
    var missing := Missing(content, envVars);
    MissingSpec(content, envVars);
    var before := Split(content, '\n');
    forall v | v in envVars ensures VarName(v) && (v in missing || AnyDefines(before, v)) {
      NameNotEmpty(v);
      ContainsIffSplit(content, v);
    }
    if missing == [] {
      lines := before;
      AllKept(before);
    } else {
      var r := Rewrite(before, missing, false);
      RewriteKeeps(before, missing, false);
      NewLinesOneLiners(missing);
      RewriteOneLiners(before, missing, false);
      RewriteNotEmpty(before, missing, false);
      if r.inserted {
        lines := r.lines;
        SplitJoin(lines, '\n');
        forall v | v in envVars ensures AnyDefines(lines, v) {
          RewriteDefines(before, missing, false, v);
        }
      } else {
        NothingInserted(before, missing, false);
        lines := FallbackResult(content, missing);
        SubsequenceKept(before, missing, lines);
        forall v | v in envVars ensures AnyDefines(lines, v) {
          FallbackDefines(before, missing, lines, v);
        }
      }
    }
  }

  lemma NameNotEmpty(v: string)
    requires VarName(v)
    ensures v != ""
  {
  }

  lemma {:induction false} AllKept(lines: seq<string>)
    ensures Subsequence(KeptLines(lines), lines)
  {
    hide TrimSpace, OneLine;
    if lines != [] {
      AllKept(lines[1..]);
      var first := if OneLine(TrimSpace(lines[0])) then [] else [lines[0]];
      SubsequenceRefl([lines[0]]);
      SubsequenceAppend(first, [lines[0]], KeptLines(lines[1..]), lines[1..]);
      assert [lines[0]] + lines[1..] == lines;
    }
  }

  /** The old lines, less a final empty one, then the appended block. */
  function WithFallback(before: seq<string>, missing: seq<string>): seq<string>
    requires before != []
  {
    (if before[|before| - 1] != "" then before else before[..|before| - 1]) + FallbackLines(missing)
  }

  lemma FallbackResult(content: string, missing: seq<string>) returns (lines: seq<string>)
    requires OneLiners(NewLines(missing))
    ensures var before := Split(content, '\n');
      && lines == WithFallback(before, missing)
      && lines == Split(content + (if before[|before| - 1] != "" then "\n" else "")
                        + Join(FallbackLines(missing), '\n'), '\n')
  {
    hide Split, Join, NewLines;
    var before := Split(content, '\n');
    var last := before[|before| - 1];
    var front := before[..|before| - 1];
    var block := FallbackLines(missing);
    lines := WithFallback(before, missing);
    JoinSplit(content, '\n');
    SplitJoin(lines, '\n');
    if last != "" {
      JoinAppend(before, block, '\n');
    } else if front == [] {
      assert before == [""] && lines == block;
      JoinOne("");
      assert content == "" && "" + "" + Join(block, '\n') == Join(block, '\n');
    } else {
      assert before == front + [""];
      JoinAppend(front, [""], '\n');
      JoinAppend(front, block, '\n');
      JoinOne("");
      var above := Join(front, '\n') + ['\n'];
      assert content == above + "" == above;
      assert content + "" + Join(block, '\n') == above + Join(block, '\n');
    }
  }

  lemma JoinOne(s: string)
    ensures Join([s], '\n') == s
  {
  }

  lemma SubsequenceKept(before: seq<string>, missing: seq<string>, lines: seq<string>)
    requires before != [] && KeptLines(before) == before && lines == WithFallback(before, missing)
    ensures Subsequence(KeptLines(before), lines)
  {
    hide Subsequence, KeptLines, NewLines;
    var last := [before[|before| - 1]];
    var front := before[..|before| - 1];
    var block := FallbackLines(missing);
    if last[0] != "" {
      SubsequenceRefl(before);
      EmptySubsequence(block);
      SubsequenceAppend(before, before, [], block);
      assert before + [] == before;
    } else {
      SubsequenceRefl(front);
      SubsequenceRefl([""]);
      EmptySubsequence(block[..|block| - 1]);
      SubsequenceAppend([], block[..|block| - 1], [""], [""]);
      assert block == block[..|block| - 1] + [""] && [] + [""] == [""];
      SubsequenceAppend(front, front, [""], block);
      assert before == front + [""];
    }
  }

  lemma EmptySubsequence<T(!new)>(b: seq<T>)
    ensures Subsequence([], b)
  {
  }

  lemma FallbackDefines(before: seq<string>, missing: seq<string>, lines: seq<string>, name: string)
    requires before != [] && lines == WithFallback(before, missing) && VarName(name)
    requires name in missing || AnyDefines(before, name)
    ensures AnyDefines(lines, name)
  {
    hide AnyDefines, NewLines, VarName;
    var block := FallbackLines(missing);
    var kept := if before[|before| - 1] != "" then before else before[..|before| - 1];
    AnyAppend(kept, block, name);
    if name in missing {
      NewLinesDefine(missing, name);
      AnyAppend(["vars {"], NewLines(missing), name);
      AnyAppend(["vars {"] + NewLines(missing), ["}", ""], name);
    } else if before[|before| - 1] == "" {
      assert before == kept + [""];
      AnyAppend(kept, [""], name);
      EmptyLineDefinesNothing(name);
    }
  }

  lemma EmptyLineDefinesNothing(name: string)
    requires VarName(name)
    ensures !AnyDefines([""], name)
  {
    DefinesNothing(name);
  }

  /** After a run every requested name is present, a second run changes nothing, and every line
      but one-line vars blocks survives, in order. */
  lemma SyncCompletes(content: string, envVars: seq<string>)
    requires VarNames(envVars)
    ensures var (text, _) := AddMissing(content, envVars);
      && (forall v :: v in envVars ==> Contains(text, v))
      && AddMissing(text, envVars) == (text, false)
      && Subsequence(KeptLines(Split(content, '\n')), Split(text, '\n'))
  {
    hide Split, AnyDefines, Subsequence, KeptLines, Rewrite, Contains, Join, VarName;
    var text := AddMissing(content, envVars).0;
    var lines := ResultLines(content, envVars);
    forall v | v in envVars ensures Contains(text, v) {
      NameNotEmpty(v);
      ContainsIffSplit(text, v);
    }
    MissingSpec(text, envVars);
    if Missing(text, envVars) != [] {
      assert Missing(text, envVars)[0] in Missing(text, envVars);
    }
  }

  /** The text is reported changed exactly when some requested name was absent. */
  lemma ChangedIffMissing(content: string, envVars: seq<string>)
    ensures AddMissing(content, envVars).1 <==> exists v :: v in envVars && !Contains(content, v)
    ensures !AddMissing(content, envVars).1 ==> AddMissing(content, envVars).0 == content
  {
    hide Contains, Split, Join, Rewrite;
    MissingSpec(content, envVars);
    var missing := Missing(content, envVars);
    if missing != [] {
      assert missing[0] in missing;
    }
  }
}
