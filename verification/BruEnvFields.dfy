/** The text the environment editor writes (framework/cmd/brunogen/generator/bru.go:
    addMissingEnvVars), stated on whole lines. */
module BruEnvFields {
  import opened Text
  import opened TextFacts
  import opened BruEnv

  /** A line of its own for each name. */
  function Added(names: seq<string>): seq<string> {
    seq(|names|, i requires 0 <= i < |names| => "  " + names[i] + ": ")
  }

  lemma AddedAre(names: seq<string>)
    ensures NewLines(names) == Added(names)
  {
  }

  // ---------- one line ----------

  /** A whole block on one line, its content already trimmed, becomes several lines; a text counts
      as a whole block only from eight bytes on. */
  lemma WholeBlock(pad: string, open: string, left: string, inner: string, right: string, tail: string,
                   missing: seq<string>, inVars: bool)
    requires Blank(pad) && Blank(left) && Blank(right) && Blank(tail)
    requires inner == "" || (!IsSpace(inner[0]) && !IsSpace(inner[|inner| - 1]))
    requires open in {"vars {", "vars{"}
    ensures var line := pad + (open + left + inner + right + "}") + tail;
      RewriteLine(line, missing, inVars) ==
        if Utf8Length(open + left + inner + right + "}") >= 8 then
          LineStep((if inner == "" then ["vars {"] else ["vars {", "  " + inner]) + Added(missing) + ["}"],
                   inVars, true)
        else LineStep([line], true, false)
  {
    hide TrimSpace, IsSpace, Utf8Length;
    var whole := open + left + inner + right + "}";
    BracesAreNoSpaces();
    TrimRemoves(pad, whole, tail);
    assert whole == open + (left + inner + right) + "}";
    assert open <= whole && HasSuffix(whole, "}");
    if OneLine(whole) {
      assert Brace(whole) == |open| - 1 by {
        assert whole[|open| - 1] == '{';
      }
      assert whole[|open|..|whole| - 1] == left + inner + right;
      TrimRemoves(left, inner, right);
      AddedAre(missing);
      if inner != "" {
        assert ["vars {"] + ["  " + inner] == ["vars {", "  " + inner];
      }
    }
  }

  lemma BracesAreNoSpaces()
    ensures !IsSpace('v') && !IsSpace('}')
  {
  }

  // ---------- whole files ----------

  predicate BeginsBlock(line: string) {
    "vars {" <= TrimSpace(line) || "vars{" <= TrimSpace(line)
  }

  predicate NoBlocks(lines: seq<string>) {
    forall i :: 0 <= i < |lines| ==> !BeginsBlock(lines[i])
  }

  predicate NoCloses(lines: seq<string>) {
    forall i :: 0 <= i < |lines| ==> TrimSpace(lines[i]) != "}"
  }

  lemma {:induction false} AllMissing(content: string, envVars: seq<string>)
    requires forall i :: 0 <= i < |envVars| ==> !Contains(content, envVars[i])
    ensures Missing(content, envVars) == envVars
  {
    hide Contains;
    if envVars != [] {
      AllMissing(content, envVars[..|envVars| - 1]);
      assert envVars == envVars[..|envVars| - 1] + [envVars[|envVars| - 1]];
    }
  }

  lemma {:induction false} OutsideKept(lines: seq<string>, missing: seq<string>)
    requires NoBlocks(lines)
    ensures Rewrite(lines, missing, false) == Rewritten(lines, false)
  {
    hide TrimSpace;
    if lines != [] {
      assert !BeginsBlock(lines[0]);
      assert forall i :: 0 <= i < |lines[1..]| ==> lines[1..][i] == lines[i + 1];
      OutsideKept(lines[1..], missing);
      assert [lines[0]] + lines[1..] == lines;
    }
  }

  /** Before a closing brace the names go in, once. */
  lemma {:induction false} InsideGets(mid: seq<string>, close: string, back: seq<string>, missing: seq<string>)
    requires NoBlocks(mid) && NoCloses(mid) && NoBlocks(back) && TrimSpace(close) == "}"
    ensures Rewrite(mid + [close] + back, missing, true) == Rewritten(mid + Added(missing) + [close] + back, true)
  {
    hide TrimSpace;
    var lines := mid + [close] + back;
    if mid == [] {
      assert lines[0] == close && lines[1..] == back;
      AddedAre(missing);
      OutsideKept(back, missing);
      assert mid + Added(missing) + [close] == Added(missing) + [close];
    } else {
      assert !BeginsBlock(mid[0]) && lines[0] == mid[0] && lines[1..] == mid[1..] + [close] + back;
      assert forall i :: 0 <= i < |mid[1..]| ==> mid[1..][i] == mid[i + 1];
      InsideGets(mid[1..], close, back, missing);
      assert [mid[0]] + (mid[1..] + Added(missing) + [close] + back) == mid + Added(missing) + [close] + back;
    }
  }

  lemma {:induction false} BlockRewritten(front: seq<string>, open: string, mid: seq<string>, close: string,
                                          back: seq<string>, missing: seq<string>)
    requires NoBlocks(front) && NoBlocks(mid) && NoBlocks(back) && NoCloses(mid)
    requires BeginsBlock(open) && !HasSuffix(TrimSpace(open), "}") && TrimSpace(close) == "}"
    ensures Rewrite(front + [open] + mid + [close] + back, missing, false)
         == Rewritten(front + [open] + mid + Added(missing) + [close] + back, true)
  {
    hide TrimSpace;
    var lines := front + [open] + mid + [close] + back;
    var result := front + [open] + mid + Added(missing) + [close] + back;
    if front == [] {
      assert lines[0] == open && lines[1..] == mid + [close] + back;
      InsideGets(mid, close, back, missing);
      assert [open] + (mid + Added(missing) + [close] + back) == result;
    } else {
      assert !BeginsBlock(front[0]) && lines[0] == front[0];
      assert lines[1..] == front[1..] + [open] + mid + [close] + back;
      assert forall i :: 0 <= i < |front[1..]| ==> front[1..][i] == front[i + 1];
      BlockRewritten(front[1..], open, mid, close, back, missing);
      assert [front[0]] + (front[1..] + [open] + mid + Added(missing) + [close] + back) == result;
    }
  }

  /** A file with one block gets the absent names as lines right before its closing brace; every
      other line stays where it is. */
  lemma BlockGetsNames(content: string, envVars: seq<string>, front: seq<string>, open: string, mid: seq<string>,
                       close: string, back: seq<string>)
    requires Split(content, '\n') == front + [open] + mid + [close] + back
    requires NoBlocks(front) && NoBlocks(mid) && NoBlocks(back) && NoCloses(mid)
    requires BeginsBlock(open) && !HasSuffix(TrimSpace(open), "}") && TrimSpace(close) == "}"
    requires envVars != [] && forall i :: 0 <= i < |envVars| ==> !Contains(content, envVars[i])
    ensures AddMissing(content, envVars)
         == (Join(front + [open] + mid + Added(envVars) + [close] + back, '\n'), true)
  {
    hide Contains, Rewrite, Split, Join, NoBlocks, NoCloses, BeginsBlock, TrimSpace;
    AllMissing(content, envVars);
    BlockRewritten(front, open, mid, close, back, envVars);
  }

  lemma {:induction false} LastPart(content: string, sep: char)
    ensures var parts := Split(content, sep);
      parts[|parts| - 1] == "" <==> content == "" || content[|content| - 1] == sep
  {
    if content != "" {
      LastPart(content[1..], sep);
      var rest := Split(content[1..], sep);
      if content[0] != sep && |rest| > 1 {
        assert ([[content[0]] + rest[0]] + rest[1..])[|rest| - 1] == rest[|rest| - 1];
      }
      if content[0] != sep && |rest| == 1 {
        assert content[1..] == "" || content[1..][|content| - 2] != sep;
      }
    }
  }

  function WholeNewBlock(names: seq<string>): seq<string> {
    ["vars {"] + Added(names) + ["}", ""]
  }

  lemma BlockLines(names: seq<string>)
    ensures FallbackLines(names) == WholeNewBlock(names)
  {
    hide Added, NewLines;
    AddedAre(names);
  }

  /** A file without a block gets one at its end, after a newline of its own if need be. */
  lemma FileGetsBlock(content: string, envVars: seq<string>)
    requires NoBlocks(Split(content, '\n'))
    requires envVars != [] && forall i :: 0 <= i < |envVars| ==> !Contains(content, envVars[i])
    ensures AddMissing(content, envVars)
         == (content + (if content == "" || content[|content| - 1] == '\n' then "" else "\n")
               + Join(WholeNewBlock(envVars), '\n'), true)
  {
    hide AddMissing, Contains, Rewrite, Split, Join, NoBlocks, Missing, FallbackLines, WholeNewBlock;
    LastPart(content, '\n');
    AllMissing(content, envVars);
    OutsideKept(Split(content, '\n'), envVars);
    ThreeResults(content, envVars);
    BlockLines(envVars);
  }

  lemma DefinesIff(t: string, name: string)
    ensures Defines(t, name) <==>
      t == name || (|t| > |name| && t[..|name|] == name && t[|name|] in {':', ' '})
  {
    if |t| > |name| && t[..|name|] == name && t[|name|] in {':', ' '} {
      assert t[..|name| + 1] == name + [t[|name|]];
    }
    if name + ":" <= t {
      assert t[..|name|] == (name + ":")[..|name|] == name && t[|name|] == (name + ":")[|name|] == ':';
    }
    if name + " " <= t {
      assert t[..|name|] == (name + " ")[..|name|] == name && t[|name|] == (name + " ")[|name|] == ' ';
    }
  }

  /** A name counts as present exactly when some line, white space aside, is the name or goes on
      after it with a colon or a space. */
  lemma PresentIff(content: string, name: string)
    ensures Contains(content, name) <==>
      exists i :: 0 <= i < |ScanLines(content)| &&
        var t := TrimSpace(ScanLines(content)[i]);
        t == name || (|t| > |name| && t[..|name|] == name && t[|name|] in {':', ' '})
  {
    hide TrimSpace, ScanLines, Defines;
    var lines := ScanLines(content);
    forall i | 0 <= i < |lines|
      ensures Defines(TrimSpace(lines[i]), name) <==>
        var t := TrimSpace(lines[i]);
        t == name || (|t| > |name| && t[..|name|] == name && t[|name|] in {':', ' '})
    {
      DefinesIff(TrimSpace(lines[i]), name);
    }
  }
}
