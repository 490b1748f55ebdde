/** The string operations pinned to what they stand for: white space by code point, letter pairs,
    byte counts, order, and the lines a scanner yields. */
module TextFacts {
  import opened Text

  /** The white space of unicode.IsSpace, by code point. */
  lemma SpacesByCodePoint(c: char)
    ensures IsSpace(c) <==> c as int in {9, 10, 11, 12, 13, 32, 133, 160, 5760,
                                        8192, 8193, 8194, 8195, 8196, 8197, 8198, 8199, 8200, 8201, 8202,
                                        8232, 8233, 8239, 8287, 12288}
  {
  }

  /** Trimming removes exactly the white space around a text. */
  lemma TrimRemoves(pad: string, core: string, tail: string)
    requires Blank(pad) && Blank(tail) && (core == "" || (!IsSpace(core[0]) && !IsSpace(core[|core| - 1])))
    ensures TrimSpace(pad + core + tail) == core
  {
    hide IsSpace;
    TrimSpaceBlank(pad + core, tail);
    if core == "" {
      assert pad + core == pad;
      TrimSpaceBlank("", pad);
      assert "" + pad == pad;
      TrimNone();
    } else {
      TrimSpaceFirst(pad, core);
      TrimRightFixed(core);
    }
  }

  lemma TrimNone()
    ensures TrimSpace("") == ""
  {
  }

  // ---------- letters ----------

  const UPPER := "ABCDEFGHIJKLMNOPQRSTUVWXYZ"
  const LOWER := "abcdefghijklmnopqrstuvwxyz"

  lemma LetterAt(i: nat)
    requires i < 26
    ensures UPPER[i] as int == 65 + i && LOWER[i] as int == 97 + i
  {
  }

  lemma LetterPairs(i: nat)
    requires i < 26
    ensures LowerChar(UPPER[i]) == LOWER[i] && UpperChar(LOWER[i]) == UPPER[i]
    ensures LowerChar(LOWER[i]) == LOWER[i] && UpperChar(UPPER[i]) == UPPER[i]
  {
    LetterAt(i);
  }

  lemma OthersKeepCase(c: char)
    requires c !in UPPER && c !in LOWER
    ensures LowerChar(c) == c && UpperChar(c) == c
  {
    LettersAre(c);
  }

  lemma LettersAre(c: char)
    ensures 'A' <= c <= 'Z' ==> c in UPPER
    ensures 'a' <= c <= 'z' ==> c in LOWER
  {
    if 'A' <= c <= 'Z' {
      LetterAt(c as int - 65);
    }
    if 'a' <= c <= 'z' {
      LetterAt(c as int - 97);
    }
  }

  lemma LettersIff(c: char)
    ensures c in UPPER <==> 'A' <= c <= 'Z'
    ensures c in LOWER <==> 'a' <= c <= 'z'
  {
    LettersAre(c);
    if i :| 0 <= i < 26 && UPPER[i] == c {
      LetterAt(i);
    }
    if i :| 0 <= i < 26 && LOWER[i] == c {
      LetterAt(i);
    }
  }

  /** Equal up to case: same length, and at each position the same character once lowered. */
  lemma EqualFoldIff(s: string, t: string)
    ensures EqualFold(s, t) <==> |s| == |t| && forall i :: 0 <= i < |s| ==> LowerChar(s[i]) == LowerChar(t[i])
  {
    var a, b := ToLower(s), ToLower(t);
    if |s| == |t| && forall i :: 0 <= i < |s| ==> LowerChar(s[i]) == LowerChar(t[i]) {
      assert forall i :: 0 <= i < |a| ==> a[i] == b[i];
    }
    if a == b {
      assert forall i :: 0 <= i < |s| ==> a[i] == b[i];
    }
  }

  // ---------- bytes ----------

  lemma {:induction false} BytesAdd(s: string, t: string)
    ensures Utf8Length(s + t) == Utf8Length(s) + Utf8Length(t)
  {
    if s == "" {
      assert s + t == t;
    } else {
      assert (s + t)[1..] == s[1..] + t;
      BytesAdd(s[1..], t);
    }
  }

  lemma BytesOfOne(c: char)
    ensures Utf8Length("") == 0
    ensures Utf8Length([c]) ==
      if c as int <= 127 then 1 else if c as int <= 2047 then 2 else if c as int <= 65535 then 3 else 4
  {
    assert [c][1..] == "";
  }

  // ---------- order ----------

  /** A proper prefix comes first. */
  lemma {:induction false} PrefixComesFirst(front: string, x: string)
    ensures AtMost(front, front + x)
    ensures x != "" ==> !AtMost(front + x, front)
  {
    if front == "" {
      assert "" + x == x;
    } else {
      PrefixComesFirst(front[1..], x);
      assert (front + x)[1..] == front[1..] + x;
    }
  }

  /** Otherwise the first difference decides. */
  lemma {:induction false} FirstDifferenceDecides(front: string, c: char, x: string, d: char, y: string)
    requires c < d
    ensures AtMost(front + [c] + x, front + [d] + y) && !AtMost(front + [d] + y, front + [c] + x)
  {
    var s, t := front + [c] + x, front + [d] + y;
    if front == "" {
      assert s[0] == c && t[0] == d;
    } else {
      FirstDifferenceDecides(front[1..], c, x, d, y);
      assert s[1..] == front[1..] + [c] + x && t[1..] == front[1..] + [d] + y;
    }
  }

  lemma {:induction false} AtMostTransitive(s: string, t: string, u: string)
    requires AtMost(s, t) && AtMost(t, u)
    ensures AtMost(s, u)
  {
    if s != "" && s[0] == t[0] == u[0] {
      AtMostTransitive(s[1..], t[1..], u[1..]);
    }
  }

  /** In increasing strings none comes before an earlier one. */
  lemma {:induction false} InOrder(strings: seq<string>, i: nat, j: nat)
    requires Increasing(strings) && i < j < |strings|
    ensures AtMost(strings[i], strings[j])
  {
    if i > 0 {
      InOrder(strings[1..], i - 1, j - 1);
    } else if j > 1 {
      InOrder(strings[1..], 0, j - 1);
      AtMostTransitive(strings[0], strings[1], strings[j]);
    }
  }

  // ---------- lines ----------

  /** The scanner yields the lines of a text, with or without a newline after the last, and takes
      one carriage return off the end of each. */
  lemma ScannedLines(lines: seq<string>, returned: seq<bool>)
    requires lines != [] && |returned| == |lines|
    requires forall i :: 0 <= i < |lines| ==> '\n' !in lines[i] && (lines[i] == "" || lines[i][|lines[i]| - 1] != '\r')
    ensures ScanLines(Join(Raw(lines, returned), '\n') + "\n") == lines
    ensures Raw(lines, returned)[|lines| - 1] != "" ==> ScanLines(Join(Raw(lines, returned), '\n')) == lines
  {
    hide Split, Join, Raw;
    var raw := Raw(lines, returned);
    RawDrops(lines, returned);
    SplitJoin(raw, '\n');
    SplitJoin(raw + [""], '\n');
    JoinAppend(raw, [""], '\n');
    JoinEmpty();
    assert Join(raw, '\n') + ['\n'] + "" == Join(raw, '\n') + "\n";
    assert (raw + [""])[..|raw|] == raw;
  }

  /** Lines as written, some with a carriage return. */
  function Raw(lines: seq<string>, returned: seq<bool>): (raw: seq<string>)
    requires |returned| == |lines|
    ensures |raw| == |lines|
  {
    seq(|lines|, i requires 0 <= i < |lines| => lines[i] + (if returned[i] then "\r" else ""))
  }

  lemma JoinEmpty()
    ensures Join([""], '\n') == ""
  {
  }

  lemma RawDrops(lines: seq<string>, returned: seq<bool>)
    requires |returned| == |lines|
    requires forall i :: 0 <= i < |lines| ==> '\n' !in lines[i] && (lines[i] == "" || lines[i][|lines[i]| - 1] != '\r')
    ensures DropCarriages(Raw(lines, returned)) == lines
    ensures forall i :: 0 <= i < |lines| ==> '\n' !in Raw(lines, returned)[i]
  {
    var raw := Raw(lines, returned);
    forall i | 0 <= i < |raw| ensures DropCarriage(raw[i]) == lines[i] && '\n' !in raw[i] {
      if returned[i] {
        assert raw[i][..|raw[i]| - 1] == lines[i] && raw[i][|raw[i]| - 1] == '\r';
      }
    }
  }
}
