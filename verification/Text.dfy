/** The string operations the generators rely on, over sequences of code points. */
module Text {
  /** White space as unicode.IsSpace defines it. */
  predicate IsSpace(c: char) {
    || '\t' <= c <= '\r' || c == ' ' || c == '\U{85}' || c == '\U{A0}' || c == '\U{1680}'
    || '\U{2000}' <= c <= '\U{200A}' || c == '\U{2028}' || c == '\U{2029}' || c == '\U{202F}'
    || c == '\U{205F}' || c == '\U{3000}'
  }

  function TrimLeft(s: string): (r: string)
    ensures r != "" ==> !IsSpace(r[0])
    ensures |r| <= |s| && r == s[|s| - |r|..]
  {
    if s != "" && IsSpace(s[0]) then TrimLeft(s[1..]) else s
  }

  function TrimRight(s: string): (r: string)
    ensures r != "" ==> !IsSpace(r[|r| - 1])
    ensures r <= s
  {
    if s != "" && IsSpace(s[|s| - 1]) then TrimRight(s[..|s| - 1]) else s
  }

  function TrimSpace(s: string): string {
    TrimRight(TrimLeft(s))
  }

  predicate HasSuffix(s: string, suffix: string) {
    |s| >= |suffix| && s[|s| - |suffix|..] == suffix
  }

  predicate Blank(s: string) {
    forall i :: 0 <= i < |s| ==> IsSpace(s[i])
  }

  lemma {:induction false} TrimLeftSkips(pad: string, core: string)
    requires Blank(pad)
    ensures TrimLeft(pad + core) == TrimLeft(core)
  {
    if pad == "" {
      assert pad + core == core;
    } else {
      assert (pad + core)[0] == pad[0] && (pad + core)[1..] == pad[1..] + core;
      TrimLeftSkips(pad[1..], core);
    }
  }

  /** Trimming on the right stops at the first character that is no space. */
  lemma {:induction false} TrimRightKeeps(s: string, t: string)
    requires t != "" && !IsSpace(t[0])
    ensures TrimRight(s + t) == s + TrimRight(t) && TrimRight(t) != "" && TrimRight(t)[0] == t[0]
    decreases |t|
  {
    if IsSpace(t[|t| - 1]) {
      assert (s + t)[..|s + t| - 1] == s + t[..|t| - 1];
      TrimRightKeeps(s, t[..|t| - 1]);
    }
  }

  lemma TrimRightFixed(s: string)
    requires s != "" && !IsSpace(s[|s| - 1])
    ensures TrimRight(s) == s
  {
  }

  lemma TrimSpaceFixed(s: string)
    requires s != "" && !IsSpace(s[0]) && !IsSpace(s[|s| - 1])
    ensures TrimSpace(s) == s
  {
  }

  lemma {:induction false} TrimRightBlank(s: string, pad: string)
    requires Blank(pad)
    ensures TrimRight(s + pad) == TrimRight(s)
    decreases |pad|
  {
    if pad == "" {
      assert s + pad == s;
    } else {
      assert (s + pad)[..|s + pad| - 1] == s + pad[..|pad| - 1];
      TrimRightBlank(s, pad[..|pad| - 1]);
    }
  }

  lemma {:induction false} TrimLeftBlank(s: string, pad: string)
    requires Blank(pad)
    ensures TrimLeft(s + pad) == TrimLeft(s) + pad || (Blank(s) && TrimLeft(s + pad) == TrimLeft(s) == "")
    decreases |s|
  {
    if s == "" {
      assert s + pad == pad && pad == pad + "";
      TrimLeftSkips(pad, "");
    } else if IsSpace(s[0]) {
      assert (s + pad)[1..] == s[1..] + pad;
      TrimLeftBlank(s[1..], pad);
    }
  }

  lemma TrimSpaceBlank(s: string, pad: string)
    requires Blank(pad)
    ensures TrimSpace(s + pad) == TrimSpace(s)
  {
    TrimLeftBlank(s, pad);
    TrimRightBlank(TrimLeft(s), pad);
  }

  /** What follows leading white space keeps its first character through trimming. */
  lemma TrimSpaceFirst(pad: string, core: string)
    requires Blank(pad) && core != "" && !IsSpace(core[0])
    ensures TrimSpace(pad + core) == TrimRight(core) != "" && TrimRight(core)[0] == core[0]
  {
    TrimLeftSkips(pad, core);
    TrimRightKeeps("", core);
  }

  /** Bytes in UTF-8, which is what a source string's length counts. */
  function Utf8Length(s: string): nat {
    if s == "" then 0
    else
      var c := s[0];
      (if c < '\U{80}' then 1 else if c < '\U{800}' then 2 else if c < '\U{10000}' then 3 else 4) + Utf8Length(s[1..])
  }

  // ---------- letter case (ASCII) ----------

  function LowerChar(c: char): char { if 'A' <= c <= 'Z' then c - 'A' + 'a' else c }
  function UpperChar(c: char): char { if 'a' <= c <= 'z' then c - 'a' + 'A' else c }

  function ToLower(s: string): (r: string)
    ensures |r| == |s| && forall i :: 0 <= i < |s| ==> r[i] == LowerChar(s[i])
  {
    seq(|s|, i requires 0 <= i < |s| => LowerChar(s[i]))
  }

  function ToUpper(s: string): (r: string)
    ensures |r| == |s| && forall i :: 0 <= i < |s| ==> r[i] == UpperChar(s[i])
  {
    seq(|s|, i requires 0 <= i < |s| => UpperChar(s[i]))
  }

  predicate EqualFold(s: string, t: string) {
    ToLower(s) == ToLower(t)
  }

  // ---------- order ----------

  /** Code point order, which is also the order of the UTF-8 bytes. */
  predicate AtMost(s: string, t: string) {
    s == "" || (t != "" && (s[0] < t[0] || (s[0] == t[0] && AtMost(s[1..], t[1..]))))
  }

  lemma {:induction false} AtMostTotal(s: string, t: string)
    ensures AtMost(s, t) || AtMost(t, s)
  {
    if s != "" && t != "" {
      AtMostTotal(s[1..], t[1..]);
    }
  }

  function Insert(x: string, sorted: seq<string>): seq<string> {
    if sorted == [] || AtMost(x, sorted[0]) then [x] + sorted else [sorted[0]] + Insert(x, sorted[1..])
  }

  /** The strings in increasing order. */
  function Sort(strings: seq<string>): seq<string> {
    if strings == [] then [] else Insert(strings[0], Sort(strings[1..]))
  }

  predicate Increasing(strings: seq<string>) {
    |strings| <= 1 || (AtMost(strings[0], strings[1]) && Increasing(strings[1..]))
  }

  lemma {:induction false} InsertSpec(x: string, sorted: seq<string>)
    requires Increasing(sorted)
    ensures Increasing(Insert(x, sorted)) && multiset(Insert(x, sorted)) == multiset([x] + sorted)
    ensures Insert(x, sorted)[0] == if sorted == [] || AtMost(x, sorted[0]) then x else sorted[0]
  {
    hide AtMost;
    if sorted == [] || AtMost(x, sorted[0]) {
      assert ([x] + sorted)[1..] == sorted;
    } else {
      var first, rest := sorted[0], sorted[1..];
      InsertSpec(x, rest);
      AtMostTotal(x, first);
      var tail := Insert(x, rest);
      assert ([first] + tail)[1..] == tail;
      assert sorted == [first] + rest;
      assert multiset([x] + sorted) == multiset{x} + multiset{first} + multiset(rest);
    }
  }

  lemma {:induction false} SortSpec(strings: seq<string>)
    ensures Increasing(Sort(strings)) && multiset(Sort(strings)) == multiset(strings)
  {
    if strings != [] {
      SortSpec(strings[1..]);
      InsertSpec(strings[0], Sort(strings[1..]));
      assert strings == [strings[0]] + strings[1..];
    }
  }

  // ---------- lines ----------

  function Split(s: string, sep: char): (parts: seq<string>)
    ensures |parts| >= 1
    ensures forall i :: 0 <= i < |parts| ==> sep !in parts[i]
  {
    if s == "" then [""]
    else
      var rest := Split(s[1..], sep);
      if s[0] == sep then [""] + rest else [[s[0]] + rest[0]] + rest[1..]
  }

  function Join(parts: seq<string>, sep: char): string {
    if parts == [] then ""
    else if |parts| == 1 then parts[0]
    else parts[0] + [sep] + Join(parts[1..], sep)
  }

  lemma {:induction false} SplitOne(a: string, sep: char)
    requires sep !in a
    ensures Split(a, sep) == [a]
  {
    if a != "" {
      SplitOne(a[1..], sep);
      assert [a[0]] + a[1..] == a;
    }
  }

  /** The first separator ends the first part. */
  lemma {:induction false} SplitCons(a: string, b: string, sep: char)
    requires sep !in a
    ensures Split(a + [sep] + b, sep) == [a] + Split(b, sep)
  {
    var s := a + [sep] + b;
    if a == "" {
      assert s[1..] == b;
    } else {
      assert s[1..] == a[1..] + [sep] + b;
      SplitCons(a[1..], b, sep);
      assert [a[0]] + a[1..] == a;
      assert ([a[1..]] + Split(b, sep))[1..] == Split(b, sep);
    }
  }

  lemma {:induction false} JoinAppend(x: seq<string>, y: seq<string>, sep: char)
    requires x != [] && y != []
    ensures Join(x + y, sep) == Join(x, sep) + [sep] + Join(y, sep)
  {
    if |x| == 1 {
      assert (x + y)[1..] == y;
    } else {
      assert (x + y)[1..] == x[1..] + y;
      JoinAppend(x[1..], y, sep);
    }
  }

  lemma {:induction false} SplitJoin(parts: seq<string>, sep: char)
    requires parts != [] && forall i :: 0 <= i < |parts| ==> sep !in parts[i]
    ensures Split(Join(parts, sep), sep) == parts
  {
    if |parts| == 1 {
      SplitOne(parts[0], sep);
    } else {
      SplitJoin(parts[1..], sep);
      SplitCons(parts[0], Join(parts[1..], sep), sep);
    }
  }

  lemma {:induction false} JoinSplit(s: string, sep: char)
    ensures Join(Split(s, sep), sep) == s
  {
    if s != "" {
      JoinSplit(s[1..], sep);
      var rest := Split(s[1..], sep);
      if s[0] == sep {
        assert ([""] + rest)[1..] == rest;
      } else {
        var all := [[s[0]] + rest[0]] + rest[1..];
        assert all[1..] == rest[1..];
      }
    }
  }

  function DropCarriage(line: string): string {
    if line != "" && line[|line| - 1] == '\r' then line[..|line| - 1] else line
  }

  function DropCarriages(lines: seq<string>): (r: seq<string>)
    ensures |r| == |lines| && forall i :: 0 <= i < |r| ==> r[i] == DropCarriage(lines[i])
  {
    seq(|lines|, i requires 0 <= i < |lines| => DropCarriage(lines[i]))
  }

  lemma CarriagesCons(a: string, lines: seq<string>)
    ensures DropCarriages([a] + lines) == [DropCarriage(a)] + DropCarriages(lines)
  {
  }

  /** The lines of a line scanner: no final empty line, no carriage return at a line's end. */
  function ScanLines(content: string): seq<string> {
    var parts := Split(content, '\n');
    DropCarriages(if parts[|parts| - 1] == "" then parts[..|parts| - 1] else parts)
  }

  lemma ScanCons(a: string, b: string)
    requires '\n' !in a
    ensures ScanLines(a + "\n" + b) == [DropCarriage(a)] + ScanLines(b)
  {
    hide Split, DropCarriage;
    SplitCons(a, b, '\n');
    var parts := Split(b, '\n');
    var all := [a] + parts;
    assert all[|all| - 1] == parts[|parts| - 1];
    if parts[|parts| - 1] == "" {
      assert all[..|all| - 1] == [a] + parts[..|parts| - 1];
      CarriagesCons(a, parts[..|parts| - 1]);
    } else {
      CarriagesCons(a, parts);
    }
  }

  lemma TrimDropCarriage(line: string)
    ensures TrimSpace(DropCarriage(line)) == TrimSpace(line)
  {
    if DropCarriage(line) != line {
      assert line == DropCarriage(line) + "\r";
      TrimSpaceBlank(DropCarriage(line), "\r");
    }
  }

  // ---------- subsequences ----------

  /** `a` is what is left of `b` after deleting some elements. */
  ghost predicate Subsequence<T(!new)>(a: seq<T>, b: seq<T>)
    decreases |b|
  {
    a == [] || (b != [] && (Subsequence(a, b[1..]) || (a[0] == b[0] && Subsequence(a[1..], b[1..]))))
  }

  lemma {:induction false} SubsequenceRefl<T(!new)>(a: seq<T>)
    ensures Subsequence(a, a)
  {
    if a != [] {
      SubsequenceRefl(a[1..]);
    }
  }

  lemma {:induction false} SubsequenceAppend<T(!new)>(a: seq<T>, b: seq<T>, c: seq<T>, d: seq<T>)
    requires Subsequence(a, b) && Subsequence(c, d)
    ensures Subsequence(a + c, b + d)
    decreases |b|
  {
    if b == [] {
      assert a + c == c && b + d == d;
    } else {
      assert (b + d)[0] == b[0] && (b + d)[1..] == b[1..] + d;
      if Subsequence(a, b[1..]) {
        SubsequenceAppend(a, b[1..], c, d);
      } else {
        assert (a + c)[0] == a[0] && (a + c)[1..] == a[1..] + c;
        SubsequenceAppend(a[1..], b[1..], c, d);
      }
    }
  }
}
