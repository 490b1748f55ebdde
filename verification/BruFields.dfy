/** What a rendered request file says, line by line, and how path parameters get their variables
    (framework/cmd/brunogen/generator/bru.go: renderRoute, indent, extractPathParams,
    routePathParamEnvVar, isRedundantPrefix). */
module BruFields {
  import opened Text
  import opened TextFacts
  import opened BruParams
  import opened BruEndpoint

  // ---------- the file, line by line ----------

  /** Every line ends in a newline. */
  lemma {:induction false} LinesAreJoined(lines: seq<string>)
    requires lines != []
    ensures Unlines(lines) == Join(lines, '\n') + "\n"
  {
    if |lines| == 1 {
      assert lines[1..] == [];
      assert lines[0] + "\n" + "" == lines[0] + "\n";
    } else {
      LinesAreJoined(lines[1..]);
      assert lines[0] + "\n" + (Join(lines[1..], '\n') + "\n") == (lines[0] + ['\n'] + Join(lines[1..], '\n')) + "\n";
    }
  }

  /** The query of a url: every example value's name and escaped text. */
  lemma {:induction false} QueryPartAt(examples: seq<Example>, i: nat)
    requires i < |examples|
    ensures |QueryParts(examples)| == |examples|
    ensures QueryParts(examples)[i] == examples[i].key + "=" + examples[i].escaped
  {
    if i > 0 {
      QueryPartAt(examples[1..], i - 1);
    } else if |examples| > 1 {
      QueryPartAt(examples[1..], 0);
    } else {
      assert examples[1..] == [];
    }
  }

  /** The rendered lines: the meta block with the action; the method block with the url, the body
      mode and inherited authentication; the content type, if there is a body; the path
      parameters, each with its variable; the query; the body; the documentation. */
  lemma RenderedLines(r: Route, action: string, snake: string -> string)
    ensures var segments := r.groupSegments + r.pathSegments;
            var params := PathParams(snake, segments, |segments|);
            var body := r.requestBind == "body" && r.examples != [];
            var query := (r.requestBind == "query" || r.requestBind == "pagination") && r.examples != [];
            var queryString := if query then "?" + Join(QueryParts(r.examples), '&') else "";
      RenderLines(r, action, snake) ==
        ["meta {", "  name: " + action, "  type: http", "  seq: 1", "  tags: [", "    brunogen", "  ]", "}", ""]
        + [ToLower(r.verb) + " {", "  url: " + ("{{BASE_URL}}" + (("/" + Join(segments, '/')) + queryString))]
        + ["  body: " + (if body then "json" else "none"), "  auth: inherit", "}"]
        + (if body then ["", "headers {", "  Content-Type: application/json", "}"] else [])
        + (if params != [] then
             ["", "params:path {"]
             + seq(|params|, i requires 0 <= i < |params| => "  " + params[i].name + ": {{" + params[i].envVar + "}}")
             + ["}"]
           else [])
        + (if query then
             ["", "params:query {"]
             + seq(|r.examples|, i requires 0 <= i < |r.examples| =>
                 "  " + r.examples[i].key + ": " + r.examples[i].text)
             + ["}"]
           else [])
        + (if body then ["", "body:json {"] + Indented(Split(r.bodyJson, '\n')) + ["}"] else [])
        + (if r.docs != "" then ["", "docs {"] + Indented(Split(r.docs, '\n')) + ["}"] else [])
  {
    hide PathParams, QueryParts, Join, Split, ToLower;
    var segments := r.groupSegments + r.pathSegments;
    var params := PathParams(snake, segments, |segments|);
    assert ParamLines(params)
        == seq(|params|, i requires 0 <= i < |params| => "  " + params[i].name + ": {{" + params[i].envVar + "}}");
    assert QueryLines(r.examples)
        == seq(|r.examples|, i requires 0 <= i < |r.examples| => "  " + r.examples[i].key + ": " + r.examples[i].text);
    assert IndentLines(Split(r.bodyJson, '\n')) == Indented(Split(r.bodyJson, '\n'));
    assert IndentLines(Split(r.docs, '\n')) == Indented(Split(r.docs, '\n'));
  }

  function Indented(lines: seq<string>): (r: seq<string>)
    ensures |r| == |lines| && forall i :: 0 <= i < |r| ==> r[i] == "  " + lines[i]
  {
    seq(|lines|, i requires 0 <= i < |lines| => "  " + lines[i])
  }

  // ---------- variables of path parameters ----------

  /** A parameter is a segment with a leading colon; its name is what follows. */
  lemma ParamNames(name: string)
    ensures IsParam(":" + name) && ParamName(":" + name) == name
    ensures (name == "" || name[0] != ':') ==> !IsParam(name) && ParamName(name) == name
  {
  }

  /** The variable part of a segment or a name: hyphens as underscores, in snake case, in capitals. */
  function PartOf(snake: string -> string, s: string): string {
    ToUpper(snake(Under(s)))
  }

  lemma {:induction false} NoStatics(snake: string -> string, segments: seq<string>)
    requires forall i :: 0 <= i < |segments| ==> segments[i] == "" || segments[i][0] == ':'
    ensures StaticParts(snake, segments) == []
  {
    if segments != [] {
      NoStatics(snake, segments[..|segments| - 1]);
    }
  }

  /** Each static segment adds its part, in order; parameters and empty segments add nothing. */
  lemma {:induction false} StaticsAppend(snake: string -> string, a: seq<string>, b: seq<string>)
    ensures StaticParts(snake, a + b) == StaticParts(snake, a) + StaticParts(snake, b)
    decreases |b|
  {
    hide Under, ToUpper;
    if b == [] {
      assert a + b == a;
    } else {
      assert (a + b)[..|a + b| - 1] == a + b[..|b| - 1];
      StaticsAppend(snake, a, b[..|b| - 1]);
    }
  }

  lemma OneStatic(snake: string -> string, s: string)
    requires s != "" && s[0] != ':'
    ensures StaticParts(snake, [s]) == [PartOf(snake, s)]
  {
    assert [s][..0] == [];
  }

  /** With no static segment before it a parameter's variable is at the root. */
  lemma RootVariable(snake: string -> string, before: seq<string>, name: string)
    requires forall i :: 0 <= i < |before| ==> before[i] == "" || before[i][0] == ':'
    ensures EnvVarName(snake, before + [":" + name], |before|) == "ROOT_" + PartOf(snake, name)
  {
    hide Dedupe, DropRedundant, IsRedundantPrefix;
    var segments := before + [":" + name];
    assert segments[..|before|] == before && segments[|before|] == ":" + name;
    NoStatics(snake, before);
    ParamNames(name);
  }

  /** After one static segment the variable is that segment's part and the parameter's, unless the
      segment only repeats how the parameter begins. */
  lemma VariableAfterOne(snake: string -> string, s: string, name: string)
    requires s != "" && s[0] != ':'
    ensures EnvVarName(snake, [s, ":" + name], 1) ==
      if IsRedundantPrefix(PartOf(snake, s), PartOf(snake, name)) then PartOf(snake, name)
      else PartOf(snake, s) + "_" + PartOf(snake, name)
  {
    hide IsRedundantPrefix, ToUpper, Under;
    var segments := [s, ":" + name];
    assert segments[..1] == [s];
    OneStatic(snake, s);
    ParamNames(name);
    var parts := [PartOf(snake, s)];
    assert parts[..0] == [];
    assert Dedupe([]) == [] && Dedupe(parts) == [] + parts;
    assert DropRedundant(parts, PartOf(snake, name)) ==
      if IsRedundantPrefix(PartOf(snake, s), PartOf(snake, name)) then [] else parts;
    assert Join(parts, '_') == PartOf(snake, s);
  }

  /** After two unrelated static segments, neither repeated by the parameter, all three parts. */
  lemma VariableAfterTwo(snake: string -> string, s: string, t: string, name: string)
    requires s != "" && s[0] != ':' && t != "" && t[0] != ':'
    requires !IsRedundantPrefix(PartOf(snake, t), PartOf(snake, name))
    ensures var x, y, z := PartOf(snake, s), PartOf(snake, t), PartOf(snake, name);
      EnvVarName(snake, [s, t, ":" + name], 2) ==
        if x == y || IsRedundantPrefix(x, y) || IsRedundantPrefix(y, x) then x + "_" + z else x + "_" + y + "_" + z
  {
    hide IsRedundantPrefix, ToUpper, Under;
    var x, y := PartOf(snake, s), PartOf(snake, t);
    var segments := [s, t, ":" + name];
    assert segments[..2] == [s] + [t];
    StaticsAppend(snake, [s], [t]);
    OneStatic(snake, s);
    OneStatic(snake, t);
    ParamNames(name);
    var parts := [x, y];
    assert [x] + [y] == parts && parts[..1] == [x] && [x][..0] == [];
    assert Dedupe([x]) == [x];
    assert [x] + [y] == [x, y] && [x, y][1..] == [y];
    assert Join([x, y], '_') == x + "_" + y && Join([x], '_') == x;
  }

  /** A segment repeats how a parameter begins if, case aside, it is a prefix of it, or is its stem
      with an s or, for a y, with ies. */
  lemma RedundantIff(segment: string, baseVar: string)
    ensures IsRedundantPrefix(segment, baseVar) <==>
      var s, b := ToUpper(segment), ToUpper(baseVar);
      || (exists x :: b == s + x)
      || (exists stem, x :: s == stem + "S" && b == stem + x)
      || (exists stem, x :: s == stem + "IES" && b == stem + "Y" + x)
  {
    var s, b := ToUpper(segment), ToUpper(baseVar);
    PrefixIff(s, b);
    if HasSuffix(s, "S") {
      var stem := s[..|s| - 1];
      assert s == stem + "S";
      PrefixIff(stem, b);
    }
    if stem, x :| s == stem + "S" && b == stem + x {
      assert s[|s| - 1..] == "S" && s[..|s| - 1] == stem;
    }
    if HasSuffix(s, "IES") {
      var stem := s[..|s| - 3];
      assert s == stem + "IES";
      PrefixIff(stem + "Y", b);
    }
    if stem, x :| s == stem + "IES" && b == stem + "Y" + x {
      assert s[|s| - 3..] == "IES" && s[..|s| - 3] == stem;
    }
  }

  lemma PrefixIff(a: string, b: string)
    ensures a <= b <==> exists x :: b == a + x
  {
    if a <= b {
      assert b == a + b[|a|..];
    }
  }

  /** Different routes can share a variable: behind a repeated segment only the parameter counts. */
  lemma RoutesShareVariable(snake: string -> string, name: string)
    requires snake("user") == "user" && snake("users") == "users" && PartOf(snake, name) == "USER_ID"
    ensures EnvVarName(snake, ["users", ":" + name], 1) == EnvVarName(snake, ["user", ":" + name], 1) == "USER_ID"
  {
    hide IsRedundantPrefix;
    var users, user := PartOf(snake, "users"), PartOf(snake, "user");
    UpperWords(snake);
    assert "USERS" == "USER" + "S" && "USER_ID" == "USER" + "_ID";
    RedundantIff("USERS", "USER_ID");
    RedundantIff("USER", "USER_ID");
    UpperFixed();
    VariableAfterOne(snake, "users", name);
    VariableAfterOne(snake, "user", name);
  }

  lemma UpperWords(snake: string -> string)
    requires snake("user") == "user" && snake("users") == "users"
    ensures PartOf(snake, "users") == "USERS" && PartOf(snake, "user") == "USER"
  {
    assert Under("users") == "users" && Under("user") == "user";
    assert ToUpper("users") == "USERS" && ToUpper("user") == "USER";
  }

  lemma UpperFixed()
    ensures ToUpper("USERS") == "USERS" && ToUpper("USER") == "USER" && ToUpper("USER_ID") == "USER_ID"
  {
  }

  /** For one and the same parameter, routes of one unrepeated static segment share its variable
      exactly when their segments have the same part. */
  lemma SharedVariableIff(snake: string -> string, s: string, t: string, name: string)
    requires s != "" && s[0] != ':' && t != "" && t[0] != ':'
    requires !IsRedundantPrefix(PartOf(snake, s), PartOf(snake, name))
    requires !IsRedundantPrefix(PartOf(snake, t), PartOf(snake, name))
    ensures EnvVarName(snake, [s, ":" + name], 1) == EnvVarName(snake, [t, ":" + name], 1)
       <==> PartOf(snake, s) == PartOf(snake, t)
  {
    hide *;
    VariableAfterOne(snake, s, name);
    VariableAfterOne(snake, t, name);
    SameParts(PartOf(snake, s), PartOf(snake, t), PartOf(snake, name));
  }

  lemma SameParts(x: string, y: string, z: string)
    ensures x + "_" + z == y + "_" + z <==> x == y
  {
    assert x + "_" + z == x + ("_" + z) && y + "_" + z == y + ("_" + z);
    SameFront(x, y, "_" + z);
  }

  lemma SameFront(a: string, b: string, tail: string)
    ensures a + tail == b + tail ==> a == b
  {
    if a + tail == b + tail {
      assert |a| == |b|;
      assert (a + tail)[..|a|] == a && (b + tail)[..|b|] == b;
    }
  }

  const DIGITS := "0123456789"

  lemma DigitAt(i: nat)
    requires i < 10
    ensures DIGITS[i] as int == 48 + i
  {
  }

  /** What a variable may hold, and what a word may hold besides. */
  lemma VariableLetters(c: char)
    ensures VarChar(c) <==> c in UPPER || c in DIGITS || c == '_'
    ensures WordChar(c) <==> c in UPPER || c in LOWER || c in DIGITS || c == '_'
  {
    LettersIff(c);
    if '0' <= c <= '9' {
      DigitAt(c as int - 48);
    }
    if i :| 0 <= i < 10 && DIGITS[i] == c {
      DigitAt(i);
    }
  }

  // ---------- the methods a file can hold ----------

  /** The seven methods, and nothing else, open a block whose url is read. */
  lemma BlocksAreMethods(name: string)
    requires name != "" && !IsSpace(name[0]) && !IsSpace(name[|name| - 1])
    ensures OpenedBlock(name + " {") ==
      if ToLower(name) in {"get", "post", "put", "delete", "patch", "options", "head"}
      then ToUpper(ToLower(name)) else ""
  {
    hide TrimSpace;
    var line := name + " {";
    assert line[..|line| - 1] == name + " ";
    MethodTrims(name);
  }
}
