/** Rendering a route to a request file, reading the endpoint back, and recognising it
    (framework/cmd/brunogen/generator/bru.go: renderRoute, parseBruEndpoint,
    normalizeURLPath, matchEndpoint). */
module BruEndpoint {
  import opened Options
  import opened Text
  import opened BruParams

  /** An example value: as text, and as escaped for a query string. */
  datatype Example = Example(key: string, text: string, escaped: string)

  /** `examples` are the example values of the request fields; `bodyJson` and `docs` the
      rendered body and documentation blocks. */
  datatype Route = Route(verb: string, groupSegments: seq<string>, pathSegments: seq<string>, requestBind: string,
                         examples: seq<Example>, bodyJson: string, docs: string)
  {
    function FullSegments(): seq<string> { groupSegments + pathSegments }
    function UrlPath(): string { "/" + Join(FullSegments(), '/') }
    predicate HasBody() { requestBind == "body" && examples != [] }
    predicate HasQuery() { (requestBind == "query" || requestBind == "pagination") && examples != [] }
  }

  const METHODS: set<string> := {"get", "post", "put", "delete", "patch", "options", "head"}

  // ---------- rendering ----------

  function QueryParts(examples: seq<Example>): seq<string> {
    if examples == [] then [] else [examples[0].key + "=" + examples[0].escaped] + QueryParts(examples[1..])
  }

  function QueryString(r: Route): string {
    if r.HasQuery() then "?" + Join(QueryParts(r.examples), '&') else ""
  }

  function UrlText(r: Route): string {
    "{{BASE_URL}}" + (r.UrlPath() + QueryString(r))
  }

  /** Text made of the given lines, each ended by a newline. */
  function Unlines(lines: seq<string>): string {
    if lines == [] then "" else lines[0] + "\n" + Unlines(lines[1..])
  }

  function ParamLine(pp: PathParam): string { "  " + pp.name + ": {{" + pp.envVar + "}}" }
  function QueryLine(e: Example): string { "  " + e.key + ": " + e.text }

  function IndentLines(lines: seq<string>): seq<string> {
    seq(|lines|, i requires 0 <= i < |lines| => "  " + lines[i])
  }

  function ParamLines(params: seq<PathParam>): seq<string> {
    seq(|params|, i requires 0 <= i < |params| => ParamLine(params[i]))
  }

  function QueryLines(examples: seq<Example>): seq<string> {
    seq(|examples|, i requires 0 <= i < |examples| => QueryLine(examples[i]))
  }

  function MetaLines(action: string): seq<string> {
    ["meta {", "  name: " + action, "  type: http", "  seq: 1", "  tags: [", "    brunogen", "  ]", "}", ""]
  }

  function HeadLines(r: Route, action: string): seq<string> {
    MetaLines(action) + [ToLower(r.verb) + " {", "  url: " + UrlText(r)]
  }

  function BodyLines(r: Route): seq<string> {
    ["  body: " + (if r.HasBody() then "json" else "none"), "  auth: inherit", "}"]
  }

  function RenderLines(r: Route, action: string, snake: string -> string): seq<string> {
    var params := PathParams(snake, r.FullSegments(), |r.FullSegments()|);
    HeadLines(r, action) + BodyLines(r)
    + (if r.HasBody() then ["", "headers {", "  Content-Type: application/json", "}"] else [])
    + (if params != [] then ["", "params:path {"] + ParamLines(params) + ["}"] else [])
    + (if r.HasQuery() then ["", "params:query {"] + QueryLines(r.examples) + ["}"] else [])
    + (if r.HasBody() then ["", "body:json {"] + IndentLines(Split(r.bodyJson, '\n')) + ["}"] else [])
    + (if r.docs != "" then ["", "docs {"] + IndentLines(Split(r.docs, '\n')) + ["}"] else [])
  }

  function RenderText(r: Route, action: string, snake: string -> string): string {
    Unlines(RenderLines(r, action, snake))
  }

  /** The builder is kept as the lines written so far. */
  method RenderRoute(r: Route, action: string, snake: string -> string) returns (text: string)
    ensures text == RenderText(r, action, snake)
  {
    hide PathParams, QueryParts, Join, ToLower, Unlines, UrlText, Split;
    var pathParams := ExtractPathParams(snake, r.FullSegments());
    var b := HeadLines(r, action) + BodyLines(r);
    if r.HasBody() {
      b := b + ["", "headers {", "  Content-Type: application/json", "}"];
    } else {
      assert b + [] == b;
    }
    if pathParams != [] {
      var block := ["", "params:path {"];
      for i := 0 to |pathParams|
        invariant block == ["", "params:path {"] + ParamLines(pathParams[..i])
      {
        assert ParamLines(pathParams[..i + 1]) == ParamLines(pathParams[..i]) + [ParamLine(pathParams[i])];
        block := block + [ParamLine(pathParams[i])];
      }
      assert pathParams[..|pathParams|] == pathParams;
      b := b + (block + ["}"]);
    } else {
      assert b + [] == b;
    }
    if r.HasQuery() {
      var block := ["", "params:query {"];
      for i := 0 to |r.examples|
        invariant block == ["", "params:query {"] + QueryLines(r.examples[..i])
      {
        assert QueryLines(r.examples[..i + 1]) == QueryLines(r.examples[..i]) + [QueryLine(r.examples[i])];
        block := block + [QueryLine(r.examples[i])];
      }
      assert r.examples[..|r.examples|] == r.examples;
      b := b + (block + ["}"]);
    } else {
      assert b + [] == b;
    }
    if r.HasBody() {
      b := b + (["", "body:json {"] + IndentLines(Split(r.bodyJson, '\n')) + ["}"]);
    } else {
      assert b + [] == b;
    }
    if r.docs != "" {
      b := b + (["", "docs {"] + IndentLines(Split(r.docs, '\n')) + ["}"]);
    } else {
      assert b + [] == b;
    }
    text := Unlines(b);
  }

  // ---------- reading the endpoint back ----------

  datatype Endpoint = Endpoint(verb: string, rawURL: string)

  /** The block a line opens, if it opens one: a method in capitals, or "" for any other. */
  function OpenedBlock(line: string): string
    requires HasSuffix(line, "{")
  {
    var name := ToLower(TrimSpace(line[..|line| - 1]));
    if name in METHODS then ToUpper(name) else ""
  }

  function ParseLines(lines: seq<string>, block: string): Option<Endpoint> {
    if lines == [] then None
    else
      var line := TrimSpace(lines[0]);
      if HasSuffix(line, "{") then ParseLines(lines[1..], OpenedBlock(line))
      else if line == "}" then ParseLines(lines[1..], "")
      else if block != "" && "url:" <= line then Some(Endpoint(block, TrimSpace(line[4..])))
      else ParseLines(lines[1..], block)
  }

  method ParseBruEndpoint(content: string) returns (r: Option<Endpoint>)
    ensures r == ParseLines(ScanLines(content), "")
  {
    hide ScanLines, TrimSpace, OpenedBlock;
    var lines := ScanLines(content);
    var currentBlock := "";
    for i := 0 to |lines|
      invariant ParseLines(lines, "") == ParseLines(lines[i..], currentBlock)
    {
      assert lines[i..][0] == lines[i] && lines[i..][1..] == lines[i + 1..];
      var line := TrimSpace(lines[i]);
      if HasSuffix(line, "{") {
        currentBlock := OpenedBlock(line);
        continue;
      }
      if line == "}" {
        currentBlock := "";
        continue;
      }
      if currentBlock != "" && "url:" <= line {
        return Some(Endpoint(currentBlock, TrimSpace(line[4..])));
      }
    }
    r := None;
  }

  // ---------- normalising and matching ----------

  function IndexOf(s: string, pat: string): (i: int)
    ensures i == -1 || (0 <= i && i + |pat| <= |s| && s[i..i + |pat|] == pat)
  {
    if pat <= s then 0
    else if s == "" then -1
    else
      var i := IndexOf(s[1..], pat);
      if i == -1 then -1 else i + 1
  }

  function CutAt(s: string, c: char): string {
    if s == "" || s[0] == c then "" else [s[0]] + CutAt(s[1..], c)
  }

  /** Removes template variables, outermost braces first found first. */
  function StripVars(s: string): string
    decreases |s|
  {
    var start, end := IndexOf(s, "{{"), IndexOf(s, "}}");
    if start == -1 || end == -1 || end < start then s
    else StripVars(s[..start] + s[end + 2..])
  }

  function TrimSlashes(s: string): string
    decreases |s|
  {
    if s != "" && s[0] == '/' then TrimSlashes(s[1..])
    else if s != "" && s[|s| - 1] == '/' then TrimSlashes(s[..|s| - 1])
    else s
  }

  /** `parsedPath` stands for the URL parser: the path of a URL that parses to a nonempty one. */
  function NormalizePath(parsedPath: string -> Option<string>, rawURL: string, basePath: string): string {
    var stripped := StripVars(CutAt(CutAt(TrimSpace(rawURL), '?'), '#'));
    var path := match parsedPath(stripped) case Some(p) => p case None => stripped;
    var base := "/" + TrimSlashes(basePath);
    "/" + TrimSlashes(if base != "/" && base <= path then path[|base|..] else path)
  }

  method NormalizeURLPath(parsedPath: string -> Option<string>, rawURL: string, basePath: string) returns (path: string)
    ensures path == NormalizePath(parsedPath, rawURL, basePath)
  {
    hide TrimSpace, TrimSlashes, IndexOf;
    path := CutAt(CutAt(TrimSpace(rawURL), '?'), '#');
    ghost var cut := path;
    while true
      invariant StripVars(path) == StripVars(cut)
      decreases |path|
    {
      var start := IndexOf(path, "{{");
      if start == -1 {
        break;
      }
      var end := IndexOf(path, "}}");
      if end == -1 || end < start {
        break;
      }
      path := path[..start] + path[end + 2..];
    }
    match parsedPath(path) {
      case Some(p) => path := p;
      case None =>
    }
    var base := "/" + TrimSlashes(basePath);
    if base != "/" && base <= path {
      path := path[|base|..];
    }
    path := "/" + TrimSlashes(path);
  }

  function NonEmpty(parts: seq<string>): seq<string> {
    if parts == [] then []
    else (if parts[0] != "" then [parts[0]] else []) + NonEmpty(parts[1..])
  }

  function SplitSegments(path: string): seq<string> {
    NonEmpty(Split(TrimSlashes(path), '/'))
  }

  predicate SegmentMatches(r: string, h: string) {
    ":" <= r || ":" <= h || EqualFold(r, h)
  }

  /** Same method, and the same normalised path or segments that agree but for parameters. */
  predicate Matches(parsedPath: string -> Option<string>, routeVerb: string, routePath: string, basePath: string,
                    hw: Endpoint) {
    var r, h := NormalizePath(parsedPath, routePath, basePath), NormalizePath(parsedPath, hw.rawURL, basePath);
    && EqualFold(routeVerb, hw.verb)
    && (|| r == h
        || (|SplitSegments(r)| == |SplitSegments(h)|
            && forall i :: 0 <= i < |SplitSegments(r)| ==> SegmentMatches(SplitSegments(r)[i], SplitSegments(h)[i])))
  }

  method MatchEndpoint(parsedPath: string -> Option<string>, routeVerb: string, routePath: string, basePath: string,
                       hw: Endpoint)
    returns (ok: bool)
    ensures ok <==> Matches(parsedPath, routeVerb, routePath, basePath, hw)
  {
    hide NormalizePath, SplitSegments, SegmentMatches, EqualFold;
    if !EqualFold(routeVerb, hw.verb) {
      return false;
    }
    var hNorm := NormalizeURLPath(parsedPath, hw.rawURL, basePath);
    var rNorm := NormalizeURLPath(parsedPath, routePath, basePath);
    if rNorm == hNorm {
      return true;
    }
    var rSegs, hSegs := SplitSegments(rNorm), SplitSegments(hNorm);
    if |rSegs| != |hSegs| {
      return false;
    }
    for i := 0 to |rSegs|
      invariant forall j :: 0 <= j < i ==> SegmentMatches(rSegs[j], hSegs[j])
    {
      if !SegmentMatches(rSegs[i], hSegs[i]) {
        return false;
      }
    }
    ok := true;
  }

  // ---------- the round trip ----------

  /** Lines whose first visible character starts no method name and no `url:` leave the parser
      outside any block. */
  predicate StartsNoMethod(c: char) {
    !IsSpace(c) && LowerChar(c) !in {'g', 'p', 'd', 'o', 'h'}
  }

  lemma MethodInitials(name: string)
    requires name in METHODS
    ensures name != "" && name[0] in {'g', 'p', 'd', 'o', 'h'}
    ensures ToLower(name) == name && !IsSpace(name[0]) && !IsSpace(name[|name| - 1])
    ensures ToLower(ToUpper(name)) == name && ToUpper(name) != ""
  {
  }

  lemma SkipLine(pad: string, core: string, rest: seq<string>)
    requires Blank(pad) && core != "" && StartsNoMethod(core[0])
    ensures ParseLines([pad + core] + rest, "") == ParseLines(rest, "")
  {
    hide TrimSpace, TrimRight, METHODS, IsSpace;
    TrimSpaceFirst(pad, core);
    var line := TrimSpace(pad + core);
    assert ([pad + core] + rest)[1..] == rest;
    if HasSuffix(line, "{") && |line| > 1 {
      var front := line[..|line| - 1];
      TrimSpaceFirst("", front);
      assert "" + front == front;
      var name := ToLower(TrimSpace(front));
      assert name[0] == LowerChar(core[0]);
      if name in METHODS {
        MethodInitials(name);
      }
    } else if HasSuffix(line, "{") {
      assert line[..0] == "";
      TrimNothing();
      if "" in METHODS {
        MethodInitials("");
      }
    }
  }

  lemma TrimNothing()
    ensures TrimSpace("") == "" && ToLower("") == ""
  {
  }

  lemma SkipEmpty(rest: seq<string>)
    ensures ParseLines([""] + rest, "") == ParseLines(rest, "")
  {
    assert ([""] + rest)[1..] == rest;
  }

  lemma MethodLine(verb: string, rest: seq<string>)
    requires verb in METHODS
    ensures ParseLines([verb + " {"] + rest, "") == ParseLines(rest, ToUpper(verb))
  {
    hide METHODS, TrimSpace, IsSpace, ToLower;
    MethodInitials(verb);
    MethodTrims(verb);
    var line := verb + " {";
    assert line[..|line| - 1] == verb + " ";
    assert ([line] + rest)[1..] == rest;
  }

  lemma MethodTrims(verb: string)
    requires verb != "" && !IsSpace(verb[0]) && !IsSpace(verb[|verb| - 1])
    ensures TrimSpace(verb + " {") == verb + " {" && TrimSpace(verb + " ") == verb
  {
    hide TrimSpace;
    TrimSpaceFixed(verb + " {");
    TrimSpaceBlank(verb, " ");
    TrimSpaceFixed(verb);
  }

  /** The url line of a method block yields the url without its trailing white space, unless
      what is left ends in a brace and so reads as the start of a block. */
  lemma UrlLine(url: string, rest: seq<string>, block: string)
    requires block != "" && url != "" && !IsSpace(url[0]) && !HasSuffix(TrimRight(url), "{")
    ensures ParseLines(["  url: " + url] + rest, block) == Some(Endpoint(block, TrimRight(url)))
  {
    hide TrimSpace, TrimRight, IsSpace, OpenedBlock;
    UrlLineTrimmed(url);
    UrlValue(url);
    var lines := ["  url: " + url] + rest;
    var line := TrimSpace(lines[0]);
    assert line[|line| - 1] == TrimRight(url)[|TrimRight(url)| - 1];
  }

  lemma UrlLineTrimmed(url: string)
    requires url != "" && !IsSpace(url[0])
    ensures TrimSpace("  url: " + url) == "url: " + TrimRight(url)
  {
    hide TrimRight, TrimLeft, TrimSpace, IsSpace;
    Spaces();
    assert "  " + ("url: " + url) == "  url: " + url;
    TrimPadded("  ", "url: ", url);
  }

  lemma UrlValue(url: string)
    requires url != "" && !IsSpace(url[0])
    ensures TrimRight(url) != "" && TrimSpace(("url: " + TrimRight(url))[4..]) == TrimRight(url)
  {
    hide TrimRight, TrimLeft, TrimSpace, IsSpace;
    Spaces();
    TrimRightKeeps("", url);
    assert ("url: " + TrimRight(url))[4..] == " " + TrimRight(url);
    TrimSpaceFirst(" ", TrimRight(url));
    TrimRightTwice(url);
  }

  lemma Spaces()
    ensures Blank("  ") && Blank(" ") && !IsSpace('u')
  {
  }

  lemma TrimPadded(pad: string, core: string, url: string)
    requires Blank(pad) && core != "" && !IsSpace(core[0]) && url != "" && !IsSpace(url[0])
    ensures TrimSpace(pad + (core + url)) == core + TrimRight(url)
  {
    hide TrimRight, TrimLeft, TrimSpace, IsSpace;
    assert (core + url)[0] == core[0];
    TrimSpaceFirst(pad, core + url);
    TrimRightKeeps(core, url);
  }

  lemma TrimRightTwice(s: string)
    ensures TrimRight(TrimRight(s)) == TrimRight(s)
  {
  }

  lemma UnlinesAppend(a: seq<string>, b: seq<string>)
    ensures a != [] ==> Unlines(a + b) == a[0] + "\n" + Unlines(a[1..] + b)
  {
    if a != [] {
      assert (a + b)[0] == a[0] && (a + b)[1..] == a[1..] + b;
    }
  }

  /** The scanner sees the leading lines as they were written. */
  lemma {:induction false} ScanHead(head: seq<string>, rest: seq<string>)
    requires forall i :: 0 <= i < |head| ==> '\n' !in head[i]
    ensures ScanLines(Unlines(head + rest)) == DropCarriages(head) + ScanLines(Unlines(rest))
  {
    hide ScanLines;
    if head == [] {
      assert head + rest == rest;
    } else {
      UnlinesAppend(head, rest);
      ScanCons(head[0], Unlines(head[1..] + rest));
      ScanHead(head[1..], rest);
      assert DropCarriages(head) == [DropCarriage(head[0])] + DropCarriages(head[1..]);
    }
  }

  /** A carriage return before the newline makes no difference to the parser. */
  lemma {:induction false} ParseCarriages(head: seq<string>, rest: seq<string>, block: string)
    ensures ParseLines(DropCarriages(head) + rest, block) == ParseLines(head + rest, block)
  {
    hide DropCarriage, TrimSpace, OpenedBlock;
    if head == [] {
    } else {
      TrimDropCarriage(head[0]);
      var dropped := DropCarriages(head);
      assert (dropped + rest)[0] == DropCarriage(head[0]) && (head + rest)[0] == head[0];
      assert (dropped + rest)[1..] == DropCarriages(head[1..]) + rest && (head + rest)[1..] == head[1..] + rest;
      var line := TrimSpace(head[0]);
      ParseCarriages(head[1..], rest,
                     if HasSuffix(line, "{") then OpenedBlock(line) else if line == "}" then "" else block);
    }
  }

  /** A line the parser passes over outside any block. */
  ghost predicate Skipped(line: string) {
    line == "" || exists k :: 0 <= k < |line| && Blank(line[..k]) && StartsNoMethod(line[k])
  }

  lemma {:induction false} SkipAll(lines: seq<string>, rest: seq<string>)
    requires forall i :: 0 <= i < |lines| ==> Skipped(lines[i])
    ensures ParseLines(lines + rest, "") == ParseLines(rest, "")
  {
    hide ParseLines, Blank, StartsNoMethod;
    if lines == [] {
      assert lines + rest == rest;
    } else {
      assert lines + rest == [lines[0]] + (lines[1..] + rest);
      SkipAll(lines[1..], rest);
      if lines[0] == "" {
        SkipEmpty(lines[1..] + rest);
      } else {
        var k :| 0 <= k < |lines[0]| && Blank(lines[0][..k]) && StartsNoMethod(lines[0][k]);
        assert lines[0] == lines[0][..k] + lines[0][k..];
        SkipLine(lines[0][..k], lines[0][k..], lines[1..] + rest);
      }
    }
  }

  lemma SkippedAt(line: string, k: nat)
    requires k < |line| && Blank(line[..k]) && StartsNoMethod(line[k])
    ensures Skipped(line)
  {
  }

  lemma MetaSkipped(action: string)
    ensures forall i :: 0 <= i < |MetaLines(action)| ==> Skipped(MetaLines(action)[i])
  {
    hide Skipped;
    SkippedAt("meta {", 0);
    SkippedAt("  name: " + action, 2);
    SkippedAt("  type: http", 2);
    SkippedAt("  seq: 1", 2);
    SkippedAt("  tags: [", 2);
    SkippedAt("    brunogen", 4);
    SkippedAt("  ]", 2);
    SkippedAt("}", 0);
    EmptySkipped();
  }

  lemma EmptySkipped()
    ensures Skipped("")
  {
  }

  /** Rendering keeps the endpoint readable: for every route with one of the seven methods, in
      whatever case, the file parses back to the method and the url. Newlines are excluded
      because each of these texts is one line, and a url must not end in a brace. */
  lemma ParsesBack(r: Route, action: string, snake: string -> string)
    requires ToLower(r.verb) in METHODS
    requires '\n' !in action && '\n' !in UrlText(r) && !HasSuffix(TrimRight(UrlText(r)), "{")
    ensures ParseLines(ScanLines(RenderText(r, action, snake)), "")
         == Some(Endpoint(ToUpper(ToLower(r.verb)), TrimRight(UrlText(r))))
  {
    hide ParseLines, ScanLines, UrlText, METHODS, TrimRight, MetaLines, Unlines;
    var head, verb, url := HeadLines(r, action), ToLower(r.verb), UrlText(r);
    var lines := RenderLines(r, action, snake);
    HeadIsPrefix(r, action, snake);
    var rest := lines[|head|..];
    assert lines == head + rest;
    HeadHasNoNewline(r, action);
    ScanHead(head, rest);
    var tail := ScanLines(Unlines(rest));
    ParseCarriages(head, tail, "");
    MetaSkipped(action);
    assert head + tail == MetaLines(action) + ([verb + " {"] + (["  url: " + url] + tail));
    SkipAll(MetaLines(action), [verb + " {"] + (["  url: " + url] + tail));
    MethodLine(verb, ["  url: " + url] + tail);
    MethodInitials(verb);
    UrlStarts(r);
    UrlLine(url, tail, ToUpper(verb));
  }

  /** No endpoint is ever read with a url that ends in an opening brace. */
  lemma {:induction false} ReadUrlEndsNoBrace(lines: seq<string>, block: string)
    ensures var r := ParseLines(lines, block); r.Some? ==> !HasSuffix(r.value.rawURL, "{")
  {
    hide TrimSpace, OpenedBlock, IsSpace;
    if lines != [] {
      var line := TrimSpace(lines[0]);
      if HasSuffix(line, "{") {
        ReadUrlEndsNoBrace(lines[1..], OpenedBlock(line));
      } else if line == "}" {
        ReadUrlEndsNoBrace(lines[1..], "");
      } else if block != "" && "url:" <= line {
        TrimmedEnd(lines[0]);
        TailKeepsEnd(line, 4);
      } else {
        ReadUrlEndsNoBrace(lines[1..], block);
      }
    }
  }

  /** Trimming a tail of text that ends in no space leaves its last character alone. */
  lemma TailKeepsEnd(t: string, n: nat)
    requires n <= |t| && (t == "" || !IsSpace(t[|t| - 1]))
    ensures var u := TrimSpace(t[n..]); u == "" || (t != "" && u[|u| - 1] == t[|t| - 1])
  {
    hide IsSpace, TrimLeft, TrimRight;
    var x := t[n..];
    var left := TrimLeft(x);
    if left == "" {
      NothingLeft();
    } else {
      assert left[|left| - 1] == x[|x| - 1] == t[|t| - 1];
      TrimRightFixed(left);
    }
  }

  lemma NothingLeft()
    ensures TrimRight("") == ""
  {
  }

  lemma TrimmedEnd(s: string)
    ensures var t := TrimSpace(s); t == "" || !IsSpace(t[|t| - 1])
  {
    hide IsSpace, TrimLeft, TrimRight;
  }

  /** Of a one-line url, the file reads back as the route's endpoint exactly when the url does
      not end in an opening brace. */
  lemma ParsesBackIff(r: Route, action: string, snake: string -> string)
    requires ToLower(r.verb) in METHODS && '\n' !in action && '\n' !in UrlText(r)
    ensures ParseLines(ScanLines(RenderText(r, action, snake)), "")
         == Some(Endpoint(ToUpper(ToLower(r.verb)), TrimRight(UrlText(r))))
       <==> !HasSuffix(TrimRight(UrlText(r)), "{")
  {
    hide ParseLines, ScanLines, UrlText, METHODS, TrimRight, RenderText;
    if HasSuffix(TrimRight(UrlText(r)), "{") {
      ReadUrlEndsNoBrace(ScanLines(RenderText(r, action, snake)), "");
    } else {
      ParsesBack(r, action, snake);
    }
  }

  /** A route whose last segment is an opening brace is not read back. */
  lemma BraceSegmentLost(action: string, snake: string -> string)
    requires '\n' !in action
    ensures var r := Route("get", [], ["{"], "", [], "", "");
      ParseLines(ScanLines(RenderText(r, action, snake)), "") != Some(Endpoint("GET", TrimRight(UrlText(r))))
  {
    hide ParseLines, ScanLines, RenderText, TrimRight;
    var r := Route("get", [], ["{"], "", [], "", "");
    assert r.FullSegments() == ["{"];
    assert UrlText(r) == "{{BASE_URL}}/{";
    TrimRightFixed(UrlText(r));
    assert ToLower("get") == "get" && ToUpper("get") == "GET";
    ParsesBackIff(r, action, snake);
  }

  lemma UrlStarts(r: Route)
    ensures UrlText(r) != "" && !IsSpace(UrlText(r)[0])
  {
  }

  lemma HeadIsPrefix(r: Route, action: string, snake: string -> string)
    ensures HeadLines(r, action) <= RenderLines(r, action, snake)
  {
    hide HeadLines, BodyLines, PathParams, ParamLines, QueryLines, IndentLines, Split;
  }

  lemma HeadHasNoNewline(r: Route, action: string)
    requires ToLower(r.verb) in METHODS && '\n' !in action && '\n' !in UrlText(r)
    ensures forall i :: 0 <= i < |HeadLines(r, action)| ==> '\n' !in HeadLines(r, action)[i]
  {
    hide UrlText, ToLower;
  }

  // ---------- recognising the rendered route ----------

  lemma {:induction false} CutAtPrefix(a: string, b: string, c: char)
    requires c !in a
    ensures CutAt(a + b, c) == a + CutAt(b, c)
  {
    if a == "" {
      assert a + b == b;
    } else {
      assert (a + b)[0] == a[0] && (a + b)[1..] == a[1..] + b;
      CutAtPrefix(a[1..], b, c);
    }
  }

  /** A cut ignores what follows the first cut character. */
  lemma {:induction false} CutAtStops(a: string, b: string, c: char)
    ensures CutAt(a + [c] + b, c) == CutAt(a, c)
  {
    if a == "" {
    } else {
      assert (a + [c] + b)[0] == a[0] && (a + [c] + b)[1..] == a[1..] + [c] + b;
      CutAtStops(a[1..], b, c);
    }
  }

  lemma IndexOfHead(a: string, b: string, pat: string)
    requires pat <= a
    ensures IndexOf(a + b, pat) == 0
  {
    assert pat <= a + b;
  }

  lemma {:induction false} IndexOfLater(a: string, b: string, pat: string)
    requires |pat| == 2 && pat[0] !in a && pat <= b
    ensures IndexOf(a + b, pat) == |a|
  {
    if a == "" {
      assert a + b == b;
    } else {
      assert (a + b)[1..] == a[1..] + b && (a + b)[0] != pat[0];
      IndexOfLater(a[1..], b, pat);
    }
  }

  /** A leading variable is the first one removed. */
  lemma StripsLeading(name: string, x: string)
    requires '}' !in name && '{' !in name
    ensures StripVars("{{" + name + "}}" + x) == StripVars(x)
  {
    hide IndexOf;
    var front := "{{" + name;
    var s := front + "}}" + x;
    assert s == front + ("}}" + x);
    IndexOfHead(front, "}}" + x, "{{");
    IndexOfLater(front, "}}" + x, "}}");
    assert s[..0] + s[|front| + 2..] == x;
  }

  /** Before normalisation a rendered url, without its query, is its base in front of the
      route's own path. */
  lemma CutUrl(base: string, path: string, query: string)
    requires base != "" && !IsSpace(base[0]) && '?' !in base && path != "" && !IsSpace(path[0])
    requires query == "" || (query[0] == '?' && TrimRight(path) == path)
    ensures CutAt(TrimSpace(TrimRight(base + (path + query))), '?') == base + CutAt(TrimSpace(path), '?')
  {
    hide TrimRight, TrimSpace, CutAt, IsSpace;
    TrimHere(path);
    if query == "" {
      assert path + query == path;
      CutWithoutQuery(base, path);
    } else {
      CutWithQuery(base, path, query);
    }
  }

  lemma CutWithoutQuery(base: string, path: string)
    requires base != "" && !IsSpace(base[0]) && '?' !in base && path != "" && !IsSpace(path[0])
    ensures CutAt(TrimSpace(TrimRight(base + path)), '?') == base + CutAt(TrimRight(path), '?')
  {
    hide TrimRight, TrimSpace, CutAt, IsSpace;
    TrimRightKeeps(base, path);
    TrimTrimmed(base + path);
    CutAtPrefix(base, TrimRight(path), '?');
  }

  lemma CutWithQuery(base: string, path: string, query: string)
    requires base != "" && !IsSpace(base[0]) && '?' !in base && query != "" && query[0] == '?'
    ensures CutAt(TrimSpace(TrimRight(base + (path + query))), '?') == base + CutAt(path, '?')
  {
    hide TrimRight, TrimSpace, CutAt, IsSpace;
    assert base + (path + query) == (base + path) + query;
    QuestionMark();
    TrimRightKeeps(base + path, query);
    TrimTrimmed((base + path) + query);
    CutThree(base, path, TrimRight(query));
  }

  lemma CutThree(base: string, path: string, query: string)
    requires '?' !in base && query != "" && query[0] == '?'
    ensures CutAt((base + path) + query, '?') == base + CutAt(path, '?')
  {
    hide CutAt;
    var x := path + ['?'] + query[1..];
    assert (base + path) + query == base + x;
    CutAtPrefix(base, x, '?');
    CutAtStops(path, query[1..], '?');
  }

  lemma QuestionMark()
    ensures !IsSpace('?')
  {
  }

  lemma TrimHere(s: string)
    requires s != "" && !IsSpace(s[0])
    ensures TrimSpace(s) == TrimRight(s)
  {
  }

  lemma TrimTrimmed(s: string)
    requires s != "" && !IsSpace(s[0])
    ensures TrimSpace(TrimRight(s)) == TrimRight(s)
  {
    TrimRightKeeps("", s);
    assert "" + s == s && "" + TrimRight(s) == TrimRight(s);
    TrimHere(TrimRight(s));
    TrimRightTwice(s);
  }

  lemma BaseFacts(r: Route)
    ensures UrlText(r) == "{{BASE_URL}}" + (r.UrlPath() + QueryString(r))
    ensures "{{BASE_URL}}" != "" && !IsSpace("{{BASE_URL}}"[0]) && '?' !in "{{BASE_URL}}" && '#' !in "{{BASE_URL}}"
    ensures r.UrlPath() != "" && !IsSpace(r.UrlPath()[0])
    ensures QueryString(r) == "" || QueryString(r)[0] == '?'
    ensures "{{BASE_URL}}" == "{{" + "BASE_URL" + "}}" && '}' !in "BASE_URL" && '{' !in "BASE_URL"
  {
    hide Join, QueryParts;
  }

  /** For any base path and any URL parser, the endpoint read back from a rendered route is
      recognised as that route. */
  lemma RoundTrip(r: Route, action: string, snake: string -> string, parsedPath: string -> Option<string>,
                  basePath: string)
    requires ToLower(r.verb) in METHODS
    requires '\n' !in action && '\n' !in UrlText(r) && !HasSuffix(TrimRight(UrlText(r)), "{")
    requires QueryString(r) != "" ==> TrimRight(r.UrlPath()) == r.UrlPath()
    ensures var hw := ParseLines(ScanLines(RenderText(r, action, snake)), "");
      hw.Some? && Matches(parsedPath, r.verb, r.UrlPath(), basePath, hw.value)
  {
    hide ParseLines, ScanLines, RenderText, UrlText, METHODS, TrimRight, TrimSpace;
    hide CutAt, StripVars, TrimSlashes, SplitSegments, QueryString, IsSpace;
    ParsesBack(r, action, snake);
    MethodInitials(ToLower(r.verb));
    BaseFacts(r);
    CutUrl("{{BASE_URL}}", r.UrlPath(), QueryString(r));
    CutAtPrefix("{{BASE_URL}}", CutAt(TrimSpace(r.UrlPath()), '?'), '#');
    StripsLeading("BASE_URL", CutAt(CutAt(TrimSpace(r.UrlPath()), '?'), '#'));
  }
}
