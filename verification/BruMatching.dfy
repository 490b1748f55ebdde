/** When a handwritten request is recognised as a route, segment by segment
    (framework/cmd/brunogen/generator/bru.go: normalizeURLPath, matchEndpoint, splitSegments). */
module BruMatching {
  import opened Options
  import opened Text
  import opened TextFacts
  import opened BruEndpoint

  // ---------- paths of plain segments ----------

  /** A nonempty segment without slash, brace, `?`, `#` or white space. */
  predicate PlainText(s: string) {
    s != "" && forall i :: 0 <= i < |s| ==> s[i] !in {'/', '{', '}', '?', '#'} && !IsSpace(s[i])
  }

  predicate PlainPath(segments: seq<string>) {
    forall i :: 0 <= i < |segments| ==> PlainText(segments[i])
  }

  function PathOf(segments: seq<string>): string {
    "/" + Join(segments, '/')
  }

  /** Nothing in the joined text but slashes and what the segments hold; no slash at its ends. */
  lemma {:induction false} JoinedPlain(segments: seq<string>)
    requires PlainPath(segments)
    ensures var s := Join(segments, '/');
      && (forall i :: 0 <= i < |s| ==> s[i] !in {'{', '}', '?', '#'} && !IsSpace(s[i]))
      && (s == "" <==> segments == [])
      && (s != "" ==> s[0] != '/' && s[|s| - 1] != '/')
  {
    SlashIsNoSpace();
    hide IsSpace;
    if |segments| == 1 {
      assert PlainText(segments[0]);
    } else if |segments| > 1 {
      assert PlainText(segments[0]);
      assert forall i :: 0 <= i < |segments[1..]| ==> segments[1..][i] == segments[i + 1];
      JoinedPlain(segments[1..]);
    }
  }

  lemma SlashIsNoSpace()
    ensures !IsSpace('/')
  {
  }

  lemma {:induction false} CutNothing(s: string, c: char)
    requires c !in s
    ensures CutAt(s, c) == s
  {
    if s != "" {
      CutNothing(s[1..], c);
    }
  }

  lemma {:induction false} IndexOfNone(s: string, pat: string)
    requires pat != "" && pat[0] !in s
    ensures IndexOf(s, pat) == -1
  {
    if s != "" {
      IndexOfNone(s[1..], pat);
    }
  }

  /** The position found is the first; -1 means there is none. */
  lemma {:induction false} IndexOfIsFirst(s: string, pat: string, k: nat)
    requires k + |pat| <= |s| && s[k..k + |pat|] == pat
    ensures 0 <= IndexOf(s, pat) <= k
  {
    assert k == 0 ==> s[..|pat|] == s[k..k + |pat|];
    if k > 0 && !(pat <= s) {
      assert s[1..][k - 1..k - 1 + |pat|] == s[k..k + |pat|];
      IndexOfIsFirst(s[1..], pat, k - 1);
    }
  }

  lemma StripNothing(s: string)
    requires '{' !in s
    ensures StripVars(s) == s
  {
    hide IndexOf;
    IndexOfNone(s, "{{");
  }

  /** The first template variable is removed wherever it stands. */
  lemma StripsFirst(front: string, name: string, rest: string)
    requires '{' !in front && '}' !in front && '{' !in name && '}' !in name
    ensures StripVars(front + "{{" + name + "}}" + rest) == StripVars(front + rest)
  {
    hide IndexOf;
    var open := "{{" + name;
    var s := front + open + "}}" + rest;
    assert front + "{{" + name + "}}" + rest == s;
    assert s == front + (open + "}}" + rest) && s == (front + open) + ("}}" + rest);
    IndexOfLater(front, open + "}}" + rest, "{{");
    IndexOfLater(front + open, "}}" + rest, "}}");
    assert s[..|front|] == front && s[|front + open| + 2..] == rest;
  }

  /** Slashes are trimmed off both ends, as many as there are. */
  lemma {:induction false} TrimsSlashes(m: nat, core: string, n: nat)
    requires core == "" || (core[0] != '/' && core[|core| - 1] != '/')
    ensures TrimSlashes(seq(m, _ => '/') + core + seq(n, _ => '/')) == core
    decreases m + n
  {
    var s := seq(m, _ => '/') + core + seq(n, _ => '/');
    if m > 0 {
      assert s[1..] == seq(m - 1, _ => '/') + core + seq(n, _ => '/');
      TrimsSlashes(m - 1, core, n);
    } else if n > 0 {
      assert s[..|s| - 1] == seq(m, _ => '/') + core + seq(n - 1, _ => '/');
      assert s[|s| - 1] == '/';
      if core == "" {
        assert s[1..] == s[..|s| - 1];
      }
      TrimsSlashes(m, core, n - 1);
    } else {
      assert s == core;
    }
  }

  lemma TrimPath(segments: seq<string>)
    requires PlainPath(segments)
    ensures TrimSlashes(PathOf(segments)) == Join(segments, '/')
  {
    var core := Join(segments, '/');
    JoinedPlain(segments);
    TrimsSlashes(1, core, 0);
    assert seq(1, _ => '/') + core + seq(0, _ => '/') == "/" + core;
  }

  /** A base path given with or without slashes around it. */
  predicate IsBase(basePath: string, base: string) {
    && (base == "" || (base[0] != '/' && base[|base| - 1] != '/'))
    && basePath in {base, "/" + base, base + "/", "/" + base + "/"}
  }

  lemma TrimBase(basePath: string, base: string)
    requires IsBase(basePath, base)
    ensures TrimSlashes(basePath) == base
  {
    TrimsSlashes(0, base, 0);
    TrimsSlashes(1, base, 0);
    TrimsSlashes(0, base, 1);
    TrimsSlashes(1, base, 1);
    assert seq(1, _ => '/') == "/";
    assert seq(0, _ => '/') + base + seq(0, _ => '/') == base;
    assert seq(1, _ => '/') + base + seq(0, _ => '/') == "/" + base;
    assert seq(0, _ => '/') + base + seq(1, _ => '/') == base + "/";
    assert seq(1, _ => '/') + base + seq(1, _ => '/') == "/" + base + "/";
  }

  /** The parser takes a plain path for what it is, or does not parse it. */
  predicate Keeps(parsedPath: string -> Option<string>, path: string) {
    parsedPath(path) in {None, Some(path)}
  }

  /** The base is not what the path begins with. */
  predicate Outside(base: string, segments: seq<string>) {
    base == "" || !(base <= Join(segments, '/'))
  }

  /** A route's own path is its own normal form, and so is that of a request under {{BASE_URL}}. */
  lemma NormalForms(parsedPath: string -> Option<string>, segments: seq<string>, basePath: string, base: string)
    requires PlainPath(segments) && IsBase(basePath, base) && Outside(base, segments)
    requires Keeps(parsedPath, PathOf(segments))
    ensures NormalizePath(parsedPath, PathOf(segments), basePath) == PathOf(segments)
    ensures NormalizePath(parsedPath, "{{BASE_URL}}" + PathOf(segments), basePath) == PathOf(segments)
  {
    hide TrimSpace, CutAt, StripVars, TrimSlashes, Join, IsSpace;
    var path := PathOf(segments);
    PlainPathText(segments);
    CutNothing(path, '?');
    CutNothing(path, '#');
    StripNothing(path);
    BaseText(path);
    CutNothing("{{BASE_URL}}" + path, '?');
    CutNothing("{{BASE_URL}}" + path, '#');
    StripsLeading("BASE_URL", path);
    TrimBase(basePath, base);
    TrimPath(segments);
    SlashBoth(base, Join(segments, '/'));
  }

  lemma SlashBoth(a: string, b: string)
    ensures "/" + a <= "/" + b <==> a <= b
  {
    assert ("/" + b)[1..] == b && ("/" + a)[1..] == a;
    if "/" + a <= "/" + b {
      assert ("/" + b)[..|"/" + a|] == "/" + a;
      assert forall i :: 0 <= i < |a| ==> a[i] == ("/" + a)[i + 1] == ("/" + b)[i + 1] == b[i];
    }
  }

  lemma PlainPathText(segments: seq<string>)
    requires PlainPath(segments)
    ensures var path := PathOf(segments);
      && '?' !in path && '#' !in path && '{' !in path && TrimSpace(path) == path
      && path != "" && !IsSpace(path[|path| - 1])
  {
    hide IsSpace, TrimSpace, Join;
    JoinedPlain(segments);
    SlashIsNoSpace();
    TrimSpaceFixed(PathOf(segments));
  }

  lemma BaseText(path: string)
    requires path != "" && !IsSpace(path[|path| - 1]) && '?' !in path && '#' !in path
    ensures var s := "{{BASE_URL}}" + path;
      && TrimSpace(s) == s && '?' !in s && '#' !in s && s == "{{" + "BASE_URL" + "}}" + path
      && '{' !in "BASE_URL" && '}' !in "BASE_URL"
  {
    hide TrimSpace;
    TrimSpaceFixed("{{BASE_URL}}" + path);
  }

  lemma {:induction false} NothingEmpty(parts: seq<string>)
    requires forall i :: 0 <= i < |parts| ==> parts[i] != ""
    ensures NonEmpty(parts) == parts
  {
    if parts != [] {
      NothingEmpty(parts[1..]);
    }
  }

  /** Empty parts are left out, the others keep their order. */
  lemma {:induction false} NonEmptyAppend(a: seq<string>, b: seq<string>)
    ensures NonEmpty(a + b) == NonEmpty(a) + NonEmpty(b)
    ensures NonEmpty([""]) == []
  {
    assert [""][1..] == [];
    if a == [] {
      assert a + b == b;
    } else {
      assert (a + b)[0] == a[0] && (a + b)[1..] == a[1..] + b;
      NonEmptyAppend(a[1..], b);
    }
  }

  lemma SegmentsOfPath(segments: seq<string>)
    requires PlainPath(segments)
    ensures SplitSegments(PathOf(segments)) == segments
  {
    hide TrimSlashes, Split, Join;
    TrimPath(segments);
    if segments == [] {
      SplitOne("", '/');
      JoinNothing();
      NonEmptyAppend([], []);
    } else {
      forall i | 0 <= i < |segments| ensures '/' !in segments[i] && segments[i] != "" {
        assert PlainText(segments[i]);
      }
      SplitJoin(segments, '/');
      NothingEmpty(segments);
    }
  }

  lemma JoinNothing()
    ensures Join([], '/') == ""
  {
  }

  // ---------- matching, segment by segment ----------

  predicate SameLetters(s: string, t: string) {
    |s| == |t| && forall k :: 0 <= k < |s| ==> LowerChar(s[k]) == LowerChar(t[k])
  }

  /** At each position one of the two is a parameter, or both are equal up to letter case. */
  ghost predicate Agree(a: seq<string>, b: seq<string>) {
    && |a| == |b|
    && forall i :: 0 <= i < |a| ==> ":" <= a[i] || ":" <= b[i] || SameLetters(a[i], b[i])
  }

  /** Two normal forms match exactly when their segments agree. */
  lemma SegmentsMatchIff(parsedPath: string -> Option<string>, verb: string, routePath: string, basePath: string,
                         hw: Endpoint, a: seq<string>, b: seq<string>)
    requires PlainPath(a) && PlainPath(b)
    requires NormalizePath(parsedPath, routePath, basePath) == PathOf(a)
    requires NormalizePath(parsedPath, hw.rawURL, basePath) == PathOf(b)
    ensures Matches(parsedPath, verb, routePath, basePath, hw) <==> EqualFold(verb, hw.verb) && Agree(a, b)
  {
    hide NormalizePath, SplitSegments, PlainPath, EqualFold, PathOf;
    SegmentsOfPath(a);
    SegmentsOfPath(b);
    if |a| == |b| {
      forall i | 0 <= i < |a|
        ensures SegmentMatches(a[i], b[i]) <==> ":" <= a[i] || ":" <= b[i] || SameLetters(a[i], b[i])
      {
        EqualFoldIff(a[i], b[i]);
      }
    }
  }

  /** A request under {{BASE_URL}} is recognised as a route if and only if the methods are equal up to
      case and the segments agree: at each position a parameter on either side, or the same
      text up to case. */
  lemma MatchesIff(parsedPath: string -> Option<string>, verb: string, hwVerb: string, a: seq<string>, b: seq<string>,
                   basePath: string, base: string)
    requires PlainPath(a) && PlainPath(b) && IsBase(basePath, base) && Outside(base, a) && Outside(base, b)
    requires Keeps(parsedPath, PathOf(a)) && Keeps(parsedPath, PathOf(b))
    ensures Matches(parsedPath, verb, "/" + Join(a, '/'), basePath, Endpoint(hwVerb, "{{BASE_URL}}/" + Join(b, '/')))
       <==> EqualFold(verb, hwVerb) && Agree(a, b)
  {
    hide NormalizePath, PlainPath, Join, Agree, Matches, EqualFold;
    assert "{{BASE_URL}}/" + Join(b, '/') == "{{BASE_URL}}" + PathOf(b);
    NormalForms(parsedPath, a, basePath, base);
    NormalForms(parsedPath, b, basePath, base);
    SegmentsMatchIff(parsedPath, verb, PathOf(a), basePath, Endpoint(hwVerb, "{{BASE_URL}}" + PathOf(b)), a, b);
  }

  lemma UsersPath(name: string)
    ensures Join(["users", ":" + name], '/') == "users/:" + name
  {
    assert ["users", ":" + name][1..] == [":" + name];
    assert "users" + "/" + (":" + name) == "users/:" + name;
  }

  lemma UsersPlain(name: string)
    requires PlainText(name)
    ensures PlainPath(["users", ":" + name])
  {
    assert PlainText("users") && PlainText(":" + name);
  }

  /** The route `/users/:x` recognises a request to `/users/:y`, whatever the two names. */
  lemma OtherNameMatches(parsedPath: string -> Option<string>, x: string, y: string)
    requires PlainText(x) && PlainText(y)
    requires Keeps(parsedPath, "/" + ("users/:" + x)) && Keeps(parsedPath, "/" + ("users/:" + y))
    ensures Matches(parsedPath, "GET", "/" + ("users/:" + x), "", Endpoint("get", "{{BASE_URL}}/" + ("users/:" + y)))
  {
    hide NormalizePath, Matches, Join, PlainText, PlainPath, EqualFold;
    var a, b := ["users", ":" + x], ["users", ":" + y];
    UsersPath(x);
    UsersPath(y);
    UsersPlain(x);
    UsersPlain(y);
    GetFolds();
    MatchesIff(parsedPath, "GET", "get", a, b, "", "");
    assert Agree(a, b) by {
      assert SameLetters(a[0], b[0]);
    }
  }

  lemma GetFolds()
    ensures EqualFold("GET", "get")
  {
    assert ToLower("GET") == ToLower("get");
  }

  /** An absolute url whose path lies under the base path is compared by what follows the base. */
  lemma AbsoluteMatchesIff(parsedPath: string -> Option<string>, verb: string, hwVerb: string, a: seq<string>,
                           b: seq<string>, url: string, basePath: string, base: string)
    requires PlainPath(a) && PlainPath(b) && IsBase(basePath, base) && base != "" && Outside(base, a)
    requires Keeps(parsedPath, PathOf(a)) && parsedPath(url) == Some("/" + base + "/" + Join(b, '/'))
    requires url != "" && !IsSpace(url[0]) && !IsSpace(url[|url| - 1]) && '?' !in url && '#' !in url && '{' !in url
    ensures Matches(parsedPath, verb, "/" + Join(a, '/'), basePath, Endpoint(hwVerb, url))
       <==> EqualFold(verb, hwVerb) && Agree(a, b)
  {
    hide PlainPath, Join, Agree, Matches, EqualFold, TrimSpace, CutAt, StripVars, TrimSlashes, IsSpace;
    NormalForms(parsedPath, a, basePath, base);
    TrimSpaceFixed(url);
    CutNothing(url, '?');
    CutNothing(url, '#');
    StripNothing(url);
    TrimBase(basePath, base);
    var path := "/" + base + "/" + Join(b, '/');
    assert path == ("/" + base) + PathOf(b);
    assert path[|"/" + base|..] == PathOf(b);
    TrimPath(b);
    assert NormalizePath(parsedPath, url, basePath) == PathOf(b);
    hide NormalizePath;
    SegmentsMatchIff(parsedPath, verb, PathOf(a), basePath, Endpoint(hwVerb, url), a, b);
  }

  // ---------- renamed parameters ----------

  /** Same segments but for the names of parameters. */
  predicate Renamed(a: seq<string>, b: seq<string>) {
    && |a| == |b|
    && forall i :: 0 <= i < |a| ==> a[i] == b[i] || (":" <= a[i] && ":" <= b[i])
  }

  /** The file rendered for a route is recognised as the route whose parameters are renamed. */
  lemma RenamedIsRecognised(route: Route, renamed: Route, action: string, snake: string -> string,
                            parsedPath: string -> Option<string>, basePath: string, base: string)
    requires ToLower(route.verb) in {"get", "post", "put", "delete", "patch", "options", "head"}
    requires '\n' !in action && '\n' !in UrlText(route) && !HasSuffix(TrimRight(UrlText(route)), "{")
    requires EqualFold(renamed.verb, route.verb) && Renamed(renamed.FullSegments(), route.FullSegments())
    requires PlainPath(route.FullSegments()) && PlainPath(renamed.FullSegments()) && IsBase(basePath, base)
    requires Outside(base, route.FullSegments()) && Outside(base, renamed.FullSegments())
    requires Keeps(parsedPath, PathOf(route.FullSegments())) && Keeps(parsedPath, PathOf(renamed.FullSegments()))
    ensures var hw := ParseLines(ScanLines(RenderText(route, action, snake)), "");
      hw.Some? && Matches(parsedPath, renamed.verb, "/" + Join(renamed.FullSegments(), '/'), basePath, hw.value)
  {
    var a, b := renamed.FullSegments(), route.FullSegments();
    hide ParseLines, ScanLines, RenderText, UrlText, TrimRight, NormalizePath, Matches, Join, PlainPath, IsSpace;
    hide Route.FullSegments;
    ParsesBack(route, action, snake);
    VerbFolds(route.verb);
    RenderedNormal(route, parsedPath, basePath, base);
    NormalForms(parsedPath, a, basePath, base);
    var hw := Endpoint(ToUpper(ToLower(route.verb)), TrimRight(UrlText(route)));
    SegmentsMatchIff(parsedPath, renamed.verb, PathOf(a), basePath, hw, a, b);
  }

  lemma VerbFolds(verb: string)
    ensures EqualFold(verb, ToUpper(ToLower(verb)))
  {
    var a, b := ToLower(verb), ToLower(ToUpper(ToLower(verb)));
    assert forall i :: 0 <= i < |a| ==> a[i] == b[i];
  }

  /** The normal form of a rendered url: the route's path, whatever its query. */
  lemma RenderedNormal(r: Route, parsedPath: string -> Option<string>, basePath: string, base: string)
    requires PlainPath(r.FullSegments()) && IsBase(basePath, base) && Outside(base, r.FullSegments())
    requires Keeps(parsedPath, PathOf(r.FullSegments()))
    ensures NormalizePath(parsedPath, TrimRight(UrlText(r)), basePath) == PathOf(r.FullSegments())
  {
    hide TrimSpace, CutAt, StripVars, TrimSlashes, Join, IsSpace, TrimRight, QueryString, UrlText;
    var path := PathOf(r.FullSegments());
    BaseFacts(r);
    assert r.UrlPath() == path;
    PlainPathText(r.FullSegments());
    TrimHere(path);
    CutUrl("{{BASE_URL}}", path, QueryString(r));
    CutNothing(path, '?');
    BaseText(path);
    CutNothing("{{BASE_URL}}" + path, '#');
    CutNothing("{{BASE_URL}}" + path, '?');
    NormalForms(parsedPath, r.FullSegments(), basePath, base);
  }
}
