/** Path parameters of a route and the environment variables that stand for them
    (framework/cmd/brunogen/generator/bru.go). */
module BruParams {
  import opened Text

  datatype PathParam = PathParam(name: string, envVar: string)

  function Under(s: string): (r: string)
    ensures |r| == |s| && forall i :: 0 <= i < |s| ==> r[i] == if s[i] == '-' then '_' else s[i]
  {
    seq(|s|, i requires 0 <= i < |s| => if s[i] == '-' then '_' else s[i])
  }

  predicate IsParam(segment: string) {
    ":" <= segment
  }

  function ParamName(segment: string): string {
    if IsParam(segment) then segment[1..] else segment
  }

  predicate IsRedundantPrefix(segment: string, baseVar: string) {
    var s, b := ToUpper(segment), ToUpper(baseVar);
    || s <= b
    || (HasSuffix(s, "S") && s[..|s| - 1] <= b)
    || (HasSuffix(s, "IES") && s[..|s| - 3] + "Y" <= b)
  }

  /** The static segments before the parameter, as variable parts; `snake` is the source's
      snake-case conversion. */
  function StaticParts(snake: string -> string, segments: seq<string>): seq<string> {
    if segments == [] then []
    else
      var front := StaticParts(snake, segments[..|segments| - 1]);
      var s := segments[|segments| - 1];
      if !IsParam(s) && s != "" then front + [ToUpper(snake(Under(s)))] else front
  }

  function DropRedundant(parts: seq<string>, baseVar: string): seq<string> {
    if parts != [] && IsRedundantPrefix(parts[|parts| - 1], baseVar) then DropRedundant(parts[..|parts| - 1], baseVar)
    else parts
  }

  function Dedupe(parts: seq<string>): seq<string> {
    if parts == [] then []
    else
      var front := Dedupe(parts[..|parts| - 1]);
      var s := parts[|parts| - 1];
      if front == [] then [s]
      else
        var last := front[|front| - 1];
        if s == last || IsRedundantPrefix(s, last) || IsRedundantPrefix(last, s) then front else front + [s]
  }

  function EnvVarName(snake: string -> string, segments: seq<string>, index: nat): string
    requires index < |segments|
  {
    var baseVar := ToUpper(snake(Under(ParamName(segments[index]))));
    var staticBefore := StaticParts(snake, segments[..index]);
    if staticBefore == [] then "ROOT_" + baseVar
    else
      var parts := Dedupe(DropRedundant(staticBefore, baseVar));
      if parts == [] then baseVar else Join(parts, '_') + "_" + baseVar
  }

  predicate HasName(params: seq<PathParam>, name: string) {
    exists i :: 0 <= i < |params| && params[i].name == name
  }

  /** The parameters among the first n segments, each name once, named by its first occurrence. */
  function PathParams(snake: string -> string, segments: seq<string>, n: nat): seq<PathParam>
    requires n <= |segments|
  {
    if n == 0 then []
    else
      var front := PathParams(snake, segments, n - 1);
      var s := segments[n - 1];
      if IsParam(s) && !HasName(front, ParamName(s)) then
        front + [PathParam(ParamName(s), EnvVarName(snake, segments, n - 1))]
      else front
  }

  method ExtractPathParams(snake: string -> string, segments: seq<string>) returns (out: seq<PathParam>)
    ensures out == PathParams(snake, segments, |segments|)
    ensures forall i :: 0 <= i < |segments| && IsParam(segments[i]) ==> HasName(out, ParamName(segments[i]))
    ensures forall j, k :: 0 <= j < k < |out| ==> out[j].name != out[k].name
  {
    hide HasName, EnvVarName, ParamName;
    out := [];
    NoNames();
    var seen: set<string> := {};
    for i := 0 to |segments|
      invariant out == PathParams(snake, segments, i)
      invariant forall name :: name in seen <==> HasName(out, name)
      invariant forall j :: 0 <= j < i && IsParam(segments[j]) ==> ParamName(segments[j]) in seen
      invariant forall j, k :: 0 <= j < k < |out| ==> out[j].name != out[k].name
    {
      var s := segments[i];
      if IsParam(s) && ParamName(s) !in seen {
        seen := seen + {ParamName(s)};
        var param := PathParam(ParamName(s), EnvVarName(snake, segments, i));
        HasNameSnoc(out, param);
        out := out + [param];
      }
    }
  }

  lemma NoNames()
    ensures forall name :: !HasName([], name)
  {
  }

  lemma HasNameSnoc(params: seq<PathParam>, p: PathParam)
    ensures forall name :: HasName(params + [p], name) <==> HasName(params, name) || name == p.name
    ensures forall j :: 0 <= j < |params| ==> HasName(params, params[j].name)
  {
    assert (params + [p])[|params|] == p;
    forall name | HasName(params, name) ensures HasName(params + [p], name) {
      var j :| 0 <= j < |params| && params[j].name == name;
      assert (params + [p])[j].name == name;
    }
  }

  // ---------- variable names are made of capitals, digits and underscores ----------

  predicate VarChar(c: char) {
    'A' <= c <= 'Z' || '0' <= c <= '9' || c == '_'
  }

  predicate VarName(s: string) {
    s != "" && forall i :: 0 <= i < |s| ==> VarChar(s[i])
  }

  predicate WordChar(c: char) {
    VarChar(c) || 'a' <= c <= 'z'
  }

  predicate Word(s: string) {
    s != "" && forall i :: 0 <= i < |s| ==> WordChar(s[i])
  }

  /** Words and hyphens, after the colon of a parameter. */
  predicate PlainSegment(s: string) {
    Word(Under(ParamName(s)))
  }

  ghost predicate KeepsWords(snake: string -> string) {
    forall s :: Word(s) ==> Word(snake(s))
  }

  lemma UpperWord(s: string)
    requires Word(s)
    ensures VarName(ToUpper(s))
  {
  }

  lemma {:induction false} StaticPartsAreNames(snake: string -> string, segments: seq<string>)
    requires KeepsWords(snake) && forall i :: 0 <= i < |segments| ==> segments[i] == "" || PlainSegment(segments[i])
    ensures forall i :: 0 <= i < |StaticParts(snake, segments)| ==> VarName(StaticParts(snake, segments)[i])
  {
    if segments != [] {
      StaticPartsAreNames(snake, segments[..|segments| - 1]);
      var s := segments[|segments| - 1];
      if !IsParam(s) && s != "" {
        UpperWord(snake(Under(s)));
      }
    }
  }

  lemma {:induction false} DropRedundantPrefix(parts: seq<string>, baseVar: string)
    ensures DropRedundant(parts, baseVar) <= parts
  {
    if parts != [] {
      DropRedundantPrefix(parts[..|parts| - 1], baseVar);
    }
  }

  lemma {:induction false} DedupeKeepsNames(parts: seq<string>)
    requires forall i :: 0 <= i < |parts| ==> VarName(parts[i])
    ensures forall i :: 0 <= i < |Dedupe(parts)| ==> VarName(Dedupe(parts)[i])
  {
    hide IsRedundantPrefix, VarName;
    if parts != [] {
      DedupeKeepsNames(parts[..|parts| - 1]);
    }
  }

  lemma {:induction false} JoinNames(parts: seq<string>)
    requires parts != [] && forall i :: 0 <= i < |parts| ==> VarName(parts[i])
    ensures VarName(Join(parts, '_'))
  {
    if |parts| > 1 {
      JoinNames(parts[1..]);
    }
  }

  lemma EnvVarIsName(snake: string -> string, segments: seq<string>, index: nat)
    requires index < |segments| && IsParam(segments[index]) && KeepsWords(snake)
    requires forall i :: 0 <= i <= index ==> segments[i] == "" || PlainSegment(segments[i])
    ensures VarName(EnvVarName(snake, segments, index))
  {
    hide Dedupe, DropRedundant, StaticParts, Join;
    UpperWord(snake(Under(ParamName(segments[index]))));
    var baseVar := ToUpper(snake(Under(ParamName(segments[index]))));
    var staticBefore := StaticParts(snake, segments[..index]);
    StaticPartsAreNames(snake, segments[..index]);
    DropRedundantPrefix(staticBefore, baseVar);
    DedupeKeepsNames(DropRedundant(staticBefore, baseVar));
    var parts := Dedupe(DropRedundant(staticBefore, baseVar));
    if parts != [] {
      JoinNames(parts);
    }
  }
}
