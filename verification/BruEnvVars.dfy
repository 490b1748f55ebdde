/** The variables of all path parameters, collected and synced into an environment file
    (framework/cmd/brunogen/generator/bru.go: collectPathParamEnvVars, syncEnvironments). */
module BruEnvVars {
  import opened Text
  import opened BruParams
  import opened BruEnv
  import opened BruEnvPlaces

  /** The variables of all routes' path parameters, each once, before sorting. */
  function CollectVars(snake: string -> string, routes: seq<seq<string>>): seq<string> {
    if routes == [] then []
    else
      var last := routes[|routes| - 1];
      AddNew(CollectVars(snake, routes[..|routes| - 1]), PathParams(snake, last, |last|))
  }

  function AddNew(vars: seq<string>, params: seq<PathParam>): seq<string> {
    if params == [] then vars
    else
      var front := AddNew(vars, params[..|params| - 1]);
      var v := params[|params| - 1].envVar;
      if v in front then front else front + [v]
  }

  method CollectPathParamEnvVars(snake: string -> string, routes: seq<seq<string>>) returns (vars: seq<string>)
    ensures vars == Sort(CollectVars(snake, routes)) && Increasing(vars)
    ensures multiset(vars) == multiset(CollectVars(snake, routes))
  {
    hide PathParams, Sort;
    vars := [];
    for i := 0 to |routes|
      invariant vars == CollectVars(snake, routes[..i])
    {
      assert routes[..i + 1][..i] == routes[..i];
      var params := ExtractPathParams(snake, routes[i]);
      ghost var before := vars;
      for j := 0 to |params|
        invariant vars == AddNew(before, params[..j])
      {
        assert params[..j + 1][..j] == params[..j];
        if params[j].envVar !in vars {
          vars := vars + [params[j].envVar];
        }
      }
      assert params[..|params|] == params;
    }
    assert routes[..|routes|] == routes;
    SortSpec(vars);
    vars := Sort(vars);
  }

  lemma {:induction false} AddNewCovers(vars: seq<string>, params: seq<PathParam>)
    ensures forall v :: v in AddNew(vars, params) <==>
                        v in vars || exists i :: 0 <= i < |params| && params[i].envVar == v
  {
    if params != [] {
      var front := params[..|params| - 1];
      AddNewCovers(vars, front);
      assert forall i :: 0 <= i < |front| ==> front[i] == params[i];
      forall v | v in AddNew(vars, params) && v !in vars
        ensures exists i :: 0 <= i < |params| && params[i].envVar == v
      {
        if v in AddNew(vars, front) {
          var i :| 0 <= i < |front| && front[i].envVar == v;
          assert params[i].envVar == v;
        } else {
          assert params[|params| - 1].envVar == v;
        }
      }
      forall v | exists i :: 0 <= i < |params| && params[i].envVar == v ensures v in AddNew(vars, params) {
        var i :| 0 <= i < |params| && params[i].envVar == v;
        if i < |front| {
          assert front[i].envVar == v;
        }
      }
    }
  }

  lemma {:induction false} CollectCovers(snake: string -> string, routes: seq<seq<string>>, r: nat, pp: PathParam)
    requires r < |routes| && pp in PathParams(snake, routes[r], |routes[r]|)
    ensures pp.envVar in CollectVars(snake, routes)
  {
    hide PathParams;
    var n := |routes| - 1;
    AddNewCovers(CollectVars(snake, routes[..n]), PathParams(snake, routes[n], |routes[n]|));
    if r < n {
      assert routes[..n][r] == routes[r];
      CollectCovers(snake, routes[..n], r, pp);
    } else {
      var params := PathParams(snake, routes[n], |routes[n]|);
      var i :| 0 <= i < |params| && params[i] == pp;
      assert params[i].envVar == pp.envVar;
    }
  }

  /** Segments are words with hyphens, parameters have a leading colon. */
  predicate PlainRoute(segments: seq<string>) {
    forall i :: 0 <= i < |segments| ==> segments[i] == "" || PlainSegment(segments[i])
  }

  lemma {:induction false} ParamsAreNames(snake: string -> string, segments: seq<string>, n: nat)
    requires KeepsWords(snake) && PlainRoute(segments) && n <= |segments|
    ensures forall i :: 0 <= i < |PathParams(snake, segments, n)| ==> VarName(PathParams(snake, segments, n)[i].envVar)
  {
    hide EnvVarName, VarName, HasName, KeepsWords, PlainSegment;
    if n > 0 {
      ParamsAreNames(snake, segments, n - 1);
      if IsParam(segments[n - 1]) {
        EnvVarIsName(snake, segments, n - 1);
      }
    }
  }

  lemma {:induction false} CollectedAreNames(snake: string -> string, routes: seq<seq<string>>)
    requires KeepsWords(snake) && forall r :: 0 <= r < |routes| ==> PlainRoute(routes[r])
    ensures forall v :: v in CollectVars(snake, routes) ==> VarName(v)
  {
    hide PathParams, VarName, KeepsWords, PlainRoute;
    if routes != [] {
      var n := |routes| - 1;
      assert forall r :: 0 <= r < n ==> routes[..n][r] == routes[r];
      CollectedAreNames(snake, routes[..n]);
      ParamsAreNames(snake, routes[n], |routes[n]|);
      AddNewCovers(CollectVars(snake, routes[..n]), PathParams(snake, routes[n], |routes[n]|));
    }
  }

  lemma SameMembers(a: seq<string>, b: seq<string>)
    requires multiset(a) == multiset(b)
    ensures forall v :: v in a <==> v in b
  {
    forall v ensures v in a <==> v in b {
      assert v in a <==> v in multiset(a);
      assert v in b <==> v in multiset(b);
    }
  }

  /** After the sync every placeholder a generated request uses for a path parameter is present in
      the environment file by the sync's own test; one that was absent before stands inside a
      vars block, as long as no one-line block holds just a closing brace. */
  lemma PlaceholdersDefined(snake: string -> string, routes: seq<seq<string>>, content: string, r: nat, pp: PathParam)
    requires KeepsWords(snake) && forall i :: 0 <= i < |routes| ==> PlainRoute(routes[i])
    requires r < |routes| && pp in PathParams(snake, routes[r], |routes[r]|)
    ensures var text := AddMissing(content, Sort(CollectVars(snake, routes))).0;
      && Contains(text, pp.envVar)
      && (!Contains(content, pp.envVar) && NoStrayBrace(Split(content, '\n')) ==> Inside(Split(text, '\n'), pp.envVar))
  {
    hide PathParams, CollectVars, AddMissing, Contains, KeepsWords, PlainRoute;
    hide VarName, NoStrayBrace, Inside, Split, Sort;
    var vars, sorted := CollectVars(snake, routes), Sort(CollectVars(snake, routes));
    CollectCovers(snake, routes, r, pp);
    CollectedAreNames(snake, routes);
    SortSpec(vars);
    SameMembers(sorted, vars);
    forall i | 0 <= i < |sorted| ensures VarName(sorted[i]) {
      assert sorted[i] in sorted;
    }
    SyncCompletes(content, sorted);
    if !Contains(content, pp.envVar) && NoStrayBrace(Split(content, '\n')) {
      var _, _ := InsertedInside(content, sorted, pp.envVar);
    }
  }
}
