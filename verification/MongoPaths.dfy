/** When the `visited` guard of the walk shapes what a struct contributes
    (framework/cmd/mongogen/parser/parser.go, extractFields): reachability between the structs of
    a file, and the paths on which the walk meets a named use of a struct. */
module MongoPaths {
  import opened MongoParser

  // ---------- references between structs ----------

  predicate Embeds(d: FieldDecl, t: string) {
    d.names == [] && d.typ == Ident(t)
  }

  /** A declaration that yields fields of struct type t; a `-` tag drops all its names. */
  predicate Names(d: FieldDecl, t: string) {
    d.names != [] && d.bsonTag != "-" && NestedStructName(d.typ) == t && t != "" && t != "ModelBase"
  }

  predicate Refers(d: FieldDecl, t: string) {
    Embeds(d, t) || Names(d, t)
  }

  ghost predicate Edge(m: StructMap, s: string, t: string) {
    s in m && t in m && exists i :: 0 <= i < |m[s]| && Refers(m[s][i], t)
  }

  ghost predicate Leads(m: StructMap, s: string, t: string, n: nat)
    decreases n
  {
    if n == 0 then s == t else exists u :: Edge(m, s, u) && Leads(m, u, t, n - 1)
  }

  ghost predicate Reaches(m: StructMap, s: string, t: string) {
    exists n: nat :: Leads(m, s, t, n)
  }

  lemma ReachStep(m: StructMap, s: string, u: string, t: string)
    requires Edge(m, s, u) && Reaches(m, u, t)
    ensures Reaches(m, s, t)
  {
    var n: nat :| Leads(m, u, t, n);
    assert Leads(m, s, t, n + 1);
  }

  // ---------- visited structs out of reach do not matter ----------

  ghost predicate Agree(m: StructMap, s: string, v: set<string>, w: set<string>) {
    forall t :: Reaches(m, s, t) ==> (t in v <==> t in w)
  }

  ghost predicate AgreeOn(m: StructMap, d: FieldDecl, v: set<string>, w: set<string>) {
    forall t :: Refers(d, t) && t in m ==> Agree(m, t, v, w)
  }

  lemma AgreeInside(m: StructMap, s: string, v: set<string>, w: set<string>)
    requires s in m && Agree(m, s, v, w)
    ensures forall i :: 0 <= i < |m[s]| ==> AgreeOn(m, m[s][i], v + {s}, w + {s})
  {
    forall i, t, x | 0 <= i < |m[s]| && Refers(m[s][i], t) && t in m && Reaches(m, t, x)
      ensures x in v + {s} <==> x in w + {s}
    {
      assert Edge(m, s, t);
      ReachStep(m, s, t, x);
    }
  }

  /** Two visited sets that agree on everything within reach give the same outline. */
  lemma {:induction false} VisitedIrrelevant(p: Parser, m: StructMap, decls: Struct, v: set<string>, w: set<string>)
    requires forall i :: 0 <= i < |decls| ==> AgreeOn(m, decls[i], v, w)
    ensures Outline(p, m, decls, v) == Outline(p, m, decls, w)
    decreases |m.Keys - v|, 3, |decls|
  {
    hide OutlineDecl, AgreeOn;
    if decls != [] {
      DeclVisitedIrrelevant(p, m, decls[0], v, w);
      VisitedIrrelevant(p, m, decls[1..], v, w);
    }
  }

  lemma {:induction false} DeclVisitedIrrelevant(p: Parser, m: StructMap, d: FieldDecl, v: set<string>, w: set<string>)
    requires AgreeOn(m, d, v, w)
    ensures OutlineDecl(p, m, d, v) == OutlineDecl(p, m, d, w)
    decreases |m.Keys - v|, 2
  {
    hide Outline, OutlineNames, KnownEmbedFields, Agree;
    if d.names != [] {
      NamesVisitedIrrelevant(p, m, d, d.names, v, w);
    } else if d.typ.Ident? && d.typ.name in m {
      assert Refers(d, d.typ.name);
      StructVisitedIrrelevant(p, m, d.typ.name, v, w);
    }
  }

  lemma {:induction false} StructVisitedIrrelevant(p: Parser, m: StructMap, s: string, v: set<string>, w: set<string>)
    requires s in m && Agree(m, s, v, w)
    ensures s in v <==> s in w
    ensures s !in v ==> Outline(p, m, m[s], v + {s}) == Outline(p, m, m[s], w + {s})
    decreases |m.Keys - v|, 0
  {
    hide Outline;
    assert Leads(m, s, s, 0);
    if s !in v {
      AgreeInside(m, s, v, w);
      Shrinks(m, v, s);
      VisitedIrrelevant(p, m, m[s], v + {s}, w + {s});
    }
  }

  lemma {:induction false} NamesVisitedIrrelevant(p: Parser, m: StructMap, d: FieldDecl, names: seq<string>,
                                                  v: set<string>, w: set<string>)
    requires d.names != [] && AgreeOn(m, d, v, w)
    ensures OutlineNames(p, m, d, names, v) == OutlineNames(p, m, d, names, w)
    decreases |m.Keys - v|, 1, |names|
  {
    hide Outline, NestedStructName, Agree;
    if names != [] {
      NamesVisitedIrrelevant(p, m, d, names[1..], v, w);
      var nested := NestedStructName(d.typ);
      if d.bsonTag != "-" && nested != "" && nested != "ModelBase" && nested in m {
        assert Refers(d, nested);
        StructVisitedIrrelevant(p, m, nested, v, w);
      }
    }
  }

  // ---------- visiting more never adds ----------

  function Total(fields: seq<FieldMeta>): nat
    decreases fields
  {
    if fields == [] then 0 else 1 + Total(fields[0].subFields) + Total(fields[1..])
  }

  /** Fields a list of nodes yields, at any depth. */
  function Count(nodes: seq<Node>): nat
    decreases nodes
  {
    if nodes == [] then 0
    else
      1 + (match nodes[0] case Fixed(f) => Total(f.subFields) case Own(_, _, _, subs) => Count(subs))
      + Count(nodes[1..])
  }

  lemma {:induction false} CountAppend(a: seq<Node>, b: seq<Node>)
    ensures Count(a + b) == Count(a) + Count(b)
  {
    if a == [] {
      assert a + b == b;
    } else {
      assert (a + b)[0] == a[0] && (a + b)[1..] == a[1..] + b;
      CountAppend(a[1..], b);
    }
  }

  /** The file declares neither of the two types whose fields are synthesized. */
  predicate NoOwnEmbeds(m: StructMap) {
    "ModelBase" !in m && "WithUserID" !in m
  }

  lemma {:induction false} CountMono(p: Parser, m: StructMap, decls: Struct, v: set<string>, w: set<string>)
    requires NoOwnEmbeds(m) && w <= v
    ensures Count(Outline(p, m, decls, v)) <= Count(Outline(p, m, decls, w))
    decreases |m.Keys - v|, 3, |decls|
  {
    hide OutlineDecl, Count;
    if decls != [] {
      DeclCountMono(p, m, decls[0], v, w);
      CountMono(p, m, decls[1..], v, w);
      CountAppend(OutlineDecl(p, m, decls[0], v), Outline(p, m, decls[1..], v));
      CountAppend(OutlineDecl(p, m, decls[0], w), Outline(p, m, decls[1..], w));
    }
  }

  lemma {:induction false} DeclCountMono(p: Parser, m: StructMap, d: FieldDecl, v: set<string>, w: set<string>)
    requires NoOwnEmbeds(m) && w <= v
    ensures Count(OutlineDecl(p, m, d, v)) <= Count(OutlineDecl(p, m, d, w))
    decreases |m.Keys - v|, 2
  {
    hide Outline, OutlineNames;
    if d.names != [] {
      NamesCountMono(p, m, d, d.names, v, w);
    } else if d.typ.Ident? && d.typ.name in m && d.typ.name !in v {
      Shrinks(m, v, d.typ.name);
      CountMono(p, m, m[d.typ.name], v + {d.typ.name}, w + {d.typ.name});
    }
  }

  lemma {:induction false} NamesCountMono(p: Parser, m: StructMap, d: FieldDecl, names: seq<string>,
                                          v: set<string>, w: set<string>)
    requires NoOwnEmbeds(m) && w <= v
    ensures Count(OutlineNames(p, m, d, names, v)) <= Count(OutlineNames(p, m, d, names, w))
    decreases |m.Keys - v|, 1, |names|
  {
    hide Outline, NestedStructName, ParseBsonKey;
    if names != [] {
      NamesCountMono(p, m, d, names[1..], v, w);
      var nested := NestedStructName(d.typ);
      if Descends(m, nested, v) {
        Shrinks(m, v, nested);
        CountMono(p, m, m[nested], v + {nested}, w + {nested});
      }
      CountName(p, m, d, names, v);
      CountName(p, m, d, names, w);
    }
  }

  function Below(p: Parser, m: StructMap, nested: string, visited: set<string>): seq<Node> {
    if Descends(m, nested, visited) then Outline(p, m, m[nested], visited + {nested}) else []
  }

  /** What one name adds to the count. */
  lemma CountName(p: Parser, m: StructMap, d: FieldDecl, names: seq<string>, v: set<string>)
    requires names != []
    ensures Count(OutlineNames(p, m, d, names, v)) == Count(OutlineNames(p, m, d, names[1..], v))
      + (if ParseBsonKey(p, d.bsonTag, names[0]).Some? then 1 + Count(Below(p, m, NestedStructName(d.typ), v)) else 0)
  {
    hide Outline, NestedStructName, ParseBsonKey, Descends;
    var here := OutlineName(p, m, d, names[0], v);
    CountAppend(here, OutlineNames(p, m, d, names[1..], v));
    if here != [] {
      assert here[1..] == [];
    }
  }

  // ---------- a visited struct within reach takes fields away ----------

  /** Looking into the struct t finds strictly less with v than with w. */
  ghost predicate Less(p: Parser, m: StructMap, t: string, v: set<string>, w: set<string>) {
    && t in m && t !in w
    && (if t in v then Outline(p, m, m[t], w + {t}) != []
        else Count(Outline(p, m, m[t], v + {t})) < Count(Outline(p, m, m[t], w + {t})))
  }

  lemma {:induction false} LessAbove(p: Parser, m: StructMap, decls: Struct, i: nat, t: string, v: set<string>,
                                     w: set<string>)
    requires NoOwnEmbeds(m) && w <= v && i < |decls| && Refers(decls[i], t) && Less(p, m, t, v, w)
    ensures Count(Outline(p, m, decls, v)) < Count(Outline(p, m, decls, w))
    decreases |decls|
  {
    hide OutlineDecl, Count, Refers, Less;
    DeclCountMono(p, m, decls[0], v, w);
    CountMono(p, m, decls[1..], v, w);
    CountAppend(OutlineDecl(p, m, decls[0], v), Outline(p, m, decls[1..], v));
    CountAppend(OutlineDecl(p, m, decls[0], w), Outline(p, m, decls[1..], w));
    if i == 0 {
      DeclLess(p, m, decls[0], t, v, w);
    } else {
      LessAbove(p, m, decls[1..], i - 1, t, v, w);
    }
  }

  lemma DeclLess(p: Parser, m: StructMap, d: FieldDecl, t: string, v: set<string>, w: set<string>)
    requires NoOwnEmbeds(m) && w <= v && Refers(d, t) && Less(p, m, t, v, w)
    ensures Count(OutlineDecl(p, m, d, v)) < Count(OutlineDecl(p, m, d, w))
  {
    hide Outline, OutlineNames;
    if d.names != [] {
      NamesLess(p, m, d, d.names, t, v, w);
    }
  }

  lemma {:induction false} NamesLess(p: Parser, m: StructMap, d: FieldDecl, names: seq<string>, t: string,
                                     v: set<string>, w: set<string>)
    requires NoOwnEmbeds(m) && w <= v && names != [] && Names(d, t) && Less(p, m, t, v, w)
    ensures Count(OutlineNames(p, m, d, names, v)) < Count(OutlineNames(p, m, d, names, w))
    decreases |names|
  {
    hide Outline, NestedStructName, OutlineNames;
    CountName(p, m, d, names, v);
    CountName(p, m, d, names, w);
    if |names| > 1 {
      NamesLess(p, m, d, names[1..], t, v, w);
    } else {
      assert names[1..] == [];
      assert forall x :: OutlineNames(p, m, d, [], x) == [] by { NoNames(p, m, d); }
    }
  }

  lemma NoNames(p: Parser, m: StructMap, d: FieldDecl)
    ensures forall x :: OutlineNames(p, m, d, [], x) == []
  {
  }

  /** Every struct of `above` still yields something when no other struct of `above` is visited. */
  ghost predicate Lively(p: Parser, m: StructMap, above: set<string>) {
    forall t, w :: t in above && w * above == {t} ==> t in m && Outline(p, m, m[t], w) != []
  }

  /** From nothing in w can a struct of `above` be reached in fewer than n steps. */
  ghost predicate Far(m: StructMap, w: set<string>, above: set<string>, n: nat) {
    forall x, t, k: nat :: x in w && t in above && Leads(m, x, t, k) ==> k >= n
  }

  lemma EdgeLeads(m: StructMap, s: string, t: string)
    requires Edge(m, s, t)
    ensures Leads(m, s, t, 1)
  {
    assert Leads(m, t, t, 0);
  }

  /** Down a shortest way from s to a struct of `above`, nothing is met twice. */
  lemma {:induction false} TangleLess(p: Parser, m: StructMap, s: string, above: set<string>, w: set<string>,
                                      t: string, n: nat)
    requires NoOwnEmbeds(m) && Lively(p, m, above) && above * w == {} && s in w && s in m
    requires t in above && Leads(m, s, t, n) && Far(m, w, above, n)
    ensures Count(Outline(p, m, m[s], above + w)) < Count(Outline(p, m, m[s], w))
    decreases n
  {
    hide Outline, Count, Refers;
    assert t !in w by {
      assert t !in above * w;
    }
    var u :| Edge(m, s, u) && Leads(m, u, t, n - 1);
    var i :| 0 <= i < |m[s]| && Refers(m[s][i], u);
    if n == 1 {
      assert (w + {u}) * above == {u};
    } else {
      EdgeLeads(m, s, u);
      forall x, y, k: nat | x in w + {u} && y in above && Leads(m, x, y, k) ensures k >= n - 1 {
        if x == u {
          assert Leads(m, s, y, k + 1);
        }
      }
      TangleLess(p, m, u, above, w + {u}, t, n - 1);
      assert above + (w + {u}) == above + w + {u};
    }
    LessAbove(p, m, m[s], i, u, above + w, w);
  }

  // ---------- the paths of the walk ----------

  function Elems(path: seq<string>): set<string> { set x | x in path }

  /** Distinct structs, each referring to the next. */
  ghost predicate Chain(m: StructMap, path: seq<string>) {
    && (forall i :: 0 <= i < |path| ==> path[i] in m)
    && (forall i, j :: 0 <= i < j < |path| ==> path[i] != path[j])
    && (forall i :: 0 < i < |path| ==> Edge(m, path[i - 1], path[i]))
  }

  ghost predicate NamedFrom(m: StructMap, u: string, s: string) {
    u in m && s in m && exists i :: 0 <= i < |m[u]| && Names(m[u][i], s)
  }

  /** The walk from target a meets, past the structs of `path`, a named field of struct s. */
  ghost predicate IsPath(m: StructMap, a: string, path: seq<string>, s: string) {
    && path != [] && path[0] == a && Chain(m, path) && s !in path
    && NamedFrom(m, path[|path| - 1], s)
  }

  /** No struct above the use can be reached back from it. */
  ghost predicate Untangled(m: StructMap, path: seq<string>, s: string) {
    forall v :: v in path ==> !Reaches(m, s, v)
  }

  lemma NamedIsNotEmpty(p: Parser, m: StructMap, decls: Struct, i: nat, s: string, w: set<string>)
    requires i < |decls| && Names(decls[i], s)
    ensures Outline(p, m, decls, w) != []
    decreases |decls|
  {
    hide OutlineDecl, Names;
    if i == 0 {
      DeclNotEmpty(p, m, decls[0], s, w);
    } else {
      NamedIsNotEmpty(p, m, decls[1..], i - 1, s, w);
    }
  }

  lemma DeclNotEmpty(p: Parser, m: StructMap, d: FieldDecl, s: string, w: set<string>)
    requires Names(d, s)
    ensures OutlineDecl(p, m, d, w) != []
  {
    hide Outline, NestedStructName;
    assert OutlineName(p, m, d, d.names[0], w) != [];
  }

  lemma EmbeddedIsNotEmpty(p: Parser, m: StructMap, decls: Struct, i: nat, t: string, w: set<string>)
    requires i < |decls| && Embeds(decls[i], t) && t in m && t !in w && Outline(p, m, m[t], w + {t}) != []
    ensures Outline(p, m, decls, w) != []
    decreases |decls|
  {
    hide OutlineDecl, Embeds;
    if i == 0 {
      EmbedNotEmpty(p, m, decls[0], t, w);
    } else {
      EmbeddedIsNotEmpty(p, m, decls[1..], i - 1, t, w);
    }
  }

  lemma EmbedNotEmpty(p: Parser, m: StructMap, d: FieldDecl, t: string, w: set<string>)
    requires Embeds(d, t) && t in m && t !in w && Outline(p, m, m[t], w + {t}) != []
    ensures OutlineDecl(p, m, d, w) != []
  {
    hide Outline;
  }

  /** A struct on the path yields something as long as those after it are not visited: it names
      a field, or embeds the next one. */
  lemma {:induction false} OnPathNotEmpty(p: Parser, m: StructMap, a: string, path: seq<string>, s: string, i: nat,
                                          w: set<string>)
    requires IsPath(m, a, path, s) && i < |path| && forall j :: i < j < |path| ==> path[j] !in w
    ensures Outline(p, m, m[path[i]], w) != []
    decreases |path| - i
  {
    hide Outline, Names, Embeds;
    var u := path[i];
    if i == |path| - 1 {
      var k :| 0 <= k < |m[u]| && Names(m[u][k], s);
      NamedIsNotEmpty(p, m, m[u], k, s, w);
    } else {
      var next := path[i + 1];
      assert Edge(m, path[i + 1 - 1], path[i + 1]);
      var k :| 0 <= k < |m[u]| && Refers(m[u][k], next);
      if Names(m[u][k], next) {
        NamedIsNotEmpty(p, m, m[u], k, next, w);
      } else {
        OnPathNotEmpty(p, m, a, path, s, i + 1, w + {next});
        EmbeddedIsNotEmpty(p, m, m[u], k, next, w);
      }
    }
  }

  lemma PathIsLively(p: Parser, m: StructMap, a: string, path: seq<string>, s: string)
    requires IsPath(m, a, path, s)
    ensures Lively(p, m, Elems(path))
  {
    hide Outline, NamedFrom;
    forall t, w | t in Elems(path) && w * Elems(path) == {t} ensures t in m && Outline(p, m, m[t], w) != [] {
      var i :| 0 <= i < |path| && path[i] == t;
      forall j | i < j < |path| ensures path[j] !in w {
        assert path[j] in Elems(path) && path[j] !in w * Elems(path);
      }
      OnPathNotEmpty(p, m, a, path, s, i, w);
    }
  }

  /** Some struct of `above` at the least distance from s. */
  lemma {:induction false} Nearest(m: StructMap, s: string, above: set<string>, t: string, n: nat)
    returns (u: string, k: nat)
    requires t in above && Leads(m, s, t, n)
    ensures u in above && Leads(m, s, u, k) && Far(m, {s}, above, k)
    decreases n
  {
    if x, j: nat :| x in above && Leads(m, s, x, j) && j < n {
      u, k := Nearest(m, s, above, x, j);
    } else {
      u, k := t, n;
    }
  }

  /** A named use of s, met on a path, has exactly the fields s has on its own if and only if no
      struct of the path is within reach of s; otherwise it has strictly fewer. */
  lemma OwnOutlineIff(p: Parser, m: StructMap, a: string, path: seq<string>, s: string)
    requires IsPath(m, a, path, s)
    ensures Untangled(m, path, s) ==> Outline(p, m, m[s], Elems(path) + {s}) == Outline(p, m, m[s], {s})
    ensures NoOwnEmbeds(m) && !Untangled(m, path, s) ==>
      Count(Outline(p, m, m[s], Elems(path) + {s})) < Count(Outline(p, m, m[s], {s}))
  {
    hide Outline, Count, Refers;
    var above := Elems(path);
    if Untangled(m, path, s) {
      forall i, t, x | 0 <= i < |m[s]| && Refers(m[s][i], t) && t in m && Reaches(m, t, x)
        ensures x in above + {s} <==> x in {s}
      {
        assert Edge(m, s, t);
        ReachStep(m, s, t, x);
      }
      VisitedIrrelevant(p, m, m[s], above + {s}, {s});
    } else if NoOwnEmbeds(m) {
      var v :| v in path && Reaches(m, s, v);
      var n: nat :| Leads(m, s, v, n);
      var t, k := Nearest(m, s, above, v, n);
      PathIsLively(p, m, a, path, s);
      assert above * {s} == {};
      TangleLess(p, m, s, above, {s}, t, k);
    }
  }

  // ---------- files without tangles ----------

  ghost predicate UntangledFile(m: StructMap, targets: seq<string>) {
    forall i, path, s :: 0 <= i < |targets| && IsPath(m, targets[i], path, s) ==> Untangled(m, path, s)
  }

  /** Two different structs never reach each other; a struct may refer to itself. */
  ghost predicate NoMutual(m: StructMap) {
    forall s, t :: s in m && t in m && Reaches(m, s, t) && Reaches(m, t, s) ==> s == t
  }

  lemma {:induction false} PathLeads(m: StructMap, a: string, path: seq<string>, s: string, i: nat)
    requires IsPath(m, a, path, s) && i < |path|
    ensures Reaches(m, path[i], s)
    decreases |path| - i
  {
    if i == |path| - 1 {
      assert Edge(m, path[i], s);
      assert Leads(m, s, s, 0);
      assert Reaches(m, s, s);
      ReachStep(m, path[i], s, s);
    } else {
      PathLeads(m, a, path, s, i + 1);
      assert Edge(m, path[i + 1 - 1], path[i + 1]);
      ReachStep(m, path[i], path[i + 1], s);
    }
  }

  lemma NoMutualIsUntangled(m: StructMap, targets: seq<string>)
    requires NoMutual(m)
    ensures UntangledFile(m, targets)
  {
    forall i, path, s, v | 0 <= i < |targets| && IsPath(m, targets[i], path, s) && v in path
      ensures !Reaches(m, s, v)
    {
      var k :| 0 <= k < |path| && path[k] == v;
      PathLeads(m, targets[i], path, s, k);
    }
  }

  /** So it is enough that every reference leads back to its own struct or to one of lower rank. */
  lemma RankedIsNoMutual(m: StructMap, rank: string -> nat)
    requires forall s, t :: Edge(m, s, t) ==> s == t || rank(t) < rank(s)
    ensures NoMutual(m)
  {
    hide Edge;
    forall s, t | s in m && t in m && Reaches(m, s, t) && Reaches(m, t, s) ensures s == t {
      var n: nat :| Leads(m, s, t, n);
      var k: nat :| Leads(m, t, s, k);
      LeadsDown(m, rank, s, t, n);
      LeadsDown(m, rank, t, s, k);
    }
  }

  lemma {:induction false} LeadsDown(m: StructMap, rank: string -> nat, s: string, t: string, n: nat)
    requires forall x, y :: Edge(m, x, y) ==> x == y || rank(y) < rank(x)
    requires Leads(m, s, t, n)
    ensures s == t || rank(t) < rank(s)
    decreases n
  {
    hide Edge;
    if n > 0 {
      var u :| Edge(m, s, u) && Leads(m, u, t, n - 1);
      LeadsDown(m, rank, u, t, n - 1);
    }
  }
}
