/** Files on which one declaration is not enough, or too many are made
    (framework/cmd/mongogen/parser/parser.go, framework/cmd/mongogen/generator/generator.go). */
module MongoExamples {
  import opened Options
  import opened MongoParser
  import opened MongoPaths
  import opened MongoShapes
  import opened MongoGenerator

  const LEAF: FieldDecl := FieldDecl(["V"], Ident("int"), "v")

  /** The field a declaration `key` of a struct holding only LEAF yields. */
  function NestedField(p: Parser, goName: string, typ: TypeExpr, key: string): FieldMeta {
    MakeField(p, goName, typ, key, [MakeField(p, "V", Ident("int"), JoinKey(key, "v"), [])])
  }

  /** A struct nested once by value and once through a pointer: the kept declaration embeds a
      field of the first type and does not fit the second use. */
  lemma PointerUseMisfits(snake: string -> string)
    ensures var p := Parser("", "", "", snake);
            var m := map["A" := [FieldDecl(["X"], Ident("B"), "x"), FieldDecl(["Y"], Star(Ident("B")), "y")],
                         "B" := [LEAF]];
            var fields := Fields(p, m, "A");
            var decls := Collect(fields, "", {}).0;
      |fields| == 2 && |decls| == 1 && fields[1].subFields != []
      && decls[0].typeName == fields[1].nestedTypeName && !Fits(decls[0], fields[1])
  {
    var p := Parser("", "", "", snake);
    var x, y := FieldDecl(["X"], Ident("B"), "x"), FieldDecl(["Y"], Star(Ident("B")), "y");
    var m := map["A" := [x, y], "B" := [LEAF]];
    var fx, fy := NestedField(p, "X", x.typ, "x"), NestedField(p, "Y", y.typ, "y");
    TwoFields(p, m, x, y);
    var fields := Fields(p, m, "A");
    assert fields == [fx, fy];
    TypesOf(p);
    CollectTwo(fx, fy);
  }

  lemma TypesOf(p: Parser)
    requires p.targetPackage == ""
    ensures var x, y := NestedField(p, "X", Ident("B"), "x"), NestedField(p, "Y", Star(Ident("B")), "y");
      x.goType == "B" && y.goType == "*B" && x.nestedTypeName == y.nestedTypeName
  {
  }

  lemma TwoFields(p: Parser, m: StructMap, x: FieldDecl, y: FieldDecl)
    requires x == FieldDecl(["X"], Ident("B"), "x") && y == FieldDecl(["Y"], Star(Ident("B")), "y")
    requires m == map["A" := [x, y], "B" := [LEAF]]
    ensures Fields(p, m, "A") == [NestedField(p, "X", x.typ, "x"), NestedField(p, "Y", y.typ, "y")]
  {
    hide TypeName, MakeField;
    assert "A" != "B" && m["A"] == [x, y] && "int" !in m by { assert |"int"| == 3; }
    NestedOne(p, m, x, "X", "x", {"A"});
    NestedOne(p, m, y, "Y", "y", {"A"});
    assert [x, y][1..] == [y];
  }

  lemma NestedOne(p: Parser, m: StructMap, d: FieldDecl, name: string, key: string, visited: set<string>)
    requires d.names == [name] && NestedStructName(d.typ) == "B"
    requires d.bsonTag == key && |key| == 1 && key[0] != ',' && key[0] != '-'
    requires "B" in m && m["B"] == [LEAF] && "B" !in visited && "int" !in m
    ensures ExtractDecl(p, m, d, "", visited) == [NestedField(p, name, d.typ, key)]
    ensures Extract(p, m, [d], "", visited) == [NestedField(p, name, d.typ, key)]
  {
    hide TypeName, MakeField;
    assert FirstPart(key) == key;
    OneName(p, m, d, name, "", visited);
    assert FirstPart("v") == "v";
    LeafOnly(p, m, key, visited + {"B"});
  }

  lemma LeafOnly(p: Parser, m: StructMap, key: string, visited: set<string>)
    requires "int" !in m
    ensures Extract(p, m, [LEAF], key, visited) == [MakeField(p, "V", Ident("int"), JoinKey(key, "v"), [])]
  {
    hide TypeName, MakeField;
    assert FirstPart("v") == "v";
    OneName(p, m, LEAF, "V", key, visited);
  }

  lemma CollectTwo(x: FieldMeta, y: FieldMeta)
    requires |x.subFields| == 1 && x.subFields[0].subFields == []
    requires |y.subFields| == 1 && y.subFields[0].subFields == []
    requires x.nestedTypeName == y.nestedTypeName
    ensures Collect([x, y], "", {}).0 == [DeclOf(x, "")]
  {
    LeafCollect(x.subFields, "", {});
    LeafCollect(y.subFields, "", {x.nestedTypeName});
    assert [x, y][1..] == [y] && [y][1..] == [];
    assert {} + {x.nestedTypeName} == {x.nestedTypeName} && [] + [DeclOf(x, "")] == [DeclOf(x, "")];
    assert CollectOne(x, "", {}) == ([DeclOf(x, "")], {x.nestedTypeName});
    assert CollectOne(y, "", {x.nestedTypeName}) == ([], {x.nestedTypeName});
    assert Collect([y], "", {x.nestedTypeName}).0 == [];
    assert [DeclOf(x, "")] + [] == [DeclOf(x, "")];
  }

  lemma LeafCollect(fields: seq<FieldMeta>, pkg: string, seen: set<string>)
    requires |fields| == 1 && fields[0].subFields == []
    ensures Collect(fields, pkg, seen) == ([], seen)
  {
    assert fields[1..] == [];
    var none: seq<NestedType> := [];
    assert none + none == none;
  }

  /** A declaration with one name. */
  lemma OneName(p: Parser, m: StructMap, d: FieldDecl, name: string, parentKey: string, visited: set<string>)
    requires d.names == [name]
    ensures ExtractDecl(p, m, d, parentKey, visited) == ExtractName(p, m, d, name, parentKey, visited)
    ensures Extract(p, m, [d], parentKey, visited) == ExtractName(p, m, d, name, parentKey, visited)
  {
    hide ExtractName;
    assert d.names[1..] == [] && [d][1..] == [];
    var here := ExtractName(p, m, d, name, parentKey, visited);
    assert ExtractNames(p, m, d, d.names[1..], parentKey, visited) == [];
    assert ExtractNames(p, m, d, d.names, parentKey, visited) == here + [] == here;
    assert Extract(p, m, [d][1..], parentKey, visited) == [];
    assert Extract(p, m, [d], parentKey, visited) == ExtractDecl(p, m, d, parentKey, visited) + [];
  }

  function Link(target: string): FieldDecl { FieldDecl(["N"], Star(Ident(target)), "n") }

  lemma LinkField(p: Parser, m: StructMap, target: string, parentKey: string, visited: set<string>)
    requires target in m && |target| == 1
    ensures var key := JoinKey(parentKey, "n");
      Extract(p, m, [Link(target)], parentKey, visited) ==
        [MakeField(p, "N", Star(Ident(target)), key,
                   if target in visited then [] else Extract(p, m, m[target], key, visited + {target}))]
  {
    hide TypeName, MakeField;
    assert FirstPart("n") == "n" && "n"[0] == 'n';
    assert ParseBsonKey(p, "n", "N") == Some("n");
    assert NestedStructName(Star(Ident(target))) == target && |"ModelBase"| == 9;
    assert Descends(m, target, visited) <==> target !in visited;
    OneName(p, m, Link(target), "N", parentKey, visited);
  }

  /** On a cyclic file `visited` does shape the result: two models can use one nested type name
      for different field sets. Here A and B point at each other and C points at B. */
  lemma CyclicUsesDisagree(p: Parser)
    ensures var m := map["A" := [Link("B")], "B" := [Link("A")], "C" := [Link("B")]];
            var fromA, fromC := Fields(p, m, "A"), Fields(p, m, "C");
      |fromA| == |fromC| == 1 && fromA[0].subFields != [] && fromC[0].subFields != []
      && fromA[0].nestedTypeName == fromC[0].nestedTypeName
      && Erase(fromA[0].subFields) != Erase(fromC[0].subFields)
  {
    hide TypeName, ModelName;
    var a, b, c := "A", "B", "C";
    assert a[0] == 'A' && b[0] == 'B' && c[0] == 'C';
    assert a != b && b != c && a != c;
    var m := map[a := [Link(b)], b := [Link(a)], c := [Link(b)]];
    LinkField(p, m, b, "", {a});
    LinkField(p, m, a, "n", {a} + {b});
    LinkField(p, m, b, "", {c});
    LinkField(p, m, a, "n", {c} + {b});
    LinkField(p, m, b, "n.n", {c} + {b} + {a});
    var fromA, fromC := Fields(p, m, a), Fields(p, m, c);
    assert fromA[0].subFields[0].subFields == [];
    assert JoinKey("n", "n") == "n.n";
    assert fromC[0].subFields[0].subFields != [];
    assert Erase(fromA[0].subFields)[0].subFields == Erase([]);
    assert |Erase(fromC[0].subFields)[0].subFields| == |fromC[0].subFields[0].subFields|;
  }

  /** Structs whose fields are all plain yield one field a declaration. */
  lemma {:induction false} PlainOutline(p: Parser, m: StructMap, decls: Struct, v: set<string>)
    requires forall i :: 0 <= i < |decls| ==>
      |decls[i].names| == 1 && decls[i].bsonTag != "-" && NestedStructName(decls[i].typ) !in m
    ensures |Outline(p, m, decls, v)| == |decls|
  {
    hide NestedStructName;
    if decls != [] {
      var d := decls[0];
      assert d.names[1..] == [];
      assert |OutlineName(p, m, d, d.names[0], v)| == 1;
      assert OutlineNames(p, m, d, d.names[1..], v) == [];
      assert OutlineDecl(p, m, d, v) == OutlineName(p, m, d, d.names[0], v) + [];
      PlainOutline(p, m, decls[1..], v);
    }
  }

  /** A struct X and a struct XModel in one file: two fields of one model use one type name for
      different field sets. */
  lemma ModelPairDisagrees(p: Parser) returns (f: FieldMeta, g: FieldMeta)
    ensures var m := map["A" := [FieldDecl(["P"], Ident("X"), "p"), FieldDecl(["Q"], Ident("XModel"), "q")],
                         "X" := [LEAF], "XModel" := [LEAF, FieldDecl(["W"], Ident("int"), "w")]];
      && InTree(f, Fields(p, m, "A")) && InTree(g, Fields(p, m, "A"))
      && f.subFields != [] && g.subFields != [] && f.nestedTypeName == g.nestedTypeName == "XModel"
      && Erase(f.subFields) != Erase(g.subFields)
  {
    hide Outline, TypeName, InTree, Keyed, Fields;
    var a, x, y := "A", "X", "XModel";
    assert a[0] == 'A' && x[0] == 'X' && |x| == 1 && |y| == 6;
    var small, large := [LEAF], [LEAF, FieldDecl(["W"], Ident("int"), "w")];
    var m := map[a := [FieldDecl(["P"], Ident(x), "p"), FieldDecl(["Q"], Ident(y), "q")], x := small, y := large];
    assert |"int"| == 3 && "int" !in m;
    assert Names(m[a][0], x) && Names(m[a][1], y) by { assert |"ModelBase"| == 9; }
    assert NamedFrom(m, a, x) && NamedFrom(m, a, y);
    assert IsPath(m, a, [a], x) && IsPath(m, a, [a], y);
    PlainOutline(p, m, small, Elems([a]) + {x});
    PlainOutline(p, m, large, Elems([a]) + {y});
    var t, u;
    f, t := PathInFields(p, m, a, [a], x);
    g, u := PathInFields(p, m, a, [a], y);
    assert y[|y| - 5..] == MODEL && x + MODEL == y;
  }

  /** Two models, one nesting the other: both become declarations of the second one's name. */
  lemma NestedTargetClashes(p: Parser, pkg: string)
    ensures var m := map["OrderModel" := [FieldDecl(["User"], Ident("UserModel"), "user")], "UserModel" := [LEAF]];
            var targets := ["OrderModel", "UserModel"];
      ModelName("UserModel") == "UserModel" && "UserModel" in NamesOf(GenerateAll(Models(p, m, targets, pkg), pkg, {}))
  {
    hide Outline, GenerateAll, Models, NamesOf;
    var a, x := "OrderModel", "UserModel";
    assert |a| == 10 && |x| == 9;
    var m := map[a := [FieldDecl(["User"], Ident(x), "user")], x := [LEAF]];
    var targets := [a, x];
    assert |"int"| == 3 && "int" !in m;
    assert Names(m[a][0], x) by { assert x[0] == 'U' && "ModelBase"[0] == 'M'; }
    assert NamedFrom(m, a, x);
    assert IsPath(m, a, [a], x);
    PlainOutline(p, m, [LEAF], Elems([a]) + {x});
    assert FindsFields(p, m, targets[0], [a], x);
    TargetClashIff(p, m, targets, pkg, x);
    assert x[|x| - 5..] == MODEL;
  }

  /** A struct that refers to itself is untangled: it is always on its own path. */
  lemma SelfReferenceIsUntangled(targets: seq<string>)
    ensures UntangledFile(map["B" := [Link("B")]], targets)
  {
    var m := map["B" := [Link("B")]];
    RankedIsNoMutual(m, _ => 0);
    NoMutualIsUntangled(m, targets);
  }

  function Embed(target: string): FieldDecl { FieldDecl([], Ident(target), "") }

  /** What a struct that only links to a visited struct contributes when embedded. */
  lemma EmbeddedLink(p: Parser, m: StructMap, t: string, s: string, v: set<string>)
    requires t in m && s in m && t !in v && s in v && m[t] == [Link(s)] && |s| == 1
    ensures OutlineDecl(p, m, Embed(t), v) == [Own("N", Star(Ident(s)), "n", [])]
  {
    var d := Link(s);
    assert FirstPart("n") == "n" && "n"[0] == 'n';
    assert ParseBsonKey(p, "n", "N") == Some("n") && NestedStructName(d.typ) == s;
    assert OutlineName(p, m, d, "N", v + {t}) == [Own("N", d.typ, "n", [])];
    assert d.names[1..] == [] && m[t][1..] == [];
    assert OutlineNames(p, m, d, d.names, v + {t}) == OutlineName(p, m, d, "N", v + {t}) + [];
    assert Outline(p, m, m[t], v + {t}) == OutlineDecl(p, m, d, v + {t}) + [];
  }

  lemma TwoDecls(p: Parser, m: StructMap, x: FieldDecl, y: FieldDecl, v: set<string>)
    ensures Outline(p, m, [x, y], v) == OutlineDecl(p, m, x, v) + OutlineDecl(p, m, y, v)
  {
    hide OutlineDecl;
    assert [x, y][1..] == [y] && [y][1..] == [];
    assert Outline(p, m, [y], v) == OutlineDecl(p, m, y, v) + [];
  }

  /** Two uses on tangled paths with different structs within reach can still agree: S embeds A
      and B, and either one, left out, is made up for by the other. */
  lemma TangledUsesMayAgree(p: Parser)
    ensures var m := map["S" := [Embed("A"), Embed("B")], "A" := [Link("S")], "B" := [Link("S")]];
      && IsPath(m, "A", ["A"], "S") && !Untangled(m, ["A"], "S")
      && IsPath(m, "B", ["B"], "S") && !Untangled(m, ["B"], "S")
      && Outline(p, m, m["S"], Elems(["A"]) + {"S"}) == Outline(p, m, m["S"], Elems(["B"]) + {"S"})
  {
    hide Outline, OutlineDecl, Names, NestedStructName, Leads;
    var a, b, s := "A", "B", "S";
    assert a[0] == 'A' && b[0] == 'B' && s[0] == 'S';
    var m := map[s := [Embed(a), Embed(b)], a := [Link(s)], b := [Link(s)]];
    OneEdge(m, a, s);
    OneEdge(m, b, s);
    assert Refers(m[s][0], a) && Refers(m[s][1], b);
    EdgeLeads(m, s, a);
    EdgeLeads(m, s, b);
    assert Reaches(m, s, a) && Reaches(m, s, b);
    var v, w := Elems([a]) + {s}, Elems([b]) + {s};
    assert v == {a, s} && w == {b, s};
    TwoDecls(p, m, Embed(a), Embed(b), v);
    TwoDecls(p, m, Embed(a), Embed(b), w);
    EmbeddedLink(p, m, b, s, v);
    EmbeddedLink(p, m, a, s, w);
    EmbeddedVisited(p, m, a, v);
    EmbeddedVisited(p, m, b, w);
  }

  lemma EmbeddedVisited(p: Parser, m: StructMap, t: string, v: set<string>)
    requires t in v && |t| == 1
    ensures OutlineDecl(p, m, Embed(t), v) == []
  {
    assert |"ModelBase"| == 9 && |"WithUserID"| == 10;
  }

  /** A declaration whose name the first model already uses is made from that model. */
  lemma DeclaredByFirst(p: Parser, m: StructMap, targets: seq<string>, pkg: string, g: FieldMeta, k: nat)
    returns (h: FieldMeta)
    requires targets != [] && forall i :: 0 <= i < |targets| ==> targets[i] in m
    requires InTree(g, Fields(p, m, targets[0])) && g.subFields != []
    requires var decls := GenerateAll(Models(p, m, targets, pkg), pkg, {});
      k < |decls| && decls[k].typeName == g.nestedTypeName
    ensures InTree(h, Fields(p, m, targets[0])) && h.subFields != []
    ensures GenerateAll(Models(p, m, targets, pkg), pkg, {})[k] == DeclOf(StampOne(h, pkg), pkg)
  {
    hide Fields, InTree, Collect, From;
    var models := Models(p, m, targets, pkg);
    var decls, first := GenerateAll(models, pkg, {}), Collect(models[0], pkg, {}).0;
    CollectSpec(models[0], pkg, {});
    StampTree(Fields(p, m, targets[0]), pkg, g);
    StampSome(g.subFields, pkg);
    UseIsNamed(models[0], StampOne(g, pkg));
    assert g.nestedTypeName in NamesOf(first);
    var j :| 0 <= j < |first| && first[j].typeName == g.nestedTypeName;
    assert decls[j] == first[j];
    GenerateAllIsCollect(models, pkg, {});
    CollectSpec(Flatten(models), pkg, {});
    DeclaredOnce(decls, {}, k);
    FromAt(first, models[0], pkg, j);
    var x :| InTree(x, models[0]) && x.subFields != [] && first[j] == DeclOf(x, pkg);
    h := UnstampTree(Fields(p, m, targets[0]), pkg, x);
    StampSome(h.subFields, pkg);
  }

  lemma FromAt(out: seq<NestedType>, fields: seq<FieldMeta>, pkg: string, j: nat)
    requires From(out, fields, pkg) && j < |out|
    ensures Source(out[j], fields, pkg)
  {
  }

  /** Generating A and then C of the file in which A and B point at each other and C points at B:
      the declaration of B's type made for A does not fit C's use of it. */
  lemma CyclicDeclarationMisfits(p: Parser, pkg: string) returns (f: FieldMeta, k: nat)
    ensures var m := map["A" := [Link("B")], "B" := [Link("A")], "C" := [Link("B")]];
            var models := Models(p, m, ["A", "C"], pkg);
            var decls := GenerateAll(models, pkg, {});
      && InTree(f, Flatten(models)) && f.subFields != [] && f.nestedTypeName == "BModel"
      && k < |decls| && decls[k].typeName == "BModel" && !Fits(decls[k], f)
  {
    hide Outline, Keyed, Fields, Models, GenerateAll, InTree, Erase;
    hide OwnFields, Fits, TypeName, NestedUse, Flatten, UseIn;
    hide Untangled, IsPath, NestedStructName;
    var a, b, c := "A", "B", "C";
    assert a[0] == 'A' && b[0] == 'B' && c[0] == 'C' && |"ModelBase"| == 9 && |"WithUserID"| == 10 && |"Model"| == 5;
    var m := map[a := [Link(b)], b := [Link(a)], c := [Link(b)]];
    var targets := [a, c];
    CyclicFacts(p, m, a, b, c);
    assert forall i :: 0 <= i < |targets| ==> targets[i] in m;

    var typ;
    f, typ := UseOnPath(p, m, targets, pkg, 1, [c], b);
    UseTells(p, m, targets, pkg, f, typ, [c]);
    var h, t, u, path, kept;
    k, h, t, u, path, kept := DeclarationFitsIff(p, m, targets, pkg, f);
    UseTells(p, m, targets, pkg, f, t, path);
    UseTells(p, m, targets, pkg, h, u, kept);
    ModelNameInjective(m, NestedStructName(t), b);
    KeptIsFirst(p, m, targets, pkg, a, b, h, k);
    assert ModelName(b) == b + MODEL == "BModel";
  }

  /** A path of the i-th target on which the walk finds fields ends in a nested field of the package. */
  lemma UseOnPath(p: Parser, m: StructMap, targets: seq<string>, pkg: string, i: nat, path: seq<string>, s: string)
    returns (f: FieldMeta, typ: TypeExpr)
    requires i < |targets| && forall k :: 0 <= k < |targets| ==> targets[k] in m
    requires FindsFields(p, m, targets[i], path, s)
    ensures InTree(f, Flatten(Models(p, m, targets, pkg))) && f.subFields != []
    ensures UseIn(p, m, targets, pkg, f, typ, path) && NestedStructName(typ) == s
  {
    hide Outline, Keyed, Fields, Models, InTree, TypeName, NestedUse, Flatten, NestedStructName;
    var g;
    g, typ := PathInFields(p, m, targets[i], path, s);
    f := StampOne(g, pkg);
    StampTree(Fields(p, m, targets[i]), pkg, g);
    InSomeModel(p, m, targets, pkg, i, f);
    StampSome(g.subFields, pkg);
  }

  /** The declaration is made from the first target's use, whose path is tangled: it lacks fields. */
  lemma KeptIsFirst(p: Parser, m: StructMap, targets: seq<string>, pkg: string, a: string, b: string, h: FieldMeta,
                    k: nat)
    requires NoModelPair(m) && NoOwnEmbeds(m) && targets != [] && targets[0] == a
    requires forall i :: 0 <= i < |targets| ==> targets[i] in m
    requires b in m && |b| == 1 && m[a] == [Link(b)]
    requires FindsFields(p, m, a, [a], b) && !Untangled(m, [a], b)
    requires var decls := GenerateAll(Models(p, m, targets, pkg), pkg, {});
      k < |decls| && decls[k].typeName == ModelName(b) && decls[k] == DeclOf(h, pkg)
    ensures Erase(h.subFields) != OwnFields(p, m, pkg, b)
  {
    hide Outline, Keyed, Fields, Models, GenerateAll, InTree, Erase, OwnFields, TypeName, ModelName, NestedUse, UseIn;
    hide Untangled, NestedStructName, IsPath;
    var g, typ := PathInFields(p, m, a, [a], b);
    UseHolds(p, m, targets, pkg, a, g, typ, [a]);
    UseTells(p, m, targets, pkg, StampOne(g, pkg), typ, [a]);
    var x := DeclaredByFirst(p, m, targets, pkg, g, k);
    var v, way := UseInFields(p, m, a, x);
    UseHolds(p, m, targets, pkg, a, x, v, way);
    UseTells(p, m, targets, pkg, StampOne(x, pkg), v, way);
    ModelNameInjective(m, NestedStructName(v), b);
    OnlyPath(p, m, a, b, x, v, way);
  }

  lemma UseHolds(p: Parser, m: StructMap, targets: seq<string>, pkg: string, a: string, g: FieldMeta, typ: TypeExpr,
                 path: seq<string>)
    requires a in targets && NestedUse(p, m, a, g, typ, path)
    ensures UseIn(p, m, targets, pkg, StampOne(g, pkg), typ, path)
  {
    hide NestedUse;
  }

  /** A struct with one link has one edge. */
  lemma LinkRefers(t: string)
    requires |t| == 1
    ensures Names(Link(t), t) && forall x :: Refers(Link(t), x) <==> x == t
  {
    assert "n"[0] != "-"[0] && |"ModelBase"| == 9;
  }

  lemma OneEdge(m: StructMap, s: string, t: string)
    requires s in m && t in m && m[s] == [Link(t)] && |t| == 1
    ensures NamedFrom(m, s, t) && forall x :: Edge(m, s, x) <==> x == t
  {
    hide Names, Refers;
    LinkRefers(t);
    assert Names(m[s][0], t) && Refers(m[s][0], t);
  }

  lemma OnlyPath(p: Parser, m: StructMap, a: string, b: string, f: FieldMeta, typ: TypeExpr, path: seq<string>)
    requires a in m && b in m && m[a] == [Link(b)] && |b| == 1
    requires NestedUse(p, m, a, f, typ, path) && NestedStructName(typ) == b
    ensures path == [a]
  {
    hide Outline, Keyed, TypeName, ModelName, Edge;
    OneEdge(m, a, b);
    if |path| > 1 {
      FirstEdge(m, path);
    }
  }

  lemma FirstEdge(m: StructMap, path: seq<string>)
    requires Chain(m, path) && |path| > 1
    ensures Edge(m, path[0], path[1])
  {
    hide Edge;
    assert Edge(m, path[1 - 1], path[1]);
  }

  lemma CyclicFacts(p: Parser, m: StructMap, a: string, b: string, c: string)
    requires a == "A" && b == "B" && c == "C" && m == map[a := [Link(b)], b := [Link(a)], c := [Link(b)]]
    ensures NoEmptyName(m) && NoModelPair(m) && NoOwnEmbeds(m)
    ensures IsPath(m, a, [a], b) && IsPath(m, c, [c], b)
    ensures !Untangled(m, [a], b) && Untangled(m, [c], b)
    ensures Outline(p, m, m[b], Elems([a]) + {b}) != [] && Outline(p, m, m[b], Elems([c]) + {b}) != []
  {
    hide Outline, Edge, Names, Leads;
    assert a[0] == 'A' && b[0] == 'B' && c[0] == 'C' && |a| == |b| == |c| == 1;
    assert |"ModelBase"| == 9 && |"WithUserID"| == 10;
    OneEdge(m, a, b);
    OneEdge(m, b, a);
    OneEdge(m, c, b);
    LinkRefers(a);
    EdgeLeads(m, b, a);
    forall n: nat ensures !Leads(m, b, c, n) && !Leads(m, a, c, n) {
      NeverBack(m, a, b, c, n);
    }
    assert Reaches(m, b, a);
    assert forall s :: s in m ==> |s + MODEL| == 6;
    NamedIsNotEmpty(p, m, m[b], 0, a, Elems([a]) + {b});
    NamedIsNotEmpty(p, m, m[b], 0, a, Elems([c]) + {b});
  }

  lemma {:induction false} NeverBack(m: StructMap, a: string, b: string, c: string, n: nat)
    requires |a| == |b| == 1 && a != b && b != c && a != c
    requires m == map[a := [Link(b)], b := [Link(a)], c := [Link(b)]]
    ensures !Leads(m, b, c, n) && !Leads(m, a, c, n)
  {
    hide Edge;
    if n > 0 {
      OneEdge(m, a, b);
      OneEdge(m, b, a);
      NeverBack(m, a, b, c, n - 1);
    }
  }
}
