/** What the nested fields of the generated models look like, why one declaration per type name
    is enough, and when it is not (framework/cmd/mongogen/parser/parser.go, extractFields). */
module MongoShapes {
  import opened MongoParser
  import opened MongoPaths

  // ---------- every nested field is met on a path of the walk ----------

  /** Nodes with nodes below them are named uses met on paths from target a. */
  ghost predicate Traced(p: Parser, m: StructMap, a: string, nodes: seq<Node>)
    decreases nodes
  {
    forall i :: 0 <= i < |nodes| ==>
      match nodes[i]
      case Fixed(f) => f.subFields == []
      case Own(_, typ, _, subs) =>
        Traced(p, m, a, subs) && (subs != [] ==> exists path :: IsUse(p, m, a, path, NestedStructName(typ), subs))
  }

  ghost predicate IsUse(p: Parser, m: StructMap, a: string, path: seq<string>, s: string, nodes: seq<Node>) {
    IsPath(m, a, path, s) && nodes == Outline(p, m, m[s], Elems(path) + {s})
  }

  /** The structs the walk is inside of, outermost first. */
  ghost predicate Inside(m: StructMap, a: string, path: seq<string>) {
    path != [] && path[0] == a && Chain(m, path)
  }

  lemma InsideSnoc(m: StructMap, a: string, path: seq<string>, s: string)
    requires Inside(m, a, path) && s in m && s !in path && Edge(m, path[|path| - 1], s)
    ensures Inside(m, a, path + [s]) && Elems(path + [s]) == Elems(path) + {s}
  {
    hide Edge;
    var longer := path + [s];
    forall i | 0 < i < |longer| ensures Edge(m, longer[i - 1], longer[i]) {
      assert longer[i - 1] == path[i - 1];
      assert i < |path| ==> longer[i] == path[i];
    }
    forall x ensures x in longer <==> x in path || x == s {
      assert x in path ==> x in longer;
      assert longer[|path|] == s;
    }
  }

  lemma {:induction false} OutlineTraced(p: Parser, m: StructMap, a: string, path: seq<string>, k: nat)
    requires Inside(m, a, path) && k <= |m[path[|path| - 1]]|
    ensures Traced(p, m, a, Outline(p, m, m[path[|path| - 1]][k..], Elems(path)))
    decreases |m.Keys - Elems(path)|, 3, |m[path[|path| - 1]]| - k
  {
    hide OutlineDecl, Edge, Traced;
    var decls := m[path[|path| - 1]];
    if k == |decls| {
      assert decls[k..] == [];
      NothingTraced(p, m, a);
    } else {
      assert decls[k..][0] == decls[k] && decls[k..][1..] == decls[k + 1..];
      DeclTraced(p, m, a, path, k);
      OutlineTraced(p, m, a, path, k + 1);
      TracedAppend(p, m, a, OutlineDecl(p, m, decls[k], Elems(path)), Outline(p, m, decls[k + 1..], Elems(path)));
    }
  }

  lemma NothingTraced(p: Parser, m: StructMap, a: string)
    ensures Traced(p, m, a, [])
  {
  }

  lemma TracedAppend(p: Parser, m: StructMap, a: string, x: seq<Node>, y: seq<Node>)
    requires Traced(p, m, a, x) && Traced(p, m, a, y)
    ensures Traced(p, m, a, x + y)
  {
    hide IsUse, NestedStructName;
  }

  lemma KnownTraced(p: Parser, m: StructMap, a: string, name: string)
    ensures Traced(p, m, a, Nodes(KnownEmbedFields(name)))
  {
  }

  lemma {:induction false} DeclTraced(p: Parser, m: StructMap, a: string, path: seq<string>, k: nat)
    requires Inside(m, a, path) && k < |m[path[|path| - 1]]|
    ensures Traced(p, m, a, OutlineDecl(p, m, m[path[|path| - 1]][k], Elems(path)))
    decreases |m.Keys - Elems(path)|, 2
  {
    hide Outline, OutlineNames, Traced, KnownEmbedFields;
    var d := m[path[|path| - 1]][k];
    if d.names != [] {
      NamesTraced(p, m, a, path, k, d.names);
    } else {
      match d.typ
      case Ident(name) =>
        if name in m && name !in Elems(path) {
          assert Refers(d, name);
          StructTraced(p, m, a, path, name);
        } else {
          KnownTraced(p, m, a, name);
        }
      case Selector(_, sel) => KnownTraced(p, m, a, sel);
      case _ => NothingTraced(p, m, a);
    }
  }

  lemma {:induction false} StructTraced(p: Parser, m: StructMap, a: string, path: seq<string>, s: string)
    requires Inside(m, a, path) && s in m && s !in path && Edge(m, path[|path| - 1], s)
    ensures Traced(p, m, a, Outline(p, m, m[s], Elems(path) + {s}))
    decreases |m.Keys - Elems(path)|, 0
  {
    hide Outline, Traced, Edge;
    InsideSnoc(m, a, path, s);
    Shrinks(m, Elems(path), s);
    OutlineTraced(p, m, a, path + [s], 0);
    assert m[s][0..] == m[s];
  }

  lemma {:induction false} NamesTraced(p: Parser, m: StructMap, a: string, path: seq<string>, k: nat,
                                       names: seq<string>)
    requires Inside(m, a, path) && k < |m[path[|path| - 1]]| && m[path[|path| - 1]][k].names != []
    ensures Traced(p, m, a, OutlineNames(p, m, m[path[|path| - 1]][k], names, Elems(path)))
    decreases |m.Keys - Elems(path)|, 1, |names|
  {
    hide Outline, Traced, NestedStructName;
    var u, v := path[|path| - 1], Elems(path);
    var d := m[u][k];
    if names == [] {
      NothingTraced(p, m, a);
    } else {
      NamesTraced(p, m, a, path, k, names[1..]);
      var nested := NestedStructName(d.typ);
      if d.bsonTag == "-" {
        NothingTraced(p, m, a);
      } else if Descends(m, nested, v) {
        assert Names(d, nested) && Refers(d, nested);
        assert Edge(m, u, nested) && NamedFrom(m, u, nested);
        StructTraced(p, m, a, path, nested);
        var subs := Outline(p, m, m[nested], v + {nested});
        assert IsUse(p, m, a, path, nested, subs);
        OneTraced(p, m, a, OutlineName(p, m, d, names[0], v)[0]);
      } else {
        NothingTraced(p, m, a);
        OneTraced(p, m, a, OutlineName(p, m, d, names[0], v)[0]);
      }
      TracedAppend(p, m, a, OutlineName(p, m, d, names[0], v), OutlineNames(p, m, d, names[1..], v));
    }
  }

  lemma OneTraced(p: Parser, m: StructMap, a: string, node: Node)
    requires node.Own? && Traced(p, m, a, node.subs)
    requires node.subs != [] ==> exists path :: IsUse(p, m, a, path, NestedStructName(node.typ), node.subs)
    ensures Traced(p, m, a, [node])
  {
    hide IsUse, NestedStructName;
  }

  // ---------- every path of the walk ends in a field ----------

  ghost predicate InNodes(n: Node, nodes: seq<Node>)
    decreases nodes
  {
    exists i :: 0 <= i < |nodes| && (nodes[i] == n || (nodes[i].Own? && InNodes(n, nodes[i].subs)))
  }

  lemma InNodesAppend(n: Node, a: seq<Node>, b: seq<Node>)
    ensures InNodes(n, a) || InNodes(n, b) ==> InNodes(n, a + b)
  {
    if InNodes(n, a) {
      var i :| 0 <= i < |a| && (a[i] == n || (a[i].Own? && InNodes(n, a[i].subs)));
      assert (a + b)[i] == a[i];
    } else if InNodes(n, b) {
      var i :| 0 <= i < |b| && (b[i] == n || (b[i].Own? && InNodes(n, b[i].subs)));
      assert (a + b)[|a| + i] == b[i];
    }
  }

  /** A node a declaration yields is yielded by the list it stands in. */
  lemma {:induction false} DeclWithin(p: Parser, m: StructMap, decls: Struct, k: nat, v: set<string>, n: Node)
    requires k < |decls| && InNodes(n, OutlineDecl(p, m, decls[k], v))
    ensures InNodes(n, Outline(p, m, decls, v))
    decreases k
  {
    hide OutlineDecl, InNodes;
    if k > 0 {
      DeclWithin(p, m, decls[1..], k - 1, v, n);
    }
    InNodesAppend(n, OutlineDecl(p, m, decls[0], v), Outline(p, m, decls[1..], v));
  }

  /** The first name of a declaration of struct type s that is not on the path. */
  lemma NameNode(p: Parser, m: StructMap, d: FieldDecl, s: string, v: set<string>) returns (n: Node)
    requires Names(d, s) && s in m && s !in v
    ensures n.Own? && NestedStructName(n.typ) == s && n.subs == Outline(p, m, m[s], v + {s})
    ensures InNodes(n, OutlineDecl(p, m, d, v))
  {
    hide Outline, NestedStructName;
    var here := OutlineName(p, m, d, d.names[0], v);
    n := here[0];
    assert InNodes(n, here);
    InNodesAppend(n, here, OutlineNames(p, m, d, d.names[1..], v));
  }

  lemma {:induction false} PathNode(p: Parser, m: StructMap, a: string, path: seq<string>, s: string, i: nat)
    returns (n: Node)
    requires IsPath(m, a, path, s) && i < |path|
    ensures n.Own? && NestedStructName(n.typ) == s && n.subs == Outline(p, m, m[s], Elems(path) + {s})
    ensures InNodes(n, Outline(p, m, m[path[i]], Elems(path[..i + 1])))
    decreases |path| - i
  {
    hide Outline, Names, NestedStructName, InNodes;
    var u, v := path[i], Elems(path[..i + 1]);
    if i == |path| - 1 {
      var k :| 0 <= k < |m[u]| && Names(m[u][k], s);
      assert path[..i + 1] == path;
      n := NameNode(p, m, m[u][k], s, v);
      DeclWithin(p, m, m[u], k, v, n);
    } else {
      var next := path[i + 1];
      assert path[..i + 2] == path[..i + 1] + [next];
      assert Elems(path[..i + 2]) == v + {next};
      assert Edge(m, path[i + 1 - 1], path[i + 1]);
      n := PathNode(p, m, a, path, s, i + 1);
      var k :| 0 <= k < |m[u]| && Refers(m[u][k], next);
      if Names(m[u][k], next) {
        var outer := NameNode(p, m, m[u][k], next, v);
        BelowNode(n, outer, OutlineDecl(p, m, m[u][k], v));
      }
      DeclWithin(p, m, m[u], k, v, n);
    }
  }

  lemma {:induction false} BelowNode(n: Node, outer: Node, nodes: seq<Node>)
    requires outer.Own? && InNodes(n, outer.subs) && InNodes(outer, nodes)
    ensures InNodes(n, nodes)
    decreases nodes
  {
    var i :| 0 <= i < |nodes| && (nodes[i] == outer || (nodes[i].Own? && InNodes(outer, nodes[i].subs)));
    if nodes[i] != outer {
      BelowNode(n, outer, nodes[i].subs);
    }
  }

  // ---------- shapes ----------

  /** A field tree without its keys. */
  function Erase(fields: seq<FieldMeta>): (r: seq<FieldMeta>)
    ensures |r| == |fields|
    decreases fields
  {
    if fields == [] then [] else [EraseOne(fields[0])] + Erase(fields[1..])
  }

  function EraseOne(f: FieldMeta): FieldMeta
    decreases f
  {
    f.(bsonKey := "", subFields := Erase(f.subFields))
  }

  lemma {:induction false} ShapeIgnoresKey(p: Parser, nodes: seq<Node>, j: string, k: string)
    ensures Erase(Keyed(p, j, nodes)) == Erase(Keyed(p, k, nodes))
    decreases nodes
  {
    hide TypeName, ModelName, NestedStructName;
    if nodes != [] {
      if nodes[0].Own? {
        ShapeIgnoresKey(p, nodes[0].subs, JoinKey(j, nodes[0].key), JoinKey(k, nodes[0].key));
      }
      if nodes[0].Fixed? {
        assert KeyedOne(p, j, nodes[0]) == KeyedOne(p, k, nodes[0]);
      }
      ShapeIgnoresKey(p, nodes[1..], j, k);
    }
  }

  ghost predicate InTree(f: FieldMeta, fields: seq<FieldMeta>)
    decreases fields
  {
    exists i :: 0 <= i < |fields| && (fields[i] == f || InTree(f, fields[i].subFields))
  }

  /** Erasing keys changes no count. */
  lemma {:induction false} EraseTotal(fields: seq<FieldMeta>)
    ensures Total(Erase(fields)) == Total(fields)
    decreases fields
  {
    if fields != [] {
      EraseTotal(fields[0].subFields);
      EraseTotal(fields[1..]);
    }
  }

  lemma {:induction false} KeyedTotal(p: Parser, parentKey: string, nodes: seq<Node>)
    ensures Total(Keyed(p, parentKey, nodes)) == Count(nodes)
    decreases nodes
  {
    hide TypeName, ModelName, NestedStructName;
    if nodes != [] {
      if nodes[0].Own? {
        KeyedTotal(p, JoinKey(parentKey, nodes[0].key), nodes[0].subs);
      }
      KeyedTotal(p, parentKey, nodes[1..]);
    }
  }

  function Fields(p: Parser, m: StructMap, target: string): seq<FieldMeta>
    requires target in m
  {
    Extract(p, m, m[target], "", {target})
  }

  /** A nested field of the model of target a: met on a path, declared with some stars around the
      struct s, and holding what s yields when the structs of the path are visited. */
  ghost predicate NestedUse(p: Parser, m: StructMap, a: string, f: FieldMeta, typ: TypeExpr, path: seq<string>) {
    var s := NestedStructName(typ);
    && IsPath(m, a, path, s)
    && f.nestedTypeName == ModelName(s) && f.goType == TypeName(p, typ) && f.fieldType == "Field[" + f.goType + "]"
    && f.subFields == Keyed(p, f.bsonKey, Outline(p, m, m[s], Elems(path) + {s}))
  }

  lemma {:induction false} FindUse(p: Parser, m: StructMap, a: string, parentKey: string, nodes: seq<Node>,
                                   f: FieldMeta)
    returns (typ: TypeExpr, path: seq<string>)
    requires Traced(p, m, a, nodes) && InTree(f, Keyed(p, parentKey, nodes)) && f.subFields != []
    ensures NestedUse(p, m, a, f, typ, path)
    decreases nodes
  {
    hide TypeName, ModelName, NestedStructName, Outline, IsPath;
    var fields := Keyed(p, parentKey, nodes);
    var i :| 0 <= i < |fields| && (fields[i] == f || InTree(f, fields[i].subFields));
    KeyedAt(p, parentKey, nodes, i);
    var node := nodes[i];
    assert node.Own?;
    if fields[i] == f {
      typ := node.typ;
      path :| IsUse(p, m, a, path, NestedStructName(typ), node.subs);
    } else {
      typ, path := FindUse(p, m, a, JoinKey(parentKey, node.key), node.subs, f);
    }
  }

  /** Every nested field of a model is met on some path. */
  lemma UseInFields(p: Parser, m: StructMap, a: string, f: FieldMeta) returns (typ: TypeExpr, path: seq<string>)
    requires a in m && InTree(f, Fields(p, m, a)) && f.subFields != []
    ensures NestedUse(p, m, a, f, typ, path)
  {
    hide Outline, Traced, InTree, NestedUse;
    assert Elems([a]) == {a} && m[a][0..] == m[a];
    OutlineTraced(p, m, a, [a], 0);
    ExtractIsKeyedOutline(p, m, m[a], "", {a});
    typ, path := FindUse(p, m, a, "", Outline(p, m, m[a], {a}), f);
  }

  lemma {:induction false} NodeField(p: Parser, parentKey: string, nodes: seq<Node>, n: Node) returns (f: FieldMeta)
    requires InNodes(n, nodes) && n.Own?
    ensures InTree(f, Keyed(p, parentKey, nodes))
    ensures f.subFields == Keyed(p, f.bsonKey, n.subs) && f.goType == TypeName(p, n.typ)
    ensures f.fieldType == "Field[" + f.goType + "]"
    ensures n.subs != [] ==> f.nestedTypeName == ModelName(NestedStructName(n.typ))
    decreases nodes
  {
    hide TypeName, ModelName, NestedStructName;
    var i :| 0 <= i < |nodes| && (nodes[i] == n || (nodes[i].Own? && InNodes(n, nodes[i].subs)));
    KeyedAt(p, parentKey, nodes, i);
    var here := KeyedOne(p, parentKey, nodes[i]);
    if nodes[i] == n {
      f := here;
    } else {
      f := NodeField(p, JoinKey(parentKey, nodes[i].key), nodes[i].subs, n);
      assert InTree(f, here.subFields);
    }
  }

  /** Every path ends in a field of the model; it is nested if the struct has fields left. */
  lemma PathInFields(p: Parser, m: StructMap, a: string, path: seq<string>, s: string)
    returns (f: FieldMeta, typ: TypeExpr)
    requires IsPath(m, a, path, s) && Outline(p, m, m[s], Elems(path) + {s}) != []
    ensures InTree(f, Fields(p, m, a)) && f.subFields != []
    ensures NestedStructName(typ) == s && NestedUse(p, m, a, f, typ, path)
  {
    hide Outline, InNodes, InTree, TypeName, ModelName, NestedStructName;
    var n := PathNode(p, m, a, path, s, 0);
    assert path[..1] == [a] && Elems([a]) == {a};
    f := NodeField(p, "", Outline(p, m, m[a], {a}), n);
    typ := n.typ;
    ExtractIsKeyedOutline(p, m, m[a], "", {a});
  }

  // ---------- when a nested field has its struct's own fields ----------

  /** A nested field of struct s carries, keys aside, the fields of the model of s itself if and
      only if no struct above it can be reached back from s. */
  lemma OwnFieldsIff(p: Parser, m: StructMap, a: string, f: FieldMeta, typ: TypeExpr, path: seq<string>)
    requires NestedUse(p, m, a, f, typ, path)
    ensures var s := NestedStructName(typ);
      && s in m
      && (Untangled(m, path, s) ==> Erase(f.subFields) == Erase(Fields(p, m, s)))
      && (NoOwnEmbeds(m) && !Untangled(m, path, s) ==> Total(f.subFields) < Total(Fields(p, m, s)))
      && (NoOwnEmbeds(m) ==> (Erase(f.subFields) == Erase(Fields(p, m, s)) <==> Untangled(m, path, s)))
  {
    hide Outline, Keyed, Erase, Total, Count, Untangled, TypeName, ModelName, NestedStructName;
    var s := NestedStructName(typ);
    var here, own := Outline(p, m, m[s], Elems(path) + {s}), Outline(p, m, m[s], {s});
    OwnOutlineIff(p, m, a, path, s);
    ExtractIsKeyedOutline(p, m, m[s], "", {s});
    ShapeIgnoresKey(p, own, f.bsonKey, "");
    KeyedTotal(p, f.bsonKey, here);
    KeyedTotal(p, "", own);
    EraseTotal(f.subFields);
    EraseTotal(Fields(p, m, s));
  }

  ghost predicate NoEmptyName(m: StructMap) {
    forall s :: s in m ==> s != "" && s[0] != '*'
  }

  /** No two structs X and XModel: their generated names would collide. */
  ghost predicate NoModelPair(m: StructMap) {
    forall s :: s in m ==> HasModelSuffix(s) || s + MODEL !in m
  }

  lemma ModelNameInjective(m: StructMap, s: string, t: string)
    requires NoModelPair(m) && s in m && t in m && ModelName(s) == ModelName(t)
    ensures s == t
  {
    if !HasModelSuffix(s) && !HasModelSuffix(t) {
      assert s == (s + MODEL)[..|s|] && t == (t + MODEL)[..|t|];
    }
  }

  /** Leading stars of a rendered type. */
  function PointerDepth(goType: string): nat {
    if goType == "" || goType[0] != '*' then 0 else 1 + PointerDepth(goType[1..])
  }

  lemma {:induction false} DepthIsStars(n: nat, name: string)
    requires name == "" || name[0] != '*'
    ensures PointerDepth(seq(n, _ => '*') + name) == n
  {
    if n > 0 {
      assert (seq(n, _ => '*') + name)[1..] == seq(n - 1, _ => '*') + name;
      DepthIsStars(n - 1, name);
    } else {
      assert seq(0, _ => '*') + name == name;
    }
  }

  lemma {:induction false} DepthDecides(p: Parser, a: TypeExpr, b: TypeExpr)
    requires NestedStructName(a) == NestedStructName(b) && NestedStructName(a) != "" && NestedStructName(a)[0] != '*'
    ensures TypeName(p, a) == TypeName(p, b) <==> PointerDepth(TypeName(p, a)) == PointerDepth(TypeName(p, b))
  {
    match (a, b)
    case (Star(x), Star(y)) =>
      assert TypeName(p, a)[1..] == TypeName(p, x) && TypeName(p, b)[1..] == TypeName(p, y);
      DepthDecides(p, x, y);
    case (Star(x), Ident(_)) => assert TypeName(p, b)[0] != '*';
    case (Ident(_), Star(y)) => assert TypeName(p, a)[0] != '*';
    case (Ident(_), Ident(_)) =>
  }

  /** Two uses of one struct whose paths differ only in structs out of its reach agree, tangled or
      not. */
  lemma SameAboveAgree(p: Parser, m: StructMap, a: string, b: string, f: FieldMeta, g: FieldMeta, t: TypeExpr,
                       u: TypeExpr,
                       path: seq<string>, other: seq<string>)
    requires NestedUse(p, m, a, f, t, path) && NestedUse(p, m, b, g, u, other)
    requires NestedStructName(t) == NestedStructName(u) && Agree(m, NestedStructName(t), Elems(path), Elems(other))
    ensures Erase(f.subFields) == Erase(g.subFields)
  {
    hide Outline, Keyed, Erase, TypeName, ModelName, NestedStructName, Elems;
    var s := NestedStructName(t);
    AgreeInside(m, s, Elems(path), Elems(other));
    VisitedIrrelevant(p, m, m[s], Elems(path) + {s}, Elems(other) + {s});
    ShapeIgnoresKey(p, Outline(p, m, m[s], Elems(path) + {s}), f.bsonKey, g.bsonKey);
  }

  /** Two nested fields, in any two models, that refer to one generated type name: each has the
      struct's own fields exactly when its path is untangled, so if one does, they agree exactly
      when the other does too; two tangled ones agree if their paths hold the same structs
      within reach. Their Go types agree exactly when their pointer depths do. */
  lemma NestedUsesAgreeIff(p: Parser, m: StructMap, a: string, b: string, f: FieldMeta, g: FieldMeta)
    returns (t: TypeExpr, u: TypeExpr, path: seq<string>, other: seq<string>)
    requires NoEmptyName(m) && NoModelPair(m) && NoOwnEmbeds(m) && a in m && b in m
    requires InTree(f, Fields(p, m, a)) && f.subFields != []
    requires InTree(g, Fields(p, m, b)) && g.subFields != []
    requires f.nestedTypeName == g.nestedTypeName
    ensures NestedUse(p, m, a, f, t, path) && NestedUse(p, m, b, g, u, other)
    ensures NestedStructName(t) == NestedStructName(u)
    ensures var s := NestedStructName(t);
      && (Untangled(m, path, s) ==> (Erase(f.subFields) == Erase(g.subFields) <==> Untangled(m, other, s)))
      && (Untangled(m, other, s) ==> (Erase(f.subFields) == Erase(g.subFields) <==> Untangled(m, path, s)))
      && (Agree(m, s, Elems(path), Elems(other)) ==> Erase(f.subFields) == Erase(g.subFields))
    ensures f.goType == g.goType <==> PointerDepth(f.goType) == PointerDepth(g.goType)
  {
    hide Outline, Keyed, ModelName, Erase, Total, InTree, Chain, Untangled, NestedStructName, TypeName, Agree;
    t, path := UseInFields(p, m, a, f);
    u, other := UseInFields(p, m, b, g);
    var s := NestedStructName(t);
    ModelNameInjective(m, s, NestedStructName(u));
    OwnFieldsIff(p, m, a, f, t, path);
    OwnFieldsIff(p, m, b, g, u, other);
    if Agree(m, s, Elems(path), Elems(other)) {
      SameAboveAgree(p, m, a, b, f, g, t, u, path, other);
    }
    DepthDecides(p, t, u);
  }

  /** On a file where no path from the targets is tangled, all uses of a name agree. */
  lemma NestedUsesAgree(p: Parser, m: StructMap, targets: seq<string>, a: string, b: string, f: FieldMeta, g: FieldMeta)
    requires NoEmptyName(m) && NoModelPair(m) && UntangledFile(m, targets)
    requires a in targets && b in targets && a in m && b in m
    requires InTree(f, Fields(p, m, a)) && f.subFields != []
    requires InTree(g, Fields(p, m, b)) && g.subFields != []
    requires f.nestedTypeName == g.nestedTypeName
    ensures Erase(f.subFields) == Erase(g.subFields)
    ensures f.goType == g.goType <==> PointerDepth(f.goType) == PointerDepth(g.goType)
  {
    hide Outline, Keyed, ModelName, Erase, Total, InTree, Chain, Untangled, NestedStructName, TypeName;
    var t, path := UseInFields(p, m, a, f);
    var u, other := UseInFields(p, m, b, g);
    ModelNameInjective(m, NestedStructName(t), NestedStructName(u));
    OwnFieldsIff(p, m, a, f, t, path);
    OwnFieldsIff(p, m, b, g, u, other);
    DepthDecides(p, t, u);
  }

  /** All nested fields of the targets' models carry their struct's own fields if and only if no
      path on which the walk finds fields is tangled. */
  lemma EveryUseOwnIff(p: Parser, m: StructMap, targets: seq<string>)
    requires NoModelPair(m) && NoOwnEmbeds(m) && forall i :: 0 <= i < |targets| ==> targets[i] in m
    ensures (forall i, f :: 0 <= i < |targets| && InTree(f, Fields(p, m, targets[i])) && f.subFields != [] ==>
                            CarriesOwn(p, m, f))
       <==> (forall i, path, s :: 0 <= i < |targets| && FindsFields(p, m, targets[i], path, s) ==>
                                  Untangled(m, path, s))
  {
    hide Outline, Keyed, ModelName, Erase, Total, InTree, Chain, Untangled, NestedStructName, TypeName;
    if forall i, path, s :: 0 <= i < |targets| && FindsFields(p, m, targets[i], path, s) ==> Untangled(m, path, s) {
      forall i, f | 0 <= i < |targets| && InTree(f, Fields(p, m, targets[i])) && f.subFields != []
        ensures CarriesOwn(p, m, f)
      {
        var t, path := UseInFields(p, m, targets[i], f);
        OwnFieldsIff(p, m, targets[i], f, t, path);
        KeyedNothing(p, f.bsonKey);
        assert FindsFields(p, m, targets[i], path, NestedStructName(t));
      }
    } else {
      var i, path, s :| 0 <= i < |targets| && FindsFields(p, m, targets[i], path, s) && !Untangled(m, path, s);
      var f, t := PathInFields(p, m, targets[i], path, s);
      OwnFieldsIff(p, m, targets[i], f, t, path);
      if x :| x in m && f.nestedTypeName == ModelName(x) && Erase(f.subFields) == Erase(Fields(p, m, x)) {
        ModelNameInjective(m, s, x);
      }
    }
  }

  ghost predicate FindsFields(p: Parser, m: StructMap, a: string, path: seq<string>, s: string) {
    IsPath(m, a, path, s) && Outline(p, m, m[s], Elems(path) + {s}) != []
  }

  ghost predicate CarriesOwn(p: Parser, m: StructMap, f: FieldMeta) {
    exists s :: s in m && f.nestedTypeName == ModelName(s) && Erase(f.subFields) == Erase(Fields(p, m, s))
  }

  lemma KeyedNothing(p: Parser, parentKey: string)
    ensures Keyed(p, parentKey, []) == []
  {
  }
}
