/** Declaring the nested types of the generated models
    (framework/cmd/mongogen/generator/generator.go): post-order over the field trees, with a
    `seen` map shared by all models of a package. */
module MongoGenerator {
  import opened Options
  import opened MongoParser
  import opened MongoPaths
  import opened MongoShapes

  datatype NestedType = NestedType(typeName: string, goType: string, fieldPkg: string, fieldType: string,
                                   fields: seq<FieldMeta>)

  function WithFieldPkg(fields: seq<FieldMeta>, pkg: string): (r: seq<FieldMeta>)
    ensures |r| == |fields|
    decreases fields
  {
    if fields == [] then [] else [StampOne(fields[0], pkg)] + WithFieldPkg(fields[1..], pkg)
  }

  function StampOne(f: FieldMeta, pkg: string): FieldMeta
    decreases f
  {
    f.(fieldPkg := pkg, subFields := WithFieldPkg(f.subFields, pkg))
  }

  /** The shared map of declared names; every generator call of a package updates it. */
  class SeenNames {
    var names: set<string>

    constructor ()
      ensures names == {}
    {
      names := {};
    }
  }

  function DeclOf(f: FieldMeta, pkg: string): NestedType {
    NestedType(f.nestedTypeName, f.goType, pkg, f.fieldType, f.subFields)
  }

  /** The declarations a field list yields and the names seen afterwards. */
  function Collect(fields: seq<FieldMeta>, pkg: string, seen: set<string>): (seq<NestedType>, set<string>)
    decreases fields
  {
    if fields == [] then ([], seen)
    else
      var (here, seenHere) := CollectOne(fields[0], pkg, seen);
      var (rest, seenAll) := Collect(fields[1..], pkg, seenHere);
      (here + rest, seenAll)
  }

  function CollectOne(f: FieldMeta, pkg: string, seen: set<string>): (seq<NestedType>, set<string>)
    decreases f
  {
    if f.subFields == [] then ([], seen)
    else
      var (children, seenBelow) := Collect(f.subFields, pkg, seen);
      if f.nestedTypeName in seenBelow then (children, seenBelow)
      else (children + [DeclOf(f, pkg)], seenBelow + {f.nestedTypeName})
  }

  method CollectNestedTypes(fields: seq<FieldMeta>, pkg: string, seen: SeenNames) returns (out: seq<NestedType>)
    modifies seen
    ensures out == Collect(fields, pkg, old(seen.names)).0
    ensures seen.names == Collect(fields, pkg, old(seen.names)).1
    decreases fields
  {
    out := [];
    for i := 0 to |fields|
      invariant Collect(fields, pkg, old(seen.names)).0 == out + Collect(fields[i..], pkg, seen.names).0
      invariant Collect(fields, pkg, old(seen.names)).1 == Collect(fields[i..], pkg, seen.names).1
    {
      var f := fields[i];
      assert fields[i..][0] == f && fields[i..][1..] == fields[i + 1..];
      ghost var here := CollectOne(f, pkg, seen.names).0;
      ghost var before := out;
      if f.subFields != [] {
        var children := CollectNestedTypes(f.subFields, pkg, seen);
        out := out + children;
        if f.nestedTypeName !in seen.names {
          seen.names := seen.names + {f.nestedTypeName};
          out := out + [DeclOf(f, pkg)];
        }
      }
      assert out == before + here;
    }
  }

  method StampFieldPkg(fields: seq<FieldMeta>, pkg: string) returns (out: seq<FieldMeta>)
    ensures out == WithFieldPkg(fields, pkg)
    decreases fields
  {
    out := [];
    for i := 0 to |fields|
      invariant WithFieldPkg(fields, pkg) == out + WithFieldPkg(fields[i..], pkg)
    {
      assert fields[i..][0] == fields[i] && fields[i..][1..] == fields[i + 1..];
      var subFields := StampFieldPkg(fields[i].subFields, pkg);
      out := out + [fields[i].(fieldPkg := pkg, subFields := subFields)];
    }
  }

  // ---------- once each, children first ----------

  /** Names of the nested types a field list refers to, at any depth. */
  function NestedNames(fields: seq<FieldMeta>): set<string>
    decreases fields
  {
    if fields == [] then {} else NestedNamesOne(fields[0]) + NestedNames(fields[1..])
  }

  function NestedNamesOne(f: FieldMeta): set<string>
    decreases f
  {
    if f.subFields == [] then {} else {f.nestedTypeName} + NestedNames(f.subFields)
  }

  function NamesOf(out: seq<NestedType>): set<string> {
    set i | 0 <= i < |out| :: out[i].typeName
  }

  lemma NamesOfAppend(a: seq<NestedType>, b: seq<NestedType>)
    ensures NamesOf(a + b) == NamesOf(a) + NamesOf(b)
  {
    forall i | 0 <= i < |a| ensures a[i].typeName in NamesOf(a + b) {
      assert (a + b)[i] == a[i];
    }
    forall i | 0 <= i < |b| ensures b[i].typeName in NamesOf(a + b) {
      assert (a + b)[|a| + i] == b[i];
    }
  }

  /** `out` declares, after `seen`, each name once, and never a type before the types its own
      fields refer to. */
  ghost predicate WellOrdered(out: seq<NestedType>, seen: set<string>) {
    forall i :: 0 <= i < |out| ==>
      out[i].typeName !in seen + NamesOf(out[..i]) && NestedNames(out[i].fields) <= seen + NamesOf(out[..i])
  }

  lemma WellOrderedAppend(a: seq<NestedType>, b: seq<NestedType>, seen: set<string>)
    requires WellOrdered(a, seen) && WellOrdered(b, seen + NamesOf(a))
    ensures WellOrdered(a + b, seen)
  {
    forall i | 0 <= i < |a + b|
      ensures (a + b)[i].typeName !in seen + NamesOf((a + b)[..i])
      ensures NestedNames((a + b)[i].fields) <= seen + NamesOf((a + b)[..i])
    {
      if i < |a| {
        assert (a + b)[..i] == a[..i];
      } else {
        assert (a + b)[..i] == a + b[..i - |a|];
        NamesOfAppend(a, b[..i - |a|]);
      }
    }
  }

  ghost predicate Source(d: NestedType, fields: seq<FieldMeta>, pkg: string) {
    exists f :: InTree(f, fields) && f.subFields != [] && d == DeclOf(f, pkg)
  }

  /** Every declaration is made from some nested field of the trees. */
  ghost predicate From(out: seq<NestedType>, fields: seq<FieldMeta>, pkg: string) {
    forall i :: 0 <= i < |out| ==> Source(out[i], fields, pkg)
  }

  lemma FromAppend(a: seq<NestedType>, x: seq<FieldMeta>, b: seq<NestedType>, y: seq<FieldMeta>, pkg: string)
    requires From(a, x, pkg) && From(b, y, pkg)
    ensures From(a + b, x + y, pkg)
  {
    hide InTree;
    forall d | Source(d, x, pkg) || Source(d, y, pkg) ensures Source(d, x + y, pkg) {
      if Source(d, x, pkg) {
        var f :| InTree(f, x) && f.subFields != [] && d == DeclOf(f, pkg);
        TreeAppend(f, x, y);
      } else {
        var f :| InTree(f, y) && f.subFields != [] && d == DeclOf(f, pkg);
        TreeAppend(f, x, y);
      }
    }
  }

  lemma TreeAppend(f: FieldMeta, x: seq<FieldMeta>, y: seq<FieldMeta>)
    ensures InTree(f, x + y) <==> InTree(f, x) || InTree(f, y)
  {
    if InTree(f, x) {
      var i :| 0 <= i < |x| && (x[i] == f || InTree(f, x[i].subFields));
      assert (x + y)[i] == x[i];
    } else if InTree(f, y) {
      var i :| 0 <= i < |y| && (y[i] == f || InTree(f, y[i].subFields));
      assert (x + y)[|x| + i] == y[i];
    }
  }

  /** Exactly the referenced names not seen before are declared, once each, children first, and
      every declaration is some field of the trees. */
  lemma {:induction false} CollectSpec(fields: seq<FieldMeta>, pkg: string, seen: set<string>)
    ensures var (out, after) := Collect(fields, pkg, seen);
      WellOrdered(out, seen) && after == seen + NamesOf(out) == seen + NestedNames(fields) && From(out, fields, pkg)
    decreases fields
  {
    hide WellOrdered, From, InTree;
    if fields == [] {
      NothingCollected(pkg, seen);
    } else {
      var f := fields[0];
      var (here, seenHere) := CollectOne(f, pkg, seen);
      var (rest, all) := Collect(fields[1..], pkg, seenHere);
      CollectOneSpec(f, pkg, seen);
      CollectSpec(fields[1..], pkg, seenHere);
      WellOrderedAppend(here, rest, seen);
      NamesOfAppend(here, rest);
      FromAppend(here, [f], rest, fields[1..], pkg);
      assert [f] + fields[1..] == fields;
    }
  }

  lemma NothingCollected(pkg: string, seen: set<string>)
    ensures WellOrdered([], seen) && NamesOf([]) == {} && From([], [], pkg)
  {
  }

  lemma {:induction false} CollectOneSpec(f: FieldMeta, pkg: string, seen: set<string>)
    ensures var (out, after) := CollectOne(f, pkg, seen);
      WellOrdered(out, seen) && after == seen + NamesOf(out) == seen + NestedNamesOne(f) && From(out, [f], pkg)
    decreases f
  {
    hide WellOrdered, From, InTree;
    if f.subFields == [] {
      NothingCollected(pkg, seen);
      FromNothing([f], pkg);
    } else {
      var (children, seenBelow) := Collect(f.subFields, pkg, seen);
      CollectSpec(f.subFields, pkg, seen);
      FromBelow(children, f, pkg);
      if f.nestedTypeName !in seenBelow {
        LastDeclaration(f, pkg, seenBelow);
        WellOrderedAppend(children, [DeclOf(f, pkg)], seen);
        NamesOfAppend(children, [DeclOf(f, pkg)]);
        FromSame(children, [DeclOf(f, pkg)], [f], pkg);
      }
    }
  }

  lemma FromNothing(fields: seq<FieldMeta>, pkg: string)
    ensures From([], fields, pkg)
  {
  }

  lemma FromBelow(out: seq<NestedType>, f: FieldMeta, pkg: string)
    requires From(out, f.subFields, pkg)
    ensures From(out, [f], pkg)
  {
    forall d | Source(d, f.subFields, pkg) ensures Source(d, [f], pkg) {
      var g :| InTree(g, f.subFields) && g.subFields != [] && d == DeclOf(g, pkg);
      assert InTree(g, [f][0].subFields);
      assert InTree(g, [f]);
    }
  }

  lemma FromSame(a: seq<NestedType>, b: seq<NestedType>, fields: seq<FieldMeta>, pkg: string)
    requires From(a, fields, pkg) && From(b, fields, pkg)
    ensures From(a + b, fields, pkg)
  {
  }

  lemma LastDeclaration(f: FieldMeta, pkg: string, seen: set<string>)
    requires f.subFields != [] && f.nestedTypeName !in seen && NestedNames(f.subFields) <= seen
    ensures WellOrdered([DeclOf(f, pkg)], seen) && NamesOf([DeclOf(f, pkg)]) == {f.nestedTypeName}
    ensures From([DeclOf(f, pkg)], [f], pkg)
  {
    var last := DeclOf(f, pkg);
    assert [last][..0] == [] && [last][0] == last;
    assert [f][0] == f && InTree(f, [f]);
    assert Source(last, [f], pkg);
  }

  // ---------- a package of models ----------

  /** Generating the models of a package one after another, threading the shared map. */
  function GenerateAll(models: seq<seq<FieldMeta>>, pkg: string, seen: set<string>): seq<NestedType> {
    if models == [] then []
    else
      var (out, after) := Collect(models[0], pkg, seen);
      out + GenerateAll(models[1..], pkg, after)
  }

  function Flatten(models: seq<seq<FieldMeta>>): seq<FieldMeta> {
    if models == [] then [] else models[0] + Flatten(models[1..])
  }

  lemma {:induction false} CollectAppend(a: seq<FieldMeta>, b: seq<FieldMeta>, pkg: string, seen: set<string>)
    ensures var (out, mid) := Collect(a, pkg, seen);
            var (out', after) := Collect(b, pkg, mid);
      Collect(a + b, pkg, seen) == (out + out', after)
  {
    var (out, mid) := Collect(a, pkg, seen);
    var (out', after) := Collect(b, pkg, mid);
    if a == [] {
      assert a + b == b && out + out' == out';
    } else {
      var (here, seenHere) := CollectOne(a[0], pkg, seen);
      var (rest, _) := Collect(a[1..], pkg, seenHere);
      assert (a + b)[0] == a[0] && (a + b)[1..] == a[1..] + b;
      CollectAppend(a[1..], b, pkg, seenHere);
      assert here + (rest + out') == out + out';
    }
  }

  /** Sharing the map makes a package behave as one field list. */
  lemma {:induction false} GenerateAllIsCollect(models: seq<seq<FieldMeta>>, pkg: string, seen: set<string>)
    ensures GenerateAll(models, pkg, seen) == Collect(Flatten(models), pkg, seen).0
  {
    if models != [] {
      CollectAppend(models[0], Flatten(models[1..]), pkg, seen);
      GenerateAllIsCollect(models[1..], pkg, Collect(models[0], pkg, seen).1);
    }
  }

  method GenerateModels(models: seq<seq<FieldMeta>>, pkg: string) returns (out: seq<seq<NestedType>>)
    ensures |out| == |models| && Concat(out) == GenerateAll(models, pkg, {})
  {
    hide Collect;
    var seen := new SeenNames();
    out := [];
    for i := 0 to |models|
      invariant |out| == i && fresh(seen)
      invariant GenerateAll(models, pkg, {}) == Concat(out) + GenerateAll(models[i..], pkg, seen.names)
    {
      assert models[i..][0] == models[i] && models[i..][1..] == models[i + 1..];
      ghost var rest := GenerateAll(models[i + 1..], pkg, Collect(models[i], pkg, seen.names).1);
      ghost var before := Concat(out);
      var types := CollectNestedTypes(models[i], pkg, seen);
      ConcatSnoc(out, types);
      out := out + [types];
      assert Concat(out) + rest == before + (types + rest);
    }
    assert models[|models|..] == [];
    assert GenerateAll(models[|models|..], pkg, seen.names) == [] && Concat(out) + [] == Concat(out);
  }

  function Concat(xs: seq<seq<NestedType>>): seq<NestedType> {
    if xs == [] then [] else xs[0] + Concat(xs[1..])
  }

  lemma {:induction false} ConcatSnoc(xs: seq<seq<NestedType>>, x: seq<NestedType>)
    ensures Concat(xs + [x]) == Concat(xs) + x
  {
    if xs == [] {
      assert xs + [x] == [x] && [x][1..] == [];
    } else {
      assert (xs + [x])[0] == xs[0] && (xs + [x])[1..] == xs[1..] + [x];
      ConcatSnoc(xs[1..], x);
    }
  }

  // ---------- the kept declaration fits ----------

  lemma {:induction false} EraseStamp(fields: seq<FieldMeta>, pkg: string)
    ensures Erase(WithFieldPkg(fields, pkg)) == WithFieldPkg(Erase(fields), pkg)
    decreases fields
  {
    if fields != [] {
      EraseStamp(fields[0].subFields, pkg);
      EraseStamp(fields[1..], pkg);
    }
  }

  lemma {:induction false} StampAt(fields: seq<FieldMeta>, pkg: string, i: nat)
    requires i < |fields|
    ensures WithFieldPkg(fields, pkg)[i] == StampOne(fields[i], pkg)
  {
    if i > 0 {
      StampAt(fields[1..], pkg, i - 1);
    }
  }

  lemma {:induction false} UnstampTree(fields: seq<FieldMeta>, pkg: string, f: FieldMeta) returns (g: FieldMeta)
    requires InTree(f, WithFieldPkg(fields, pkg))
    ensures InTree(g, fields) && f == StampOne(g, pkg)
    decreases fields
  {
    var stamped := WithFieldPkg(fields, pkg);
    var i :| 0 <= i < |stamped| && (stamped[i] == f || InTree(f, stamped[i].subFields));
    StampAt(fields, pkg, i);
    if stamped[i] == f {
      g := fields[i];
    } else {
      g := UnstampTree(fields[i].subFields, pkg, f);
    }
  }

  /** The models of a package: each target's extracted fields, stamped. */
  function Models(p: Parser, m: StructMap, targets: seq<string>, pkg: string): seq<seq<FieldMeta>>
    requires forall i :: 0 <= i < |targets| ==> targets[i] in m
  {
    if targets == [] then [] else [WithFieldPkg(Fields(p, m, targets[0]), pkg)] + Models(p, m, targets[1..], pkg)
  }

  lemma {:induction false} FromSomeModel(p: Parser, m: StructMap, targets: seq<string>, pkg: string, f: FieldMeta)
    returns (target: string, g: FieldMeta)
    requires forall i :: 0 <= i < |targets| ==> targets[i] in m
    requires InTree(f, Flatten(Models(p, m, targets, pkg)))
    ensures target in targets && target in m && InTree(g, Fields(p, m, target)) && f == StampOne(g, pkg)
  {
    hide Fields;
    var all := Flatten(Models(p, m, targets, pkg));
    var i :| 0 <= i < |all| && (all[i] == f || InTree(f, all[i].subFields));
    var first := WithFieldPkg(Fields(p, m, targets[0]), pkg);
    var rest := Flatten(Models(p, m, targets[1..], pkg));
    assert all == first + rest;
    if i < |first| {
      assert InTree(f, first);
      target := targets[0];
      g := UnstampTree(Fields(p, m, target), pkg, f);
    } else {
      assert rest[i - |first|] == all[i];
      assert InTree(f, rest);
      target, g := FromSomeModel(p, m, targets[1..], pkg, f);
    }
  }

  /** The declaration can serve as the type of the use: same name, same embedded field with the same
      package qualifier, same fields below but for keys. */
  predicate Fits(decl: NestedType, f: FieldMeta) {
    && decl.typeName == f.nestedTypeName
    && decl.goType == f.goType && decl.fieldPkg == f.fieldPkg && decl.fieldType == f.fieldType
    && Erase(decl.fields) == Erase(f.subFields)
  }

  lemma {:induction false} StampTotal(fields: seq<FieldMeta>, pkg: string)
    ensures Total(WithFieldPkg(fields, pkg)) == Total(fields)
    decreases fields
  {
    if fields != [] {
      StampTotal(fields[0].subFields, pkg);
      StampTotal(fields[1..], pkg);
    }
  }

  /** Field f of a package is the stamped form of a nested field that the walk from some target meets
      on `path`. */
  ghost predicate UseIn(p: Parser, m: StructMap, targets: seq<string>, pkg: string, f: FieldMeta,
                        typ: TypeExpr, path: seq<string>) {
    exists a, g :: a in targets && f == StampOne(g, pkg) && NestedUse(p, m, a, g, typ, path)
  }

  /** The fields of struct s's own model, as stamped for the package, without keys. */
  function OwnFields(p: Parser, m: StructMap, pkg: string, s: string): seq<FieldMeta>
    requires s in m
  {
    Erase(WithFieldPkg(Fields(p, m, s), pkg))
  }

  /** A use has its struct's own fields exactly when the path it is met on is untangled. */
  lemma UseTells(p: Parser, m: StructMap, targets: seq<string>, pkg: string, f: FieldMeta, typ: TypeExpr,
                 path: seq<string>)
    requires UseIn(p, m, targets, pkg, f, typ, path)
    ensures var s := NestedStructName(typ);
      && s in m && f.nestedTypeName == ModelName(s) && f.goType == TypeName(p, typ)
      && f.fieldPkg == pkg && f.fieldType == "Field[" + f.goType + "]"
      && (Untangled(m, path, s) ==> Erase(f.subFields) == OwnFields(p, m, pkg, s))
      && (NoOwnEmbeds(m) ==> (Erase(f.subFields) == OwnFields(p, m, pkg, s) <==> Untangled(m, path, s)))
  {
    hide Fields, Erase, Total, Untangled, IsPath, ModelName, NestedStructName, TypeName, Outline, Keyed;
    var a, g :| a in targets && f == StampOne(g, pkg) && NestedUse(p, m, a, g, typ, path);
    var s := NestedStructName(typ);
    OwnFieldsIff(p, m, a, g, typ, path);
    EraseStamp(g.subFields, pkg);
    EraseStamp(Fields(p, m, s), pkg);
    StampTotal(g.subFields, pkg);
    StampTotal(Fields(p, m, s), pkg);
    EraseTotal(f.subFields);
    EraseTotal(WithFieldPkg(Fields(p, m, s), pkg));
  }

  /** A nested field of a package is met on a path, and has its struct's own fields exactly when
      that path is untangled. */
  lemma PackageUse(p: Parser, m: StructMap, targets: seq<string>, pkg: string, f: FieldMeta)
    returns (typ: TypeExpr, path: seq<string>)
    requires forall i :: 0 <= i < |targets| ==> targets[i] in m
    requires InTree(f, Flatten(Models(p, m, targets, pkg))) && f.subFields != []
    ensures UseIn(p, m, targets, pkg, f, typ, path)
    ensures var s := NestedStructName(typ);
      && s in m && f.nestedTypeName == ModelName(s) && f.goType == TypeName(p, typ)
      && f.fieldPkg == pkg && f.fieldType == "Field[" + f.goType + "]"
      && (Untangled(m, path, s) ==> Erase(f.subFields) == OwnFields(p, m, pkg, s))
      && (NoOwnEmbeds(m) ==> (Erase(f.subFields) == OwnFields(p, m, pkg, s) <==> Untangled(m, path, s)))
  {
    hide Fields, Erase, Models, Untangled, ModelName, NestedStructName, TypeName, NestedUse, InTree, OwnFields;
    var a, g := FromSomeModel(p, m, targets, pkg, f);
    StampNothing(pkg);
    typ, path := UseInFields(p, m, a, g);
    assert UseIn(p, m, targets, pkg, f, typ, path);
    UseTells(p, m, targets, pkg, f, typ, path);
  }

  /** Every nested use finds exactly one declaration of its name, made from some use of the same
      struct. */
  lemma DeclarationOf(p: Parser, m: StructMap, targets: seq<string>, pkg: string, f: FieldMeta)
    returns (k: nat, h: FieldMeta)
    requires forall i :: 0 <= i < |targets| ==> targets[i] in m
    requires InTree(f, Flatten(Models(p, m, targets, pkg))) && f.subFields != []
    ensures var decls := GenerateAll(Models(p, m, targets, pkg), pkg, {});
      && k < |decls| && decls[k].typeName == f.nestedTypeName
      && (forall j :: 0 <= j < |decls| && decls[j].typeName == f.nestedTypeName ==> j == k)
      && InTree(h, Flatten(Models(p, m, targets, pkg))) && h.subFields != [] && decls[k] == DeclOf(h, pkg)
  {
    hide Fields, Models, InTree;
    var models := Models(p, m, targets, pkg);
    var fields := Flatten(models);
    GenerateAllIsCollect(models, pkg, {});
    CollectSpec(fields, pkg, {});
    var decls := Collect(fields, pkg, {}).0;
    UseIsNamed(fields, f);
    assert f.nestedTypeName in NamesOf(decls);
    k :| 0 <= k < |decls| && decls[k].typeName == f.nestedTypeName;
    DeclaredOnce(decls, {}, k);
    assert Source(decls[k], fields, pkg);
    h :| InTree(h, fields) && h.subFields != [] && decls[k] == DeclOf(h, pkg);
  }

  /** In a package from a file without name collisions, every nested use finds exactly one
      declaration of its name, made from the use h met on the path `kept`. If that path is
      untangled, the declaration fits exactly when the use's own path is untangled too and
      both have the same pointer depth; if only the use's path is, it does not fit. */
  lemma DeclarationFitsIff(p: Parser, m: StructMap, targets: seq<string>, pkg: string, f: FieldMeta)
    returns (k: nat, h: FieldMeta, t: TypeExpr, u: TypeExpr, path: seq<string>, kept: seq<string>)
    requires NoEmptyName(m) && NoModelPair(m) && NoOwnEmbeds(m)
    requires forall i :: 0 <= i < |targets| ==> targets[i] in m
    requires InTree(f, Flatten(Models(p, m, targets, pkg))) && f.subFields != []
    ensures UseIn(p, m, targets, pkg, f, t, path) && UseIn(p, m, targets, pkg, h, u, kept)
    ensures NestedStructName(t) == NestedStructName(u)
    ensures var decls := GenerateAll(Models(p, m, targets, pkg), pkg, {});
            var s := NestedStructName(t);
      && k < |decls| && decls[k].typeName == f.nestedTypeName && decls[k] == DeclOf(h, pkg)
      && (forall j :: 0 <= j < |decls| && decls[j].typeName == f.nestedTypeName ==> j == k)
      && (Untangled(m, kept, s) ==>
            (Fits(decls[k], f) <==> Untangled(m, path, s) && PointerDepth(decls[k].goType) == PointerDepth(f.goType)))
      && (Untangled(m, path, s) && !Untangled(m, kept, s) ==> !Fits(decls[k], f))
  {
    hide Fields, Erase, Models, Untangled, ModelName, NestedStructName, TypeName, InTree, OwnFields, UseIn, GenerateAll;
    k, h := DeclarationOf(p, m, targets, pkg, f);
    t, path := PackageUse(p, m, targets, pkg, f);
    u, kept := PackageUse(p, m, targets, pkg, h);
    ModelNameInjective(m, NestedStructName(t), NestedStructName(u));
    NameIsPlain(m, NestedStructName(t));
    DepthDecides(p, t, u);
  }

  lemma NameIsPlain(m: StructMap, s: string)
    requires NoEmptyName(m) && s in m
    ensures s != "" && s[0] != '*'
  {
  }

  /** Where no path from the targets is tangled, which covers structs that refer to themselves,
      every declaration fits each of its uses exactly when their pointer depths agree. */
  lemma OneDeclarationFits(p: Parser, m: StructMap, targets: seq<string>, pkg: string, f: FieldMeta)
    returns (k: nat)
    requires NoEmptyName(m) && NoModelPair(m) && UntangledFile(m, targets)
    requires forall i :: 0 <= i < |targets| ==> targets[i] in m
    requires InTree(f, Flatten(Models(p, m, targets, pkg))) && f.subFields != []
    ensures var decls := GenerateAll(Models(p, m, targets, pkg), pkg, {});
      && k < |decls| && decls[k].typeName == f.nestedTypeName
      && (forall j :: 0 <= j < |decls| && decls[j].typeName == f.nestedTypeName ==> j == k)
      && Erase(decls[k].fields) == Erase(f.subFields)
      && (Fits(decls[k], f) <==> PointerDepth(decls[k].goType) == PointerDepth(f.goType))
  {
    hide Fields, Erase, Models, Untangled, IsPath, ModelName;
    hide NestedStructName, TypeName, InTree, OwnFields, GenerateAll;
    var h;
    k, h := DeclarationOf(p, m, targets, pkg, f);
    var t, path := PackageUse(p, m, targets, pkg, f);
    var u, kept := PackageUse(p, m, targets, pkg, h);
    ModelNameInjective(m, NestedStructName(t), NestedStructName(u));
    NameIsPlain(m, NestedStructName(t));
    DepthDecides(p, t, u);
  }

  lemma DeclaredOnce(out: seq<NestedType>, seen: set<string>, k: nat)
    requires WellOrdered(out, seen) && k < |out|
    ensures forall j :: 0 <= j < |out| && out[j].typeName == out[k].typeName ==> j == k
  {
    forall j | 0 <= j < |out| && out[j].typeName == out[k].typeName ensures j == k {
      if j != k {
        NameBefore(out, if j < k then j else k, if j < k then k else j);
      }
    }
  }

  lemma NameBefore(out: seq<NestedType>, i: nat, j: nat)
    requires i < j <= |out|
    ensures out[i].typeName in NamesOf(out[..j])
  {
    assert out[..j][i] == out[i];
  }

  lemma {:induction false} UseIsNamed(fields: seq<FieldMeta>, f: FieldMeta)
    requires InTree(f, fields) && f.subFields != []
    ensures f.nestedTypeName in NestedNames(fields)
    decreases fields
  {
    var i :| 0 <= i < |fields| && (fields[i] == f || InTree(f, fields[i].subFields));
    if fields[i] != f {
      UseIsNamed(fields[i].subFields, f);
    }
    NamedAt(fields, i);
  }

  lemma {:induction false} NamedAt(fields: seq<FieldMeta>, i: nat)
    requires i < |fields|
    ensures NestedNamesOne(fields[i]) <= NestedNames(fields)
  {
    if i > 0 {
      NamedAt(fields[1..], i - 1);
    }
  }

  /** Nested declarations and the models' own struct types live in one package. A target's type
      name is declared a second time exactly when the walk from some target meets a named field
      of a struct with that generated name and finds fields in it. */
  lemma TargetClashIff(p: Parser, m: StructMap, targets: seq<string>, pkg: string, target: string)
    requires target in targets && forall i :: 0 <= i < |targets| ==> targets[i] in m
    ensures ModelName(target) in NamesOf(GenerateAll(Models(p, m, targets, pkg), pkg, {}))
       <==> exists i, path, s :: 0 <= i < |targets| && FindsFields(p, m, targets[i], path, s)
                                 && ModelName(s) == ModelName(target)
  {
    hide Fields, Models, ModelName, Collect, InTree, IsPath, Outline, NestedStructName, TypeName, Keyed;
    var models := Models(p, m, targets, pkg);
    var fields := Flatten(models);
    var decls := GenerateAll(models, pkg, {});
    GenerateAllIsCollect(models, pkg, {});
    CollectSpec(fields, pkg, {});
    if ModelName(target) in NamesOf(decls) {
      var k :| 0 <= k < |decls| && decls[k].typeName == ModelName(target);
      assert Source(decls[k], fields, pkg);
      var h :| InTree(h, fields) && h.subFields != [] && decls[k] == DeclOf(h, pkg);
      var a, g := FromSomeModel(p, m, targets, pkg, h);
      StampNothing(pkg);
      var t, path := UseInFields(p, m, a, g);
      KeyedNothing(p, g.bsonKey);
      var i :| 0 <= i < |targets| && targets[i] == a;
      assert FindsFields(p, m, targets[i], path, NestedStructName(t));
    }
    if i, path, s :| 0 <= i < |targets| && FindsFields(p, m, targets[i], path, s) && ModelName(s) == ModelName(target) {
      var g, t := PathInFields(p, m, targets[i], path, s);
      StampTree(Fields(p, m, targets[i]), pkg, g);
      InSomeModel(p, m, targets, pkg, i, StampOne(g, pkg));
      StampSome(g.subFields, pkg);
      UseIsNamed(fields, StampOne(g, pkg));
    }
  }

  lemma StampNothing(pkg: string)
    ensures WithFieldPkg([], pkg) == []
  {
  }

  lemma StampSome(fields: seq<FieldMeta>, pkg: string)
    ensures |WithFieldPkg(fields, pkg)| == |fields|
  {
  }

  lemma {:induction false} StampTree(fields: seq<FieldMeta>, pkg: string, g: FieldMeta)
    requires InTree(g, fields)
    ensures InTree(StampOne(g, pkg), WithFieldPkg(fields, pkg))
    decreases fields
  {
    var i :| 0 <= i < |fields| && (fields[i] == g || InTree(g, fields[i].subFields));
    StampAt(fields, pkg, i);
    if fields[i] != g {
      StampTree(fields[i].subFields, pkg, g);
    }
  }

  lemma {:induction false} InSomeModel(p: Parser, m: StructMap, targets: seq<string>, pkg: string, i: nat, f: FieldMeta)
    requires forall k :: 0 <= k < |targets| ==> targets[k] in m
    requires i < |targets| && InTree(f, WithFieldPkg(Fields(p, m, targets[i]), pkg))
    ensures InTree(f, Flatten(Models(p, m, targets, pkg)))
    decreases i
  {
    hide Fields, InTree;
    if i > 0 {
      InSomeModel(p, m, targets[1..], pkg, i - 1, f);
    }
    TreeAppend(f, WithFieldPkg(Fields(p, m, targets[0]), pkg), Flatten(Models(p, m, targets[1..], pkg)));
  }
}
