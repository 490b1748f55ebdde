/** When the generated package type-checks: the templates write each nested use as a literal of its
    type's one declaration, so a use is checked against that declaration one level deep
    (framework/cmd/mongogen/generator/templates.go). */
module MongoPackage {
  import opened MongoParser
  import opened MongoPaths
  import opened MongoShapes
  import opened MongoGenerator

  /** The type a field is declared with: a nested type's name, or a plain field of a Go type, which
      shared packages write with its qualifier and standalone files without. */
  datatype FieldShape =
    | NestedField(typeName: string)
    | PlainField(fieldPkg: string, goType: string, fieldType: string)

  function ShapeOf(f: FieldMeta): FieldShape {
    if f.subFields != [] then NestedField(f.nestedTypeName) else PlainField(f.fieldPkg, f.goType, f.fieldType)
  }

  /** The field a declaration embeds is the one its uses fill in. */
  predicate SameEmbedded(decl: NestedType, f: FieldMeta) {
    decl.goType == f.goType && decl.fieldPkg == f.fieldPkg && decl.fieldType == f.fieldType
  }

  predicate SameField(f: FieldMeta, g: FieldMeta) {
    f.goName == g.goName && ShapeOf(f) == ShapeOf(g)
  }

  predicate Declares(decl: NestedType, f: FieldMeta) {
    exists j :: 0 <= j < |decl.fields| && SameField(decl.fields[j], f)
  }

  /** The use's literal names the embedded field and its own fields, each of which the declaration
      must have with the same type. */
  predicate Compiles(decl: NestedType, f: FieldMeta) {
    SameEmbedded(decl, f) && forall i :: 0 <= i < |f.subFields| ==> Declares(decl, f.subFields[i])
  }

  /** The literal also leaves no field of the declaration without its key. */
  predicate Matches(decl: NestedType, f: FieldMeta) {
    && SameEmbedded(decl, f) && |decl.fields| == |f.subFields|
    && forall i :: 0 <= i < |f.subFields| ==> SameField(decl.fields[i], f.subFields[i])
  }

  lemma MatchesCompiles(decl: NestedType, f: FieldMeta)
    requires Matches(decl, f)
    ensures Compiles(decl, f)
  {
    hide SameField;
    forall i | 0 <= i < |f.subFields| ensures Declares(decl, f.subFields[i]) {
      assert SameField(decl.fields[i], f.subFields[i]);
    }
  }

  /** One field can stand for the other: their names agree and their types do, nested ones by the
      type's name, plain ones by qualifier, Go type and field type. */
  lemma SameFieldIff(d: FieldMeta, g: FieldMeta)
    ensures SameField(d, g) <==>
      && d.goName == g.goName && (d.subFields == [] <==> g.subFields == [])
      && (g.subFields != [] ==> d.nestedTypeName == g.nestedTypeName)
      && (g.subFields == [] ==> d.fieldPkg == g.fieldPkg && d.goType == g.goType && d.fieldType == g.fieldType)
  {
  }

  /** A literal with a field the declaration lacks does not compile. */
  lemma UnknownFieldFails(decl: NestedType, f: FieldMeta, i: nat)
    requires i < |f.subFields|
    requires forall j :: 0 <= j < |decl.fields| ==> decl.fields[j].goName != f.subFields[i].goName
    ensures !Compiles(decl, f)
  {
    assert !Declares(decl, f.subFields[i]);
  }

  // ---------- fields as the generator gets them ----------

  /** Stamped with the package, the field type following from the Go type, a nested name only where
      there are fields below. */
  ghost predicate Regular(fields: seq<FieldMeta>, pkg: string)
    decreases fields
  {
    forall i :: 0 <= i < |fields| ==>
      && fields[i].fieldPkg == pkg && fields[i].fieldType == "Field[" + fields[i].goType + "]"
      && (fields[i].subFields == [] ==> fields[i].nestedTypeName == "")
      && Regular(fields[i].subFields, pkg)
  }

  lemma {:induction false} KeyedRegular(p: Parser, m: StructMap, decls: Struct, parentKey: string, nodes: seq<Node>)
    requires RootedNodes(p, m, decls, nodes)
    ensures Regular(Keyed(p, parentKey, nodes), "")
    decreases nodes
  {
    hide TypeName, ModelName, NestedStructName, ComesFrom;
    forall i | 0 <= i < |nodes| ensures Regular([Keyed(p, parentKey, nodes)[i]], "") {
      KeyedAt(p, parentKey, nodes, i);
      match nodes[i]
      case Fixed(f) => SynthesizedRegular(f);
      case Own(_, typ, key, subs) =>
        if subs == [] {
          assert Keyed(p, JoinKey(parentKey, key), subs) == [];
        } else {
          KeyedRegular(p, m, m[NestedStructName(typ)], JoinKey(parentKey, key), subs);
        }
    }
    Pointwise(Keyed(p, parentKey, nodes), "");
  }

  lemma SynthesizedRegular(f: FieldMeta)
    requires IsSynthesized(f)
    ensures Regular([f], "")
  {
  }

  lemma Pointwise(fields: seq<FieldMeta>, pkg: string)
    requires forall i :: 0 <= i < |fields| ==> Regular([fields[i]], pkg)
    ensures Regular(fields, pkg)
  {
    forall i | 0 <= i < |fields| ensures [fields[i]][0] == fields[i] {
    }
  }

  lemma {:induction false} StampRegular(fields: seq<FieldMeta>, pkg: string)
    requires Regular(fields, "")
    ensures Regular(WithFieldPkg(fields, pkg), pkg)
    decreases fields
  {
    forall i | 0 <= i < |fields| ensures Regular([WithFieldPkg(fields, pkg)[i]], pkg) {
      StampAt(fields, pkg, i);
      StampRegular(fields[i].subFields, pkg);
      StampSome(fields[i].subFields, pkg);
    }
    Pointwise(WithFieldPkg(fields, pkg), pkg);
  }

  lemma {:induction false} ModelsRegular(p: Parser, m: StructMap, targets: seq<string>, pkg: string)
    requires forall i :: 0 <= i < |targets| ==> targets[i] in m
    ensures Regular(Flatten(Models(p, m, targets, pkg)), pkg)
  {
    hide Outline, Keyed, RootedNodes;
    if targets != [] {
      var a := targets[0];
      OutlineRooted(p, m, m[a], {a});
      KeyedRegular(p, m, m[a], "", Outline(p, m, m[a], {a}));
      ExtractIsKeyedOutline(p, m, m[a], "", {a});
      StampRegular(Fields(p, m, a), pkg);
      ModelsRegular(p, m, targets[1..], pkg);
    }
  }

  lemma {:induction false} RegularInTree(fields: seq<FieldMeta>, pkg: string, f: FieldMeta)
    requires Regular(fields, pkg) && InTree(f, fields)
    ensures Regular([f], pkg)
    decreases fields
  {
    var i :| 0 <= i < |fields| && (fields[i] == f || InTree(f, fields[i].subFields));
    if fields[i] != f {
      RegularInTree(fields[i].subFields, pkg, f);
    }
  }

  // ---------- one level everywhere is every level ----------

  ghost predicate IsNested(f: FieldMeta, fields: seq<FieldMeta>) {
    InTree(f, fields) && f.subFields != []
  }

  /** Uses of one name have the same Go type and, keys aside, the same fields at every depth. */
  ghost predicate UsesAgree(fields: seq<FieldMeta>) {
    forall f, g :: IsNested(f, fields) && IsNested(g, fields) && f.nestedTypeName == g.nestedTypeName ==>
      f.goType == g.goType && Erase(f.subFields) == Erase(g.subFields)
  }

  /** Every use matches the declaration of its name. */
  ghost predicate AllMatch(fields: seq<FieldMeta>, pkg: string) {
    var decls := Collect(fields, pkg, {}).0;
    forall f, k :: IsNested(f, fields) && 0 <= k < |decls| && decls[k].typeName == f.nestedTypeName ==>
      Matches(decls[k], f)
  }

  ghost predicate AllCompile(fields: seq<FieldMeta>, pkg: string) {
    var decls := Collect(fields, pkg, {}).0;
    forall f, k :: IsNested(f, fields) && 0 <= k < |decls| && decls[k].typeName == f.nestedTypeName ==>
      Compiles(decls[k], f)
  }

  lemma {:induction false} EraseAt(fields: seq<FieldMeta>, i: nat)
    requires i < |fields|
    ensures Erase(fields)[i] == EraseOne(fields[i])
  {
    if i > 0 {
      EraseAt(fields[1..], i - 1);
    }
  }

  /** Declarations and uses of a name, in any field list. */
  lemma DeclOfUse(fields: seq<FieldMeta>, pkg: string, f: FieldMeta) returns (k: nat)
    requires IsNested(f, fields)
    ensures k < |Collect(fields, pkg, {}).0| && Collect(fields, pkg, {}).0[k].typeName == f.nestedTypeName
  {
    hide InTree, WellOrdered, From;
    CollectSpec(fields, pkg, {});
    UseIsNamed(fields, f);
    assert f.nestedTypeName in NamesOf(Collect(fields, pkg, {}).0);
    k :| 0 <= k < |Collect(fields, pkg, {}).0| && Collect(fields, pkg, {}).0[k].typeName == f.nestedTypeName;
  }

  lemma UseOfDecl(fields: seq<FieldMeta>, pkg: string, k: nat) returns (h: FieldMeta)
    requires k < |Collect(fields, pkg, {}).0|
    ensures IsNested(h, fields) && Collect(fields, pkg, {}).0[k] == DeclOf(h, pkg)
  {
    hide InTree, WellOrdered;
    CollectSpec(fields, pkg, {});
    assert Source(Collect(fields, pkg, {}).0[k], fields, pkg);
    h :| InTree(h, fields) && h.subFields != [] && Collect(fields, pkg, {}).0[k] == DeclOf(h, pkg);
  }

  /** Two uses that match one declaration agree one level deep. */
  lemma MatchBoth(fields: seq<FieldMeta>, pkg: string, f: FieldMeta, g: FieldMeta)
    requires AllMatch(fields, pkg) && IsNested(f, fields) && IsNested(g, fields) && f.nestedTypeName == g.nestedTypeName
    ensures f.goType == g.goType && |f.subFields| == |g.subFields|
    ensures forall i :: 0 <= i < |f.subFields| ==> SameField(f.subFields[i], g.subFields[i])
  {
    hide Collect, IsNested;
    var k := DeclOfUse(fields, pkg, f);
    var decl := Collect(fields, pkg, {}).0[k];
    assert Matches(decl, f) && Matches(decl, g);
    forall i | 0 <= i < |f.subFields| ensures SameField(f.subFields[i], g.subFields[i]) {
      assert SameField(decl.fields[i], f.subFields[i]) && SameField(decl.fields[i], g.subFields[i]);
    }
  }

  lemma {:induction false} SubInTree(fields: seq<FieldMeta>, f: FieldMeta, i: nat)
    requires InTree(f, fields) && i < |f.subFields|
    ensures InTree(f.subFields[i], fields)
    decreases fields
  {
    var j :| 0 <= j < |fields| && (fields[j] == f || InTree(f, fields[j].subFields));
    if fields[j] == f {
      assert InTree(f.subFields[i], fields[j].subFields);
    } else {
      SubInTree(fields[j].subFields, f, i);
    }
  }

  lemma {:induction false} MatchDeep(fields: seq<FieldMeta>, pkg: string, f: FieldMeta, g: FieldMeta)
    requires Regular(fields, pkg) && AllMatch(fields, pkg)
    requires IsNested(f, fields) && IsNested(g, fields) && f.nestedTypeName == g.nestedTypeName
    ensures f.goType == g.goType && Erase(f.subFields) == Erase(g.subFields)
    decreases f
  {
    hide AllMatch, InTree, Regular, Erase;
    MatchBoth(fields, pkg, f, g);
    forall i | 0 <= i < |f.subFields| ensures Erase(f.subFields)[i] == Erase(g.subFields)[i] {
      var x, y := f.subFields[i], g.subFields[i];
      assert SameField(x, y);
      EraseAt(f.subFields, i);
      EraseAt(g.subFields, i);
      SubInTree(fields, f, i);
      SubInTree(fields, g, i);
      RegularInTree(fields, pkg, x);
      RegularInTree(fields, pkg, y);
      if x.subFields != [] {
        MatchDeep(fields, pkg, x, y);
      }
      SameErased(pkg, x, y);
    }
  }

  lemma SameErased(pkg: string, x: FieldMeta, y: FieldMeta)
    requires Regular([x], pkg) && Regular([y], pkg) && SameField(x, y)
    requires x.subFields != [] ==> x.goType == y.goType && Erase(x.subFields) == Erase(y.subFields)
    ensures EraseOne(x) == EraseOne(y)
  {
    assert [x][0] == x && [y][0] == y;
  }

  lemma AgreeMatches(pkg: string, h: FieldMeta, f: FieldMeta)
    requires Regular([h], pkg) && Regular([f], pkg)
    requires h.goType == f.goType && Erase(h.subFields) == Erase(f.subFields)
    ensures Matches(DeclOf(h, pkg), f)
  {
    hide Erase;
    assert [h][0] == h && [f][0] == f;
    forall i | 0 <= i < |f.subFields| ensures SameField(h.subFields[i], f.subFields[i]) {
      EraseAt(h.subFields, i);
      EraseAt(f.subFields, i);
      assert |Erase(h.subFields[i].subFields)| == |Erase(f.subFields[i].subFields)|;
    }
  }

  /** Every use matches the one declaration of its name, looked at one level deep, if and only if all
      uses of a name agree at every depth. No condition on the file. */
  lemma AllMatchIff(fields: seq<FieldMeta>, pkg: string)
    requires Regular(fields, pkg)
    ensures AllMatch(fields, pkg) <==> UsesAgree(fields)
  {
    hide Collect, IsNested, Regular, Erase, Matches;
    if AllMatch(fields, pkg) {
      forall f, g | IsNested(f, fields) && IsNested(g, fields) && f.nestedTypeName == g.nestedTypeName
        ensures f.goType == g.goType && Erase(f.subFields) == Erase(g.subFields)
      {
        MatchDeep(fields, pkg, f, g);
      }
    }
    if UsesAgree(fields) {
      var decls := Collect(fields, pkg, {}).0;
      forall f, k | IsNested(f, fields) && 0 <= k < |decls| && decls[k].typeName == f.nestedTypeName
        ensures Matches(decls[k], f)
      {
        var h := UseOfDecl(fields, pkg, k);
        NestedRegular(fields, pkg, h);
        NestedRegular(fields, pkg, f);
        AgreeMatches(pkg, h, f);
      }
    }
  }

  lemma NestedRegular(fields: seq<FieldMeta>, pkg: string, f: FieldMeta)
    requires Regular(fields, pkg) && IsNested(f, fields)
    ensures Regular([f], pkg)
  {
    hide Regular, InTree;
    RegularInTree(fields, pkg, f);
  }

  lemma PackageMatchesIff(p: Parser, m: StructMap, targets: seq<string>, pkg: string)
    requires forall i :: 0 <= i < |targets| ==> targets[i] in m
    ensures var fields := Flatten(Models(p, m, targets, pkg)); AllMatch(fields, pkg) <==> UsesAgree(fields)
  {
    ModelsRegular(p, m, targets, pkg);
    AllMatchIff(Flatten(Models(p, m, targets, pkg)), pkg);
  }

  /** Uses of one name go through equally many pointers. */
  ghost predicate SameDepths(fields: seq<FieldMeta>) {
    forall f, g :: IsNested(f, fields) && IsNested(g, fields) && f.nestedTypeName == g.nestedTypeName ==>
      PointerDepth(f.goType) == PointerDepth(g.goType)
  }

  /** Where no path is tangled, the package type-checks, with no key left out, if and only if all
      uses of a name go through equally many pointers. */
  lemma PackageCompilesIff(p: Parser, m: StructMap, targets: seq<string>, pkg: string)
    requires NoEmptyName(m) && NoModelPair(m) && UntangledFile(m, targets)
    requires forall i :: 0 <= i < |targets| ==> targets[i] in m
    ensures var fields := Flatten(Models(p, m, targets, pkg));
      (AllCompile(fields, pkg) <==> SameDepths(fields)) && (AllMatch(fields, pkg) <==> SameDepths(fields))
  {
    hide Collect, Models, PointerDepth, UntangledFile, Fits, Erase, InTree, Regular;
    var models := Models(p, m, targets, pkg);
    var fields := Flatten(models);
    var decls := Collect(fields, pkg, {}).0;
    GenerateAllIsCollect(models, pkg, {});
    ModelsRegular(p, m, targets, pkg);
    if AllCompile(fields, pkg) || AllMatch(fields, pkg) {
      forall f, g | IsNested(f, fields) && IsNested(g, fields) && f.nestedTypeName == g.nestedTypeName
        ensures PointerDepth(f.goType) == PointerDepth(g.goType)
      {
        var k := DeclOfUse(fields, pkg, f);
      }
    }
    if SameDepths(fields) {
      forall f, k | IsNested(f, fields) && 0 <= k < |decls| && decls[k].typeName == f.nestedTypeName
        ensures Matches(decls[k], f) && Compiles(decls[k], f)
      {
        var j := OneDeclarationFits(p, m, targets, pkg, f);
        var h := UseOfDecl(fields, pkg, k);
        FitsAgrees(decls[k], f);
        NestedRegular(fields, pkg, h);
        NestedRegular(fields, pkg, f);
        AgreeMatches(pkg, h, f);
        MatchesCompiles(decls[k], f);
      }
    }
  }

  lemma FitsAgrees(decl: NestedType, f: FieldMeta)
    ensures Fits(decl, f) ==> decl.goType == f.goType && Erase(decl.fields) == Erase(f.subFields)
  {
  }

  /** Every declaration of a package has the package's qualifier and the field type of its Go type,
      and so has every field below it, at any depth. */
  lemma DeclarationsQualified(p: Parser, m: StructMap, targets: seq<string>, pkg: string, k: nat)
    requires forall i :: 0 <= i < |targets| ==> targets[i] in m
    requires k < |GenerateAll(Models(p, m, targets, pkg), pkg, {})|
    ensures var decl := GenerateAll(Models(p, m, targets, pkg), pkg, {})[k];
      && decl.fieldPkg == pkg && decl.fieldType == "Field[" + decl.goType + "]"
      && forall f :: InTree(f, decl.fields) ==> f.fieldPkg == pkg && f.fieldType == "Field[" + f.goType + "]"
  {
    hide Models, Collect, InTree;
    var models := Models(p, m, targets, pkg);
    GenerateAllIsCollect(models, pkg, {});
    ModelsRegular(p, m, targets, pkg);
    var h := UseOfDecl(Flatten(models), pkg, k);
    NestedRegular(Flatten(models), pkg, h);
    assert [h][0] == h;
    forall f | InTree(f, h.subFields)
      ensures f.fieldPkg == pkg && f.fieldType == "Field[" + f.goType + "]"
    {
      RegularInTree(h.subFields, pkg, f);
      assert [f][0] == f;
    }
  }

  /** In shared mode the declaration of B, made for a struct A with a field of it, embeds a field
      qualified with the framework's package. */
  lemma SharedDeclarationIsQualified(p: Parser, m: StructMap, targets: seq<string>, f: FieldMeta) returns (k: nat)
    requires forall i :: 0 <= i < |targets| ==> targets[i] in m
    requires InTree(f, Flatten(Models(p, m, targets, "mongo."))) && f.subFields != []
    ensures var decls := GenerateAll(Models(p, m, targets, "mongo."), "mongo.", {});
      k < |decls| && decls[k].typeName == f.nestedTypeName && decls[k].fieldPkg == "mongo."
  {
    hide Models, InTree, GenerateAll;
    var h;
    k, h := DeclarationOf(p, m, targets, "mongo.", f);
    DeclarationsQualified(p, m, targets, "mongo.", k);
  }
}
