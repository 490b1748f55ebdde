/** Which keys, names and types the extracted fields carry, spelled out on tags and declarations
    (framework/cmd/mongogen/parser/parser.go: extractFields, parseBsonKey, typeToString,
    knownEmbedFields). */
module MongoKeys {
  import opened MongoParser
  import opened MongoPaths
  import opened MongoShapes

  // ---------- keys come from tags ----------

  lemma {:induction false} CutAtComma(k: string, options: string)
    requires ',' !in k
    ensures FirstPart(k) == k && FirstPart(k + "," + options) == k
  {
    if k == "" {
      assert "" + "," + options == "," + options;
    } else {
      assert (k + "," + options)[1..] == k[1..] + "," + options;
      CutAtComma(k[1..], options);
    }
  }

  /** What a declared name is extracted as: one field among those of its declaration's struct, with
      its Go name and the rendered type. */
  lemma DeclaredField(p: Parser, m: StructMap, decls: Struct, i: nat, name: string, parentKey: string,
                      visited: set<string>) returns (f: FieldMeta)
    requires i < |decls| && name in decls[i].names && decls[i].bsonTag != "-"
    ensures f in Extract(p, m, decls, parentKey, visited) && f in ExtractName(p, m, decls[i], name, parentKey, visited)
    ensures f.goName == name && f.goType == TypeName(p, decls[i].typ)
    ensures f.bsonKey == JoinKey(parentKey, ParseBsonKey(p, decls[i].bsonTag, name).value)
  {
    hide TypeName, ExtractNames, Extract, JoinKey;
    f := ExtractName(p, m, decls[i], name, parentKey, visited)[0];
    InNames(p, m, decls[i], decls[i].names, name, parentKey, visited, f);
    InStruct(p, m, decls, i, parentKey, visited, f);
  }

  lemma {:induction false} InNames(p: Parser, m: StructMap, d: FieldDecl, names: seq<string>, name: string,
                                   parentKey: string, visited: set<string>, f: FieldMeta)
    requires name in names && f in ExtractName(p, m, d, name, parentKey, visited)
    ensures f in ExtractNames(p, m, d, names, parentKey, visited)
    decreases |names|
  {
    hide ExtractName;
    if name != names[0] {
      InNames(p, m, d, names[1..], name, parentKey, visited, f);
    }
  }

  lemma {:induction false} InStruct(p: Parser, m: StructMap, decls: Struct, i: nat, parentKey: string,
                                    visited: set<string>, f: FieldMeta)
    requires i < |decls| && f in ExtractDecl(p, m, decls[i], parentKey, visited)
    ensures f in Extract(p, m, decls, parentKey, visited)
    decreases i
  {
    hide ExtractDecl;
    if i > 0 {
      InStruct(p, m, decls[1..], i - 1, parentKey, visited, f);
    }
  }

  /** A tag's key is what stands before its first comma; below a parent it follows the parent's key
      and a dot. */
  lemma TaggedField(p: Parser, m: StructMap, decls: Struct, i: nat, name: string, parentKey: string,
                    visited: set<string>, k: string, options: string) returns (f: FieldMeta)
    requires i < |decls| && name in decls[i].names && k != "" && ',' !in k
    requires decls[i].bsonTag == k + "," + options || (decls[i].bsonTag == k && k != "-")
    ensures f in Extract(p, m, decls, parentKey, visited) && f.goName == name
    ensures f.bsonKey == if parentKey == "" then k else parentKey + "." + k
  {
    hide TypeName, Extract;
    CutAtComma(k, options);
    assert |k + "," + options| >= 2;
    f := DeclaredField(p, m, decls, i, name, parentKey, visited);
  }

  /** Without a tag, or with one that starts with a comma, the key is the snake-case name. */
  lemma UntaggedField(p: Parser, m: StructMap, decls: Struct, i: nat, name: string, parentKey: string,
                      visited: set<string>, options: string) returns (f: FieldMeta)
    requires i < |decls| && name in decls[i].names
    requires decls[i].bsonTag == "" || decls[i].bsonTag == "," + options
    ensures f in Extract(p, m, decls, parentKey, visited) && f.goName == name
    ensures f.bsonKey == if parentKey == "" then p.snake(name) else parentKey + "." + p.snake(name)
  {
    hide TypeName, Extract;
    CutAtComma("", options);
    assert "" + "," + options == "," + options;
    assert ("," + options)[0] == ',' && "-"[0] == '-';
    f := DeclaredField(p, m, decls, i, name, parentKey, visited);
  }

  /** A tag that is a single dash drops every name of its declaration. */
  lemma DashedField(p: Parser, m: StructMap, d: FieldDecl, parentKey: string, visited: set<string>)
    requires d.names != [] && d.bsonTag == "-"
    ensures ExtractDecl(p, m, d, parentKey, visited) == []
  {
    NamesDropped(p, m, d, d.names, parentKey, visited);
  }

  lemma {:induction false} NamesDropped(p: Parser, m: StructMap, d: FieldDecl, names: seq<string>, parentKey: string,
                                        visited: set<string>)
    requires d.bsonTag == "-"
    ensures ExtractNames(p, m, d, names, parentKey, visited) == []
    decreases |names|
  {
    if names != [] {
      NamesDropped(p, m, d, names[1..], parentKey, visited);
    }
  }

  /** A field of a struct that is not on the path holds its struct's fields, each keyed below it. */
  lemma ChildField(p: Parser, m: StructMap, decls: Struct, i: nat, name: string, parentKey: string,
                   visited: set<string>, outer: string, s: string, j: nat, child: string, k: string, options: string)
    returns (f: FieldMeta, g: FieldMeta)
    requires i < |decls| && name in decls[i].names && outer != "" && ',' !in outer
    requires decls[i].bsonTag == outer + "," + options && Names(decls[i], s) && s in m && s !in visited
    requires j < |m[s]| && child in m[s][j].names && k != "" && ',' !in k && m[s][j].bsonTag == k + "," + options
    ensures f in Extract(p, m, decls, parentKey, visited) && f.goName == name && g in f.subFields && g.goName == child
    ensures g.bsonKey == f.bsonKey + "." + k
    ensures parentKey == "" ==> g.bsonKey == outer + "." + k
  {
    hide TypeName, Extract, NestedStructName;
    CutAtComma(outer, options);
    f := DeclaredField(p, m, decls, i, name, parentKey, visited);
    assert f.subFields == Extract(p, m, m[s], f.bsonKey, visited + {s});
    g := TaggedField(p, m, m[s], j, child, f.bsonKey, visited + {s}, k, options);
  }

  /** No key at any depth holds a comma, on every struct map, as long as the snake-case names and
      the parent key hold none. */
  lemma KeysHoldNoCommas(p: Parser, m: StructMap, decls: Struct, parentKey: string, visited: set<string>,
                         f: FieldMeta)
    requires ',' !in parentKey && forall name :: ',' !in p.snake(name)
    requires InTree(f, Extract(p, m, decls, parentKey, visited))
    ensures ',' !in f.bsonKey
  {
    KeysAreRooted(p, m, decls, parentKey, visited);
    RootedHoldNoCommas(p, m, decls, parentKey, Extract(p, m, decls, parentKey, visited), f);
  }

  lemma {:induction false} RootedHoldNoCommas(p: Parser, m: StructMap, decls: Struct, parentKey: string,
                                              fields: seq<FieldMeta>, f: FieldMeta)
    requires ',' !in parentKey && forall name :: ',' !in p.snake(name)
    requires Rooted(p, m, decls, parentKey, fields) && InTree(f, fields)
    ensures ',' !in f.bsonKey
    decreases fields
  {
    hide TypeName, NestedStructName, Offered;
    var i :| 0 <= i < |fields| && (fields[i] == f || InTree(f, fields[i].subFields));
    var g := fields[i];
    if IsSynthesized(g) {
      SynthesizedKeys(g);
      assert g == f;
    } else {
      var d, key :| RootedIn(p, m, decls, parentKey, g, d, key);
      OwnKeyHoldsNoComma(p, d.bsonTag, g.goName);
      if g != f {
        RootedHoldNoCommas(p, m, m[NestedStructName(d.typ)], g.bsonKey, g.subFields, f);
      }
    }
  }

  lemma OwnKeyHoldsNoComma(p: Parser, tag: string, goName: string)
    requires forall name :: ',' !in p.snake(name)
    ensures var key := ParseBsonKey(p, tag, goName); key.Some? ==> ',' !in key.value
  {
    FirstPartHoldsNoComma(tag);
  }

  lemma {:induction false} FirstPartHoldsNoComma(s: string)
    ensures ',' !in FirstPart(s)
  {
    if s != "" && s[0] != ',' {
      FirstPartHoldsNoComma(s[1..]);
    }
  }

  lemma SynthesizedKeys(f: FieldMeta)
    requires IsSynthesized(f)
    ensures ',' !in f.bsonKey && f.subFields == []
  {
  }

  // ---------- synthesized fields ----------

  /** Embedding the framework's base model, qualified or not, yields its id and its two times under
      their fixed keys; embedding the other fixed type yields the user id. */
  lemma KnownEmbeds(p: Parser, m: StructMap, d: FieldDecl, qualifier: string, parentKey: string, visited: set<string>)
    requires d.names == [] && "ModelBase" !in m && "WithUserID" !in m
    ensures d.typ == Ident("ModelBase") || d.typ == Selector(qualifier, "ModelBase") ==>
      ExtractDecl(p, m, d, parentKey, visited) == [
        FieldMeta("ID", "bson.ObjectID", "_id", "Field[bson.ObjectID]", [], "", ""),
        FieldMeta("CreatedAt", "time.Time", "created_at", "Field[time.Time]", [], "", ""),
        FieldMeta("UpdatedAt", "time.Time", "updated_at", "Field[time.Time]", [], "", "")]
    ensures d.typ == Ident("WithUserID") || d.typ == Selector(qualifier, "WithUserID") ==>
      ExtractDecl(p, m, d, parentKey, visited) ==
        [FieldMeta("UserID", "bson.ObjectID", "user_id", "Field[bson.ObjectID]", [], "", "")]
  {
    assert "Field[" + "bson.ObjectID" + "]" == "Field[bson.ObjectID]";
    assert "Field[" + "time.Time" + "]" == "Field[time.Time]";
    assert |"ModelBase"| == 9 && |"WithUserID"| == 10;
  }

  /** Any other embedded name that the file does not declare yields nothing. */
  lemma UnknownEmbeds(p: Parser, m: StructMap, d: FieldDecl, name: string, qualifier: string, parentKey: string,
                      visited: set<string>)
    requires d.names == [] && name != "ModelBase" && name != "WithUserID"
    requires (d.typ == Ident(name) && name !in m) || d.typ == Selector(qualifier, name) || d.typ == Star(Ident(name))
    ensures ExtractDecl(p, m, d, parentKey, visited) == []
  {
  }

  // ---------- names and types ----------

  /** A generated name is the struct's with Model behind it, once. */
  lemma ModelNames(base: string)
    ensures base != "" ==> ModelName(base + "Model") == base + "Model"
    ensures (forall x: string :: x != "" ==> base != x + "Model") ==> ModelName(base) == base + "Model"
    ensures ModelName("Model") == "ModelModel"
  {
    assert (base + "Model")[|base + "Model"| - 5..] == "Model";
    if HasModelSuffix(base) {
      assert base == base[..|base| - 5] + "Model";
    }
    assert |"Model"| == 5 && "Model" + "Model" == "ModelModel";
  }

  /** A named type is qualified with the project's package when the target package is another one
      than the source's; built-in ones never are. */
  lemma NamedTypes(p: Parser, name: string)
    ensures var builtin := name in {
        "string", "int", "int8", "int16", "int32", "int64",
        "uint", "uint8", "uint16", "uint32", "uint64", "uintptr",
        "float32", "float64", "complex64", "complex128",
        "bool", "byte", "rune", "error", "any"};
      var foreign := p.targetPackage != "" && p.targetPackage != p.sourcePackage && p.portsImport != "";
      TypeName(p, Ident(name)) == if foreign && !builtin then "ports." + name else name
  {
  }

  /** Composite types are written as in Go; the old driver's package is renamed. */
  lemma CompositeTypes(p: Parser, x: TypeExpr, y: TypeExpr, len: string, pkg: string, sel: string)
    ensures TypeName(p, Star(x)) == "*" + TypeName(p, x)
    ensures TypeName(p, ArrayOf(len, x)) == "[" + len + "]" + TypeName(p, x)
    ensures TypeName(p, MapOf(x, y)) == "map[" + TypeName(p, x) + "]" + TypeName(p, y)
    ensures pkg != "primitive" ==> TypeName(p, Selector(pkg, sel)) == pkg + "." + sel
    ensures TypeName(p, Selector("primitive", sel)) == "bson" + "." + sel
    ensures TypeName(p, Interface) == TypeName(p, OtherType) == "any"
  {
  }
}
