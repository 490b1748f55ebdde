/** Field extraction for the generated MongoDB models
    (framework/cmd/mongogen/parser/parser.go): a recursive walk over the struct types of one
    file, guarded by the set of structs on the path. */
module MongoParser {
  import opened Options

  datatype TypeExpr =
    | Ident(name: string)
    | Selector(pkg: string, sel: string)
    | Star(x: TypeExpr)
    | ArrayOf(len: string, elt: TypeExpr)
    | MapOf(key: TypeExpr, value: TypeExpr)
    | Interface
    | OtherType

  /** No names: an embedded field. `bsonTag` is the tag's `bson` value, empty when absent. */
  datatype FieldDecl = FieldDecl(names: seq<string>, typ: TypeExpr, bsonTag: string)

  type Struct = seq<FieldDecl>
  type StructMap = map<string, Struct>

  /** The parser's settings; `snake` is the source's snake-case conversion. */
  datatype Parser = Parser(targetPackage: string, portsImport: string, sourcePackage: string, snake: string -> string)

  datatype FieldMeta = FieldMeta(
    goName: string,
    goType: string,
    bsonKey: string,
    fieldType: string,
    subFields: seq<FieldMeta>,
    nestedTypeName: string,
    fieldPkg: string)

  // ---------- leaves of the walk ----------

  const BUILTINS: set<string> := {
    "string", "int", "int8", "int16", "int32", "int64",
    "uint", "uint8", "uint16", "uint32", "uint64", "uintptr",
    "float32", "float64", "complex64", "complex128",
    "bool", "byte", "rune", "error", "any"}

  function TypeName(p: Parser, e: TypeExpr): string {
    match e
    case Ident(name) =>
      if name in BUILTINS then name
      else if p.targetPackage != "" && p.targetPackage != p.sourcePackage && p.portsImport != "" then "ports." + name
      else name
    case Selector(pkg, sel) => (if pkg == "primitive" then "bson" else pkg) + "." + sel
    case Star(x) => "*" + TypeName(p, x)
    case ArrayOf(len, elt) => "[" + len + "]" + TypeName(p, elt)
    case MapOf(key, value) => "map[" + TypeName(p, key) + "]" + TypeName(p, value)
    case Interface => "any"
    case OtherType => "any"
  }

  function NestedStructName(e: TypeExpr): string {
    match e
    case Ident(name) => name
    case Star(x) => NestedStructName(x)
    case _ => ""
  }

  /** The text before the first comma. */
  function FirstPart(s: string): string {
    if s == "" || s[0] == ',' then "" else [s[0]] + FirstPart(s[1..])
  }

  /** None: the field is skipped. */
  function ParseBsonKey(p: Parser, bsonTag: string, goName: string): Option<string> {
    if bsonTag == "-" then None
    else if FirstPart(bsonTag) != "" then Some(FirstPart(bsonTag))
    else Some(p.snake(goName))
  }

  function JoinKey(parentKey: string, key: string): string {
    if parentKey != "" then parentKey + "." + key else key
  }

  const MODEL := "Model"

  predicate HasModelSuffix(base: string) {
    |base| > 5 && base[|base| - 5..] == MODEL
  }

  function ModelName(base: string): string {
    if HasModelSuffix(base) then base else base + MODEL
  }

  function Leaf(goName: string, goType: string, bsonKey: string): FieldMeta {
    FieldMeta(goName, goType, bsonKey, "Field[" + goType + "]", [], "", "")
  }

  /** The fields synthesized for the framework's two fixed embeddable types. */
  function KnownEmbedFields(name: string): seq<FieldMeta> {
    if name == "ModelBase" then
      [Leaf("ID", "bson.ObjectID", "_id"), Leaf("CreatedAt", "time.Time", "created_at"),
       Leaf("UpdatedAt", "time.Time", "updated_at")]
    else if name == "WithUserID" then [Leaf("UserID", "bson.ObjectID", "user_id")]
    else []
  }

  // ---------- the walk ----------

  predicate Descends(m: StructMap, name: string, visited: set<string>) {
    name != "" && name != "ModelBase" && name !in visited && name in m
  }

  /** Terminates on every struct map, cyclic ones included: each descent adds a struct of the
      map to `visited`. */
  function Extract(p: Parser, m: StructMap, decls: Struct, parentKey: string, visited: set<string>): seq<FieldMeta>
    decreases |m.Keys - visited|, 2, |decls|
  {
    if decls == [] then []
    else ExtractDecl(p, m, decls[0], parentKey, visited) + Extract(p, m, decls[1..], parentKey, visited)
  }

  function ExtractDecl(p: Parser, m: StructMap, d: FieldDecl, parentKey: string, visited: set<string>): seq<FieldMeta>
    decreases |m.Keys - visited|, 1
  {
    if d.names != [] then ExtractNames(p, m, d, d.names, parentKey, visited)
    else
      match d.typ
      case Ident(name) =>
        if name in m && name !in visited then
          Shrinks(m, visited, name);
          Extract(p, m, m[name], parentKey, visited + {name})
        else KnownEmbedFields(name)
      case Selector(_, sel) => KnownEmbedFields(sel)
      case _ => []
  }

  function ExtractNames(p: Parser, m: StructMap, d: FieldDecl, names: seq<string>, parentKey: string,
                        visited: set<string>): seq<FieldMeta>
    decreases |m.Keys - visited|, 0, |names|
  {
    if names == [] then []
    else ExtractName(p, m, d, names[0], parentKey, visited) + ExtractNames(p, m, d, names[1..], parentKey, visited)
  }

  function ExtractName(p: Parser, m: StructMap, d: FieldDecl, name: string, parentKey: string,
                       visited: set<string>): seq<FieldMeta>
    decreases |m.Keys - visited|, 0, 0
  {
    match ParseBsonKey(p, d.bsonTag, name)
    case None => []
    case Some(key) =>
      var nested := NestedStructName(d.typ);
      var fullKey := JoinKey(parentKey, key);
      var subs :=
        if Descends(m, nested, visited) then
          Shrinks(m, visited, nested);
          Extract(p, m, m[nested], fullKey, visited + {nested})
        else [];
      [MakeField(p, name, d.typ, fullKey, subs)]
  }

  function MakeField(p: Parser, goName: string, typ: TypeExpr, fullKey: string, subs: seq<FieldMeta>): FieldMeta {
    var goType := TypeName(p, typ);
    FieldMeta(goName, goType, fullKey, "Field[" + goType + "]", subs,
              if subs == [] then "" else ModelName(NestedStructName(typ)), "")
  }

  lemma Shrinks(m: StructMap, visited: set<string>, name: string)
    requires name in m && name !in visited
    ensures |m.Keys - (visited + {name})| < |m.Keys - visited|
  {
    assert m.Keys - (visited + {name}) == (m.Keys - visited) - {name};
  }

  /** The walk as it runs: loops over the declarations and their names, appending fields. */
  method ExtractFields(p: Parser, m: StructMap, decls: Struct, parentKey: string, visited: set<string>)
    returns (fields: seq<FieldMeta>)
    ensures fields == Extract(p, m, decls, parentKey, visited)
    decreases |m.Keys - visited|, 2
  {
    hide KnownEmbedFields, ExtractNames, ExtractDecl;
    fields := [];
    for i := 0 to |decls|
      invariant Extract(p, m, decls, parentKey, visited) == fields + Extract(p, m, decls[i..], parentKey, visited)
    {
      assert decls[i..][0] == decls[i] && decls[i..][1..] == decls[i + 1..];
      var here := ExtractOne(p, m, decls[i], parentKey, visited);
      fields := fields + here;
    }
  }

  /** The body of the outer loop: an embedded struct is walked in place, a known embed is
      synthesized, anything else embedded contributes nothing; named fields go one by one. */
  method ExtractOne(p: Parser, m: StructMap, d: FieldDecl, parentKey: string, visited: set<string>)
    returns (fields: seq<FieldMeta>)
    ensures fields == ExtractDecl(p, m, d, parentKey, visited)
    decreases |m.Keys - visited|, 1
  {
    hide Extract, ExtractNames;
    if d.names == [] {
      var embeddedName, qualified := "", false;
      match d.typ {
        case Ident(name) => embeddedName := name;
        case Selector(_, sel) => embeddedName, qualified := sel, true;
        case _ =>
      }
      if d.typ.Ident? && !qualified && embeddedName in m && embeddedName !in visited {
        Shrinks(m, visited, embeddedName);
        fields := ExtractFields(p, m, m[embeddedName], parentKey, visited + {embeddedName});
      } else {
        fields := KnownEmbedFields(embeddedName);
      }
    } else {
      fields := ExtractNamed(p, m, d, parentKey, visited);
    }
  }

  /** The inner loop, over the names of one declaration. */
  method ExtractNamed(p: Parser, m: StructMap, d: FieldDecl, parentKey: string, visited: set<string>)
    returns (fields: seq<FieldMeta>)
    ensures fields == ExtractNames(p, m, d, d.names, parentKey, visited)
    decreases |m.Keys - visited|, 0, 1
  {
    hide ExtractName;
    fields := [];
    for i := 0 to |d.names|
      invariant ExtractNames(p, m, d, d.names, parentKey, visited)
             == fields + ExtractNames(p, m, d, d.names[i..], parentKey, visited)
    {
      assert d.names[i..][0] == d.names[i] && d.names[i..][1..] == d.names[i + 1..];
      var here := ExtractField(p, m, d, d.names[i], parentKey, visited);
      fields := fields + here;
    }
  }

  /** The body of the inner loop: at most one field. */
  method ExtractField(p: Parser, m: StructMap, d: FieldDecl, goName: string, parentKey: string, visited: set<string>)
    returns (fields: seq<FieldMeta>)
    ensures fields == ExtractName(p, m, d, goName, parentKey, visited)
    decreases |m.Keys - visited|, 0, 0
  {
    hide MakeField, Extract, ParseBsonKey, NestedStructName;
    fields := [];
    var key := ParseBsonKey(p, d.bsonTag, goName);
    if key.Some? {
      var fullKey := JoinKey(parentKey, key.value);
      var subFields := [];
      var nested := NestedStructName(d.typ);
      if Descends(m, nested, visited) {
        Shrinks(m, visited, nested);
        subFields := ExtractFields(p, m, m[nested], fullKey, visited + {nested});
      }
      fields := [MakeField(p, goName, d.typ, fullKey, subFields)];
    }
  }

  // ---------- what a struct contributes, whatever the key above it ----------

  /** A field before keys are assigned: synthesized with its fixed key, or declared with its own. */
  datatype Node =
    | Fixed(field: FieldMeta)
    | Own(goName: string, typ: TypeExpr, key: string, subs: seq<Node>)

  function Nodes(fields: seq<FieldMeta>): (ns: seq<Node>)
    ensures |ns| == |fields| && forall i :: 0 <= i < |ns| ==> ns[i] == Fixed(fields[i])
  {
    seq(|fields|, i requires 0 <= i < |fields| => Fixed(fields[i]))
  }

  function Outline(p: Parser, m: StructMap, decls: Struct, visited: set<string>): seq<Node>
    decreases |m.Keys - visited|, 2, |decls|
  {
    if decls == [] then []
    else OutlineDecl(p, m, decls[0], visited) + Outline(p, m, decls[1..], visited)
  }

  function OutlineDecl(p: Parser, m: StructMap, d: FieldDecl, visited: set<string>): seq<Node>
    decreases |m.Keys - visited|, 1
  {
    if d.names != [] then OutlineNames(p, m, d, d.names, visited)
    else
      match d.typ
      case Ident(name) =>
        if name in m && name !in visited then
          Shrinks(m, visited, name);
          Outline(p, m, m[name], visited + {name})
        else Nodes(KnownEmbedFields(name))
      case Selector(_, sel) => Nodes(KnownEmbedFields(sel))
      case _ => []
  }

  function OutlineNames(p: Parser, m: StructMap, d: FieldDecl, names: seq<string>, visited: set<string>): seq<Node>
    decreases |m.Keys - visited|, 0, |names|
  {
    if names == [] then []
    else OutlineName(p, m, d, names[0], visited) + OutlineNames(p, m, d, names[1..], visited)
  }

  function OutlineName(p: Parser, m: StructMap, d: FieldDecl, name: string, visited: set<string>): seq<Node>
    decreases |m.Keys - visited|, 0, 0
  {
    match ParseBsonKey(p, d.bsonTag, name)
    case None => []
    case Some(key) =>
      var nested := NestedStructName(d.typ);
      var subs :=
        if Descends(m, nested, visited) then
          Shrinks(m, visited, nested);
          Outline(p, m, m[nested], visited + {nested})
        else [];
      [Own(name, d.typ, key, subs)]
  }

  /** Keys assigned from the top: a declared field's key is its parent's, a dot, and its own;
      synthesized fields ignore the parent. */
  function Keyed(p: Parser, parentKey: string, nodes: seq<Node>): (fs: seq<FieldMeta>)
    ensures |fs| == |nodes|
    decreases nodes
  {
    if nodes == [] then []
    else
      [KeyedOne(p, parentKey, nodes[0])] + Keyed(p, parentKey, nodes[1..])
  }

  function KeyedOne(p: Parser, parentKey: string, node: Node): FieldMeta
    decreases node
  {
    match node
    case Fixed(field) => field
    case Own(goName, typ, key, subs) =>
      var fullKey := JoinKey(parentKey, key);
      MakeField(p, goName, typ, fullKey, Keyed(p, fullKey, subs))
  }

  lemma {:induction false} KeyedAppend(p: Parser, parentKey: string, a: seq<Node>, b: seq<Node>)
    ensures Keyed(p, parentKey, a + b) == Keyed(p, parentKey, a) + Keyed(p, parentKey, b)
  {
    if a == [] {
      assert a + b == b;
    } else {
      assert (a + b)[0] == a[0] && (a + b)[1..] == a[1..] + b;
      KeyedAppend(p, parentKey, a[1..], b);
    }
  }

  lemma {:induction false} KeyedFixed(p: Parser, parentKey: string, fields: seq<FieldMeta>)
    ensures Keyed(p, parentKey, Nodes(fields)) == fields
  {
    if fields != [] {
      assert Nodes(fields)[1..] == Nodes(fields[1..]);
      KeyedFixed(p, parentKey, fields[1..]);
    }
  }

  /** The walk factors: what the struct contributes does not depend on the parent key, and the
      keys depend on nothing else. */
  lemma {:induction false} ExtractIsKeyedOutline(p: Parser, m: StructMap, decls: Struct, parentKey: string,
                                                 visited: set<string>)
    ensures Extract(p, m, decls, parentKey, visited) == Keyed(p, parentKey, Outline(p, m, decls, visited))
    decreases |m.Keys - visited|, 2, |decls|
  {
    hide ExtractDecl, OutlineDecl;
    if decls != [] {
      DeclIsKeyedOutline(p, m, decls[0], parentKey, visited);
      ExtractIsKeyedOutline(p, m, decls[1..], parentKey, visited);
      KeyedAppend(p, parentKey, OutlineDecl(p, m, decls[0], visited), Outline(p, m, decls[1..], visited));
    }
  }

  lemma {:induction false} DeclIsKeyedOutline(p: Parser, m: StructMap, d: FieldDecl, parentKey: string,
                                              visited: set<string>)
    ensures ExtractDecl(p, m, d, parentKey, visited) == Keyed(p, parentKey, OutlineDecl(p, m, d, visited))
    decreases |m.Keys - visited|, 1
  {
    hide KnownEmbedFields;
    if d.names != [] {
      NamesAreKeyedOutline(p, m, d, d.names, parentKey, visited);
    } else {
      match d.typ
      case Ident(name) =>
        if name in m && name !in visited {
          Shrinks(m, visited, name);
          ExtractIsKeyedOutline(p, m, m[name], parentKey, visited + {name});
        } else {
          KeyedFixed(p, parentKey, KnownEmbedFields(name));
        }
      case Selector(_, sel) => KeyedFixed(p, parentKey, KnownEmbedFields(sel));
      case _ =>
    }
  }

  lemma {:induction false} NamesAreKeyedOutline(p: Parser, m: StructMap, d: FieldDecl, names: seq<string>,
                                                parentKey: string,
                                                visited: set<string>)
    ensures ExtractNames(p, m, d, names, parentKey, visited)
         == Keyed(p, parentKey, OutlineNames(p, m, d, names, visited))
    decreases |m.Keys - visited|, 0, |names|
  {
    hide ExtractName, OutlineName;
    if names != [] {
      NameIsKeyedOutline(p, m, d, names[0], parentKey, visited);
      NamesAreKeyedOutline(p, m, d, names[1..], parentKey, visited);
      KeyedAppend(p, parentKey, OutlineName(p, m, d, names[0], visited), OutlineNames(p, m, d, names[1..], visited));
    }
  }

  lemma {:induction false} NameIsKeyedOutline(p: Parser, m: StructMap, d: FieldDecl, name: string, parentKey: string,
                                              visited: set<string>)
    ensures ExtractName(p, m, d, name, parentKey, visited) == Keyed(p, parentKey, OutlineName(p, m, d, name, visited))
    decreases |m.Keys - visited|, 0, 0
  {
    hide MakeField, ParseBsonKey, NestedStructName;
    var nested, key := NestedStructName(d.typ), ParseBsonKey(p, d.bsonTag, name);
    if key.Some? && Descends(m, nested, visited) {
      Shrinks(m, visited, nested);
      ExtractIsKeyedOutline(p, m, m[nested], JoinKey(parentKey, key.value), visited + {nested});
    }
  }

  predicate IsSynthesized(f: FieldMeta) {
    f in KnownEmbedFields("ModelBase") + KnownEmbedFields("WithUserID")
  }

  predicate EmbedsIn(m: StructMap, e: FieldDecl) {
    e.names == [] && e.typ.Ident? && e.typ.name in m
  }

  /** A declaration of the list itself or, through at most n embeddings, of an embedded struct. */
  ghost predicate Offers(m: StructMap, decls: Struct, d: FieldDecl, n: nat)
    decreases n
  {
    || d in decls
    || (n > 0 && exists e :: e in decls && EmbedsIn(m, e) && Offers(m, m[e.typ.name], d, n - 1))
  }

  ghost predicate Offered(m: StructMap, decls: Struct, d: FieldDecl) {
    exists n: nat :: Offers(m, decls, d, n)
  }

  /** The declaration and name a field comes from, and the key that name has of its own. */
  ghost predicate ComesFrom(p: Parser, m: StructMap, decls: Struct, goName: string, d: FieldDecl, key: string) {
    && Offered(m, decls, d)
    && goName in d.names && ParseBsonKey(p, d.bsonTag, goName) == Some(key)
  }

  /** Every field is synthesized, or comes from a declaration the walked structs offer, with its
      Go type and with the parent's key, a dot and its own key as its key; and so on below it,
      for the declarations of the struct it names. */
  ghost predicate Rooted(p: Parser, m: StructMap, decls: Struct, parentKey: string, fields: seq<FieldMeta>)
    decreases fields
  {
    forall i :: 0 <= i < |fields| ==>
      IsSynthesized(fields[i]) || exists d, key :: RootedIn(p, m, decls, parentKey, fields[i], d, key)
  }

  ghost predicate RootedIn(p: Parser, m: StructMap, decls: Struct, parentKey: string, f: FieldMeta, d: FieldDecl,
                           key: string)
    decreases f
  {
    && ComesFrom(p, m, decls, f.goName, d, key)
    && f.goType == TypeName(p, d.typ)
    && f.bsonKey == JoinKey(parentKey, key)
    && (f.subFields != [] ==>
          NestedStructName(d.typ) in m && Rooted(p, m, m[NestedStructName(d.typ)], f.bsonKey, f.subFields))
  }

  /** The same before keys are assigned from the top. */
  ghost predicate RootedNodes(p: Parser, m: StructMap, decls: Struct, nodes: seq<Node>)
    decreases nodes
  {
    forall i :: 0 <= i < |nodes| ==>
      match nodes[i]
      case Fixed(f) => IsSynthesized(f)
      case Own(goName, typ, key, subs) =>
        && (exists d :: ComesFrom(p, m, decls, goName, d, key) && d.typ == typ)
        && (subs != [] ==> NestedStructName(typ) in m && RootedNodes(p, m, m[NestedStructName(typ)], subs))
  }

  lemma {:induction false} KeyedIsRooted(p: Parser, m: StructMap, decls: Struct, parentKey: string, nodes: seq<Node>)
    requires RootedNodes(p, m, decls, nodes)
    ensures Rooted(p, m, decls, parentKey, Keyed(p, parentKey, nodes))
    decreases nodes
  {
    hide TypeName, IsSynthesized, ComesFrom, NestedStructName, ModelName;
    var fields := Keyed(p, parentKey, nodes);
    forall i | 0 <= i < |fields|
      ensures IsSynthesized(fields[i]) || exists d, key :: RootedIn(p, m, decls, parentKey, fields[i], d, key)
    {
      KeyedAt(p, parentKey, nodes, i);
      match nodes[i]
      case Fixed(_) =>
      case Own(goName, typ, key, subs) =>
        var d :| ComesFrom(p, m, decls, goName, d, key) && d.typ == typ;
        if subs != [] {
          KeyedIsRooted(p, m, m[NestedStructName(typ)], JoinKey(parentKey, key), subs);
        }
        assert RootedIn(p, m, decls, parentKey, fields[i], d, key);
    }
  }

  lemma {:induction false} KeyedAt(p: Parser, parentKey: string, nodes: seq<Node>, i: nat)
    requires i < |nodes|
    ensures Keyed(p, parentKey, nodes)[i] == KeyedOne(p, parentKey, nodes[i])
  {
    if i > 0 {
      KeyedAt(p, parentKey, nodes[1..], i - 1);
    }
  }

  /** More declarations offer no less. */
  lemma RootedWider(p: Parser, m: StructMap, decls: Struct, wider: Struct, nodes: seq<Node>)
    requires RootedNodes(p, m, decls, nodes)
    requires forall d :: Offered(m, decls, d) ==> Offered(m, wider, d)
    ensures RootedNodes(p, m, wider, nodes)
  {
    hide Offered, IsSynthesized, NestedStructName, ParseBsonKey;
    assert forall goName, d, key :: ComesFrom(p, m, decls, goName, d, key) ==> ComesFrom(p, m, wider, goName, d, key);
  }

  lemma OfferedByParts(m: StructMap, decls: Struct)
    requires decls != []
    ensures forall d :: Offered(m, [decls[0]], d) || Offered(m, decls[1..], d) ==> Offered(m, decls, d)
  {
    forall d | Offered(m, [decls[0]], d) ensures Offered(m, decls, d) {
      var n: nat :| Offers(m, [decls[0]], d, n);
      OffersMore(m, [decls[0]], decls, d, n);
    }
    forall d | Offered(m, decls[1..], d) ensures Offered(m, decls, d) {
      var n: nat :| Offers(m, decls[1..], d, n);
      OffersMore(m, decls[1..], decls, d, n);
    }
  }

  lemma OffersMore(m: StructMap, decls: Struct, more: Struct, d: FieldDecl, n: nat)
    requires Offers(m, decls, d, n) && forall e :: e in decls ==> e in more
    ensures Offers(m, more, d, n)
  {
    if d !in decls {
      var e :| e in decls && EmbedsIn(m, e) && Offers(m, m[e.typ.name], d, n - 1);
      assert e in more;
    }
  }

  lemma OfferedByEmbedded(m: StructMap, d: FieldDecl)
    requires EmbedsIn(m, d)
    ensures forall x :: Offered(m, m[d.typ.name], x) ==> Offered(m, [d], x)
  {
    forall x | Offered(m, m[d.typ.name], x) ensures Offered(m, [d], x) {
      var n: nat :| Offers(m, m[d.typ.name], x, n);
      assert d in [d];
      assert Offers(m, [d], x, n + 1);
    }
  }

  lemma {:induction false} OutlineRooted(p: Parser, m: StructMap, decls: Struct, visited: set<string>)
    ensures RootedNodes(p, m, decls, Outline(p, m, decls, visited))
    decreases |m.Keys - visited|, 2, |decls|
  {
    hide OutlineDecl, RootedNodes, Offered;
    if decls == [] {
      NothingRooted(p, m);
    } else {
      var d, rest := decls[0], decls[1..];
      OutlineDeclRooted(p, m, d, visited);
      OutlineRooted(p, m, rest, visited);
      OfferedByParts(m, decls);
      RootedWider(p, m, [d], decls, OutlineDecl(p, m, d, visited));
      RootedWider(p, m, rest, decls, Outline(p, m, rest, visited));
      RootedAppend(p, m, decls, OutlineDecl(p, m, d, visited), Outline(p, m, rest, visited));
    }
  }

  lemma NothingRooted(p: Parser, m: StructMap)
    ensures RootedNodes(p, m, [], [])
  {
  }

  lemma RootedAppend(p: Parser, m: StructMap, decls: Struct, a: seq<Node>, b: seq<Node>)
    requires RootedNodes(p, m, decls, a) && RootedNodes(p, m, decls, b)
    ensures RootedNodes(p, m, decls, a + b)
  {
    hide ComesFrom, IsSynthesized, NestedStructName;
  }

  lemma {:induction false} OutlineDeclRooted(p: Parser, m: StructMap, d: FieldDecl, visited: set<string>)
    ensures RootedNodes(p, m, [d], OutlineDecl(p, m, d, visited))
    decreases |m.Keys - visited|, 1
  {
    hide RootedNodes, Offered, Outline, OutlineNames, KnownEmbedFields;
    if d.names != [] {
      OutlineNamesRooted(p, m, d, d.names, visited);
    } else {
      match d.typ
      case Ident(name) =>
        if name in m && name !in visited {
          Shrinks(m, visited, name);
          OutlineRooted(p, m, m[name], visited + {name});
          OfferedByEmbedded(m, d);
          RootedWider(p, m, m[name], [d], Outline(p, m, m[name], visited + {name}));
        } else {
          KnownRooted(p, m, [d], name);
        }
      case Selector(_, sel) => KnownRooted(p, m, [d], sel);
      case _ => KnownRooted(p, m, [d], "");
    }
  }

  lemma KnownRooted(p: Parser, m: StructMap, decls: Struct, name: string)
    ensures RootedNodes(p, m, decls, Nodes(KnownEmbedFields(name)))
    ensures KnownEmbedFields("") == []
  {
  }

  lemma {:induction false} OutlineNamesRooted(p: Parser, m: StructMap, d: FieldDecl, names: seq<string>,
                                              visited: set<string>)
    requires forall i :: 0 <= i < |names| ==> names[i] in d.names
    ensures RootedNodes(p, m, [d], OutlineNames(p, m, d, names, visited))
    decreases |m.Keys - visited|, 0, |names|
  {
    hide ParseBsonKey, NestedStructName, RootedNodes, Offered, Outline;
    if names == [] {
      RootedNone(p, m, [d]);
    } else {
      OutlineNamesRooted(p, m, d, names[1..], visited);
      var key := ParseBsonKey(p, d.bsonTag, names[0]);
      if key.None? {
        RootedNone(p, m, [d]);
      } else {
        var nested := NestedStructName(d.typ);
        var subs := if Descends(m, nested, visited) then Outline(p, m, m[nested], visited + {nested}) else [];
        if Descends(m, nested, visited) {
          Shrinks(m, visited, nested);
          OutlineRooted(p, m, m[nested], visited + {nested});
        }
        OffersOwn(m, d);
        assert ComesFrom(p, m, [d], names[0], d, key.value);
        RootedOne(p, m, [d], names[0], d, key.value, subs);
      }
      RootedAppend(p, m, [d], OutlineName(p, m, d, names[0], visited), OutlineNames(p, m, d, names[1..], visited));
    }
  }

  lemma OffersOwn(m: StructMap, d: FieldDecl)
    ensures Offered(m, [d], d)
  {
    assert Offers(m, [d], d, 0);
  }

  lemma RootedNone(p: Parser, m: StructMap, decls: Struct)
    ensures RootedNodes(p, m, decls, [])
  {
  }

  lemma RootedOne(p: Parser, m: StructMap, decls: Struct, goName: string, d: FieldDecl, key: string, subs: seq<Node>)
    requires ComesFrom(p, m, decls, goName, d, key)
    requires subs != [] ==> NestedStructName(d.typ) in m && RootedNodes(p, m, m[NestedStructName(d.typ)], subs)
    ensures RootedNodes(p, m, decls, [Own(goName, d.typ, key, subs)])
  {
    hide ComesFrom, NestedStructName;
  }

  /** Where keys and types come from, on every struct map, cyclic ones included. */
  lemma KeysAreRooted(p: Parser, m: StructMap, decls: Struct, parentKey: string, visited: set<string>)
    ensures Rooted(p, m, decls, parentKey, Extract(p, m, decls, parentKey, visited))
  {
    OutlineRooted(p, m, decls, visited);
    KeyedIsRooted(p, m, decls, parentKey, Outline(p, m, decls, visited));
    ExtractIsKeyedOutline(p, m, decls, parentKey, visited);
  }
}
