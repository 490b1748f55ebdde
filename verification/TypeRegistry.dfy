/** Resolving a type name to a struct through aliases and prioritised registries
    (framework/cmd/brunogen/parser/registry.go). */
module TypeRegistry {
  import opened Options

  /** A declaration's right-hand side; structs are told apart by number. */
  datatype TypeDecl = StructDecl(id: nat) | AliasOf(name: string) | OtherDecl

  type Registry = map<string, TypeDecl>

  /** The registries merged, earlier ones first. */
  function Merged(chain: seq<Registry>): Registry {
    if chain == [] then map[] else Merged(chain[1..]) + chain[0]
  }

  /** The name `hops` alias steps away. */
  function Walk(r: Registry, name: string, hops: nat): Option<string>
    decreases hops
  {
    if hops == 0 then Some(name)
    else if name in r && r[name].AliasOf? then Walk(r, r[name].name, hops - 1)
    else None
  }

  predicate Reaches(r: Registry, name: string, hops: nat, id: nat) {
    var end := Walk(r, name, hops);
    end.Some? && end.value in r && r[end.value] == StructDecl(id)
  }

  lemma {:induction false} WalkOn(r: Registry, name: string, i: nat, j: nat)
    ensures Walk(r, name, i).Some? ==> Walk(r, name, i + j) == Walk(r, Walk(r, name, i).value, j)
    ensures Walk(r, name, i).None? ==> Walk(r, name, i + j).None?
    decreases i
  {
    if i > 0 && name in r && r[name].AliasOf? {
      WalkOn(r, r[name].name, i - 1, j);
    }
  }

  /** A walk that comes back to a name it has been at never reaches a struct. */
  lemma {:induction false} CycleReachesNothing(r: Registry, name: string, i: nat, j: nat, hops: nat, id: nat)
    requires i < j && Walk(r, name, i) == Walk(r, name, j) && Walk(r, name, j).Some?
    ensures !Reaches(r, name, hops, id)
    decreases hops
  {
    if hops < j {
      WalkOn(r, name, hops, 1);
      WalkOn(r, name, hops + 1, j - hops - 1);
    } else {
      WalkOn(r, name, j, hops - j);
      WalkOn(r, name, i, hops - j);
      CycleReachesNothing(r, name, i, j, i + (hops - j), id);
    }
  }

  /** There is one struct to reach, at one distance. */
  lemma ReachesOnce(r: Registry, name: string, i: nat, a: nat, j: nat, b: nat)
    requires Reaches(r, name, i, a) && Reaches(r, name, j, b)
    ensures i == j && a == b
  {
    if i < j {
      WalkOn(r, name, i, 1);
      WalkOn(r, name, i + 1, j - i - 1);
    } else if j < i {
      WalkOn(r, name, j, 1);
      WalkOn(r, name, j + 1, i - j - 1);
    }
  }

  method Lookup(chain: seq<Registry>, name: string) returns (decl: Option<TypeDecl>)
    ensures decl == if name in Merged(chain) then Some(Merged(chain)[name]) else None
    ensures decl == None <==> forall i :: 0 <= i < |chain| ==> name !in chain[i]
    ensures decl.Some? ==> exists i :: 0 <= i < |chain| && name in chain[i] && chain[i][name] == decl.value
                                       && forall j :: 0 <= j < i ==> name !in chain[j]
  {
    for i := 0 to |chain|
      invariant name in Merged(chain) <==> name in Merged(chain[i..])
      invariant forall j :: 0 <= j < i ==> name !in chain[j]
      invariant name in Merged(chain) ==> Merged(chain)[name] == Merged(chain[i..])[name]
    {
      assert chain[i..][0] == chain[i] && chain[i..][1..] == chain[i + 1..];
      if name in chain[i] {
        return Some(chain[i][name]);
      }
    }
    decl := None;
  }

  /** The chain resolves as its merge does, and finds exactly the structs at most seven aliases
      away. */
  method ResolveStruct(chain: seq<Registry>, name: string) returns (r: Option<nat>)
    ensures forall id: nat :: r == Some(id) <==> exists hops: nat :: hops <= 7 && Reaches(Merged(chain), name, hops, id)
  {
    hide Merged;
    ghost var m := Merged(chain);
    var current := name;
    var seen: set<string> := {};
    for i := 0 to 8
      invariant Walk(m, name, i) == Some(current)
      invariant forall n :: n in seen <==> exists j: nat :: j < i && Walk(m, name, j) == Some(n)
      invariant forall hops: nat, id: nat :: hops < i ==> !Reaches(m, name, hops, id)
    {
      if current in seen {
        ghost var j: nat :| j < i && Walk(m, name, j) == Some(current);
        forall hops: nat, id: nat ensures !Reaches(m, name, hops, id) {
          CycleReachesNothing(m, name, j, i, hops, id);
        }
        return None;
      }
      seen := seen + {current};
      var decl := Lookup(chain, current);
      WalkOn(m, name, i, 1);
      match decl {
        case Some(StructDecl(id)) =>
          assert Reaches(m, name, i, id);
          forall hops: nat, other: nat | Reaches(m, name, hops, other) ensures other == id {
            ReachesOnce(m, name, i, id, hops, other);
          }
          return Some(id);
        case Some(AliasOf(next)) =>
          current := next;
        case _ =>
          forall hops: nat, id: nat ensures !Reaches(m, name, hops, id) {
            if hops > i {
              WalkOn(m, name, i + 1, hops - i - 1);
            }
          }
          return None;
      }
    }
    r := None;
  }
}
