/** Totals of a quantity over a set of items. */
module QueueSums {
  import opened QueueTypes

  ghost function Sum(w: map<Id, int>, ids: set<Id>): int
    requires ids <= w.Keys
    decreases ids
  {
    if ids == {} then 0
    else
      var id :| id in ids;
      w[id] + Sum(w, ids - {id})
  }

  /** Any element may be taken first. */
  lemma {:induction false} SumPick(w: map<Id, int>, ids: set<Id>, x: Id)
    requires ids <= w.Keys && x in ids
    ensures Sum(w, ids) == w[x] + Sum(w, ids - {x})
    decreases ids
  {
    var id :| id in ids && Sum(w, ids) == w[id] + Sum(w, ids - {id});
    if id != x {
      SumPick(w, ids - {id}, x);
      SumPick(w, ids - {x}, id);
      assert ids - {id} - {x} == ids - {x} - {id};
    }
  }

  /** Disjoint sets add up. */
  lemma {:induction false} SumUnion(w: map<Id, int>, a: set<Id>, b: set<Id>)
    requires a <= w.Keys && b <= w.Keys && a !! b
    ensures Sum(w, a + b) == Sum(w, a) + Sum(w, b)
    decreases a
  {
    if a == {} {
      assert a + b == b;
    } else {
      var id :| id in a;
      SumPick(w, a, id);
      SumPick(w, a + b, id);
      assert a + b - {id} == (a - {id}) + b;
      SumUnion(w, a - {id}, b);
    }
  }

  /** Where every item keeps or loses, and those of `drop` lose at least one, so does the total. */
  lemma {:induction false} SumDrops(a: map<Id, int>, b: map<Id, int>, ids: set<Id>, drop: set<Id>)
    requires ids <= a.Keys && ids <= b.Keys
    requires forall id :: id in ids ==> b[id] <= a[id] - (if id in drop then 1 else 0)
    ensures Sum(b, ids) <= Sum(a, ids) - |ids * drop|
    decreases ids
  {
    if ids == {} {
      assert ids * drop == {};
    } else {
      var id :| id in ids && Sum(a, ids) == a[id] + Sum(a, ids - {id});
      SumPick(b, ids, id);
      SumDrops(a, b, ids - {id}, drop);
      if id in drop {
        assert ids * drop == ((ids - {id}) * drop) + {id};
      } else {
        assert ids * drop == (ids - {id}) * drop;
      }
    }
  }

  lemma {:induction false} SumPositive(w: map<Id, int>, ids: set<Id>)
    requires ids <= w.Keys && forall id :: id in ids ==> w[id] >= 0
    ensures Sum(w, ids) >= 0
    ensures (exists id :: id in ids && w[id] >= 1) ==> Sum(w, ids) >= 1
    decreases ids
  {
    if ids != {} {
      var id :| id in ids && Sum(w, ids) == w[id] + Sum(w, ids - {id});
      SumPositive(w, ids - {id});
      if x :| x in ids && w[x] >= 1 {
        assert x == id || x in ids - {id};
      }
    }
  }
}
