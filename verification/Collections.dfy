/** Reading sequences from their end, and sums over finite sets. Shared by every module. */
module Collections {

  function Init<T>(s: seq<T>): seq<T>
    requires s != []
  {
    s[..|s| - 1]
  }

  function Last<T>(s: seq<T>): T
    requires s != []
  {
    s[|s| - 1]
  }

  // ---- Sums over a set of identifiers ----

  ghost function Sum(ids: set<string>, f: string -> int): int {
    if ids == {} then 0 else
    var id :| id in ids;
    f(id) + Sum(ids - {id}, f)
  }

  /** Any element may be taken out first. */
  lemma {:induction false} SumTake(ids: set<string>, f: string -> int, id: string)
    requires id in ids
    ensures Sum(ids, f) == f(id) + Sum(ids - {id}, f)
    decreases ids
  {
    var first :| first in ids && Sum(ids, f) == f(first) + Sum(ids - {first}, f);
    if first != id {
      SumTake(ids - {first}, f, id);
      SumTake(ids - {id}, f, first);
      assert ids - {first} - {id} == ids - {id} - {first};
    }
  }

  lemma {:induction false} SumAdds(ids: set<string>, f: string -> int, g: string -> int, h: string -> int)
    requires forall id | id in ids :: h(id) == f(id) + g(id)
    ensures Sum(ids, h) == Sum(ids, f) + Sum(ids, g)
    decreases ids
  {
    if ids != {} {
      var id :| id in ids;
      SumTake(ids, f, id);
      SumTake(ids, g, id);
      SumTake(ids, h, id);
      SumAdds(ids - {id}, f, g, h);
    }
  }

  lemma {:induction false} SumSame(ids: set<string>, f: string -> int, g: string -> int)
    requires forall id | id in ids :: f(id) == g(id)
    ensures Sum(ids, f) == Sum(ids, g)
    decreases ids
  {
    if ids != {} {
      var id :| id in ids;
      SumTake(ids, f, id);
      SumTake(ids, g, id);
      SumSame(ids - {id}, f, g);
    }
  }

  /** A function that is 1 at one identifier and 0 elsewhere. */
  lemma {:induction false} SumOfOne(ids: set<string>, f: string -> int, at: string)
    requires forall id | id in ids :: f(id) == if id == at then 1 else 0
    ensures Sum(ids, f) == if at in ids then 1 else 0
    decreases ids
  {
    if ids != {} {
      var id :| id in ids;
      SumTake(ids, f, id);
      SumOfOne(ids - {id}, f, at);
    }
  }

  lemma {:induction false} SumZero(ids: set<string>, f: string -> int)
    requires forall id | id in ids :: f(id) == 0
    ensures Sum(ids, f) == 0
    decreases ids
  {
    if ids != {} {
      var id :| id in ids;
      SumTake(ids, f, id);
      SumZero(ids - {id}, f);
    }
  }

  /** Of two functions one of which is never greater, the sums are equal exactly when the functions are. */
  lemma {:induction false} SumAtMost(ids: set<string>, f: string -> int, g: string -> int)
    requires forall id | id in ids :: f(id) <= g(id)
    ensures Sum(ids, f) <= Sum(ids, g)
    ensures Sum(ids, f) == Sum(ids, g) <==> forall id | id in ids :: f(id) == g(id)
    decreases ids
  {
    if ids != {} {
      var id :| id in ids;
      SumTake(ids, f, id);
      SumTake(ids, g, id);
      SumAtMost(ids - {id}, f, g);
      assert ids == ids - {id} + {id};
    }
  }
}
