/**
 * The no-repeat rotation shared by both selection engines: the games of a
 * pool whose id is not in the used-id set, in pool order
 * (`gamePool.filter(game => !usedGameIds.has(game.id))`).
 */
module Rotation {

  /** The pool games whose id is not yet used, in pool order. */
  function Unused<T(!new)>(pool: seq<T>, idOf: T -> int, used: set<int>): (r: seq<T>)
    ensures |r| <= |pool|
    ensures forall x :: x in r <==> x in pool && idOf(x) !in used
  {
    if pool == [] then []
    else if idOf(pool[0]) in used then Unused(pool[1..], idOf, used)
    else [pool[0]] + Unused(pool[1..], idOf, used)
  }

  /** The ids occurring in a pool. */
  ghost function Ids<T(!new)>(pool: seq<T>, idOf: T -> int): set<int> {
    set x | x in pool :: idOf(x)
  }

  /** No two positions of the pool carry the same id. */
  ghost predicate DistinctIds<T(!new)>(pool: seq<T>, idOf: T -> int) {
    forall i, j :: 0 <= i < j < |pool| ==> idOf(pool[i]) != idOf(pool[j])
  }

  lemma UnusedIgnoresForeignIds<T(!new)>(pool: seq<T>, idOf: T -> int, used: set<int>, id: int)
    requires id !in Ids(pool, idOf)
    ensures Unused(pool, idOf, used) == Unused(pool, idOf, used - {id})
  {
    if pool != [] {
      assert Ids(pool[1..], idOf) <= Ids(pool, idOf) by {
        forall x | x in pool[1..] ensures x in pool { }
      }
      UnusedIgnoresForeignIds(pool[1..], idOf, used, id);
    }
  }

  /**
   * With distinct ids and a used set drawn from the pool's ids, exactly
   * `|pool| - |used|` games remain unused: `getAvailableGamesCount` then
   * equals the length of the filtered pool.
   */
  lemma {:induction false} UnusedCount<T(!new)>(pool: seq<T>, idOf: T -> int, used: set<int>)
    requires DistinctIds(pool, idOf)
    requires used <= Ids(pool, idOf)
    ensures |Unused(pool, idOf, used)| == |pool| - |used|
    decreases |pool|
  {
    if pool == [] {
      assert used == {};
    } else {
      var id := idOf(pool[0]);
      var rest := pool[1..];
      IdsOfDistinctCons(pool, idOf);
      UnusedIgnoresForeignIds(rest, idOf, used, id);
      UnusedCount(rest, idOf, used - {id});
      if id in used {
        assert |used - {id}| == |used| - 1;
      } else {
        assert used - {id} == used;
      }
    }
  }

  /** The first game's id is not among the rest's, which stay distinct. */
  lemma IdsOfDistinctCons<T(!new)>(pool: seq<T>, idOf: T -> int)
    requires pool != [] && DistinctIds(pool, idOf)
    ensures DistinctIds(pool[1..], idOf)
    ensures idOf(pool[0]) !in Ids(pool[1..], idOf)
    ensures Ids(pool, idOf) == {idOf(pool[0])} + Ids(pool[1..], idOf)
  {
    var rest := pool[1..];
    forall x | x in rest ensures idOf(x) != idOf(pool[0]) {
      var j :| 0 <= j < |rest| && rest[j] == x;
      assert rest[j] == pool[j + 1];
    }
    assert pool == [pool[0]] + rest;
    forall x | x in pool ensures x == pool[0] || x in rest { }
  }

  /** With distinct ids, the pool holds exactly as many games as ids. */
  lemma DistinctIdsCount<T(!new)>(pool: seq<T>, idOf: T -> int)
    requires DistinctIds(pool, idOf)
    ensures |Ids(pool, idOf)| == |pool|
  {
    UnusedCount(pool, idOf, Ids(pool, idOf));
    UnusedOfAllIds(pool, idOf, Ids(pool, idOf));
  }

  /** A used set holding every pool id leaves nothing unused. */
  lemma {:induction false} UnusedOfAllIds<T(!new)>(pool: seq<T>, idOf: T -> int, used: set<int>)
    requires forall x :: x in pool ==> idOf(x) in used
    ensures Unused(pool, idOf, used) == []
  {
    if pool != [] {
      assert pool[0] in pool;
      UnusedOfAllIds(pool[1..], idOf, used);
    }
  }

  /** With distinct ids, a used set that stays inside the pool's ids and is smaller than the pool leaves an unused game. */
  lemma UnusedNonEmpty<T(!new)>(pool: seq<T>, idOf: T -> int, used: set<int>)
    requires DistinctIds(pool, idOf)
    requires used <= Ids(pool, idOf)
    requires |used| < |pool|
    ensures |Unused(pool, idOf, used)| > 0
  {
    UnusedCount(pool, idOf, used);
  }

  /** The unused games of a pool with distinct ids have distinct ids. */
  lemma {:induction false} UnusedDistinct<T(!new)>(pool: seq<T>, idOf: T -> int, used: set<int>)
    requires DistinctIds(pool, idOf)
    ensures DistinctIds(Unused(pool, idOf, used), idOf)
    decreases |pool|
  {
    if pool != [] {
      var rest := pool[1..];
      assert DistinctIds(rest, idOf);
      UnusedDistinct(rest, idOf, used);
      var u := Unused(rest, idOf, used);
      forall x | x in u ensures idOf(x) != idOf(pool[0]) {
        var j :| 0 <= j < |rest| && rest[j] == x;
        assert rest[j] == pool[j + 1];
      }
    }
  }
}
