/**
 * Ids for editor windows, one counter and one pool of returned ids per
 * window type (game_window/windows/windows_id_pool.cpp). A window type is
 * identified by its type hash.
 */
module WindowsIdPools {
  /** The ids 0 .. n - 1. */
  function Range(n: nat): (r: set<int>)
    ensures forall x :: x in r <==> 0 <= x < n
  {
    if n == 0 then {} else Range(n - 1) + {n - 1}
  }

  function Elems(s: seq<int>): (r: set<int>)
    ensures forall x :: x in r <==> x in s
  {
    set x | x in s
  }

  predicate NoDuplicates(s: seq<int>)
  {
    forall i, j :: 0 <= i < j < |s| ==> s[i] != s[j]
  }

  /**
   * The bookkeeping of one type whose first id came from GetID: the ids in
   * use and the pooled ids are disjoint and together are the first `issued`
   * ids, the pool has no repeats, and the counter is one less than the
   * number of ids in use.
   */
  ghost predicate PoolInv(inUse: set<int>, pool: seq<int>, count: int, issued: nat)
  {
    inUse !! Elems(pool)
    && inUse + Elems(pool) == Range(issued)
    && NoDuplicates(pool)
    && count + 1 + |pool| == issued
  }

  /** The id GetID hands out from a pool with that state (lines 13-24). */
  function NextId(pool: seq<int>, count: int): (r: int)
  {
    if |pool| == 0 then count + 1 else pool[|pool| - 1]
  }

  /** The next id is never one in use. */
  lemma NextIdFresh(inUse: set<int>, pool: seq<int>, count: int, issued: nat)
    requires PoolInv(inUse, pool, count, issued)
    ensures NextId(pool, count) !in inUse
    ensures |pool| == 0 ==> NextId(pool, count) == issued
  {
    if |pool| == 0 {
      assert count + 1 == issued;
      assert issued !in Range(issued);
    } else {
      assert pool[|pool| - 1] in Elems(pool);
    }
  }

  /** Handing out the next id keeps the bookkeeping. */
  lemma TakeKeepsInv(inUse: set<int>, pool: seq<int>, count: int, issued: nat)
    requires PoolInv(inUse, pool, count, issued)
    ensures var id := NextId(pool, count);
      if |pool| == 0 then PoolInv(inUse + {id}, pool, count + 1, issued + 1)
      else PoolInv(inUse + {id}, pool[..|pool| - 1], count + 1, issued)
  {
    var id := NextId(pool, count);
    NextIdFresh(inUse, pool, count, issued);
    if |pool| == 0 {
      assert Range(issued + 1) == Range(issued) + {issued};
    } else {
      var rest := pool[..|pool| - 1];
      assert pool == rest + [id];
      assert Elems(pool) == Elems(rest) + {id};
      assert id !in Elems(rest);
    }
  }

  /** Giving an id in use back keeps the bookkeeping. */
  lemma ReturnKeepsInv(inUse: set<int>, pool: seq<int>, count: int, issued: nat, id: int)
    requires PoolInv(inUse, pool, count, issued) && id in inUse
    ensures PoolInv(inUse - {id}, pool + [id], count - 1, issued)
  {
    assert Elems(pool + [id]) == Elems(pool) + {id};
    assert id !in pool;
  }

  /** PoolInv for every type whose first id came from GetID. */
  ghost predicate PoolsInv(counts: map<nat, int>, pools: map<nat, seq<int>>, inUse: map<nat, set<int>>, issued: map<nat, nat>)
  {
    counts.Keys == pools.Keys
    && inUse.Keys == issued.Keys && inUse.Keys <= pools.Keys
    && forall t :: TypeInv(counts, pools, inUse, issued, t)
  }

  ghost predicate TypeInv(counts: map<nat, int>, pools: map<nat, seq<int>>, inUse: map<nat, set<int>>, issued: map<nat, nat>, t: nat)
  {
    t in inUse && t in pools && t in counts && t in issued ==> PoolInv(inUse[t], pools[t], counts[t], issued[t])
  }

  /** Changing the state of one tracked type to one that keeps PoolInv keeps PoolsInv. */
  lemma TrackedUpdate(counts: map<nat, int>, pools: map<nat, seq<int>>, inUse: map<nat, set<int>>, issued: map<nat, nat>,
                      t: nat, count: int, pool: seq<int>, used: set<int>, n: nat)
    requires PoolsInv(counts, pools, inUse, issued) && PoolInv(used, pool, count, n)
    ensures PoolsInv(counts[t := count], pools[t := pool], inUse[t := used], issued[t := n])
  {
    var counts', pools', inUse', issued' := counts[t := count], pools[t := pool], inUse[t := used], issued[t := n];
    forall u: nat
      ensures TypeInv(counts', pools', inUse', issued', u)
    {
      assert TypeInv(counts, pools, inUse, issued, u);
    }
  }

  /** Changing the state of an untracked type keeps PoolsInv. */
  lemma UntrackedUpdate(counts: map<nat, int>, pools: map<nat, seq<int>>, inUse: map<nat, set<int>>, issued: map<nat, nat>,
                        t: nat, count: int, pool: seq<int>)
    requires PoolsInv(counts, pools, inUse, issued) && t !in inUse
    ensures PoolsInv(counts[t := count], pools[t := pool], inUse, issued)
  {
    var counts', pools' := counts[t := count], pools[t := pool];
    forall u: nat
      ensures TypeInv(counts', pools', inUse, issued, u)
    {
      assert TypeInv(counts, pools, inUse, issued, u);
    }
  }

  class WindowsIdPool {
    /** m_WindowsCount. */
    var counts: map<nat, int>
    /** m_WindowsIdsPool: the returned ids of a type, most recent last. */
    var pools: map<nat, seq<int>>
    /** Per type whose first id came from GetID: the ids in use. */
    ghost var inUse: map<nat, set<int>>
    /** Per such type: how many distinct ids it has handed out. */
    ghost var issued: map<nat, nat>

    ghost predicate Valid()
      reads this
    {
      PoolsInv(counts, pools, inUse, issued)
    }

    constructor()
      ensures Valid() && counts == map[] && pools == map[]
    {
      counts := map[];
      pools := map[];
      inUse := map[];
      issued := map[];
    }

    /**
     * GetID (lines 3-25): the first request of a type gets 0 and opens an
     * empty pool with count 0; later requests bump the count and get the
     * most recently returned id, or the new count when none is pooled.
     * An id handed out is never one still in use.
     */
    method GetID(t: nat) returns (id: int)
      requires Valid()
      modifies this
      ensures Valid()
      ensures t !in old(pools) ==>
        id == 0 && pools == old(pools)[t := []] && counts == old(counts)[t := 0]
        && inUse == old(inUse)[t := {0}]
      ensures t in old(pools) ==>
        id == NextId(old(pools)[t], old(counts)[t])
        && counts == old(counts)[t := old(counts)[t] + 1]
        && pools == old(pools)[t := if |old(pools)[t]| == 0 then [] else old(pools)[t][..|old(pools)[t]| - 1]]
      ensures t in old(inUse) ==> id !in old(inUse)[t] && inUse == old(inUse)[t := old(inUse)[t] + {id}]
      ensures t in old(pools) && t !in old(inUse) ==> inUse == old(inUse)
    {
      if t !in pools {
        assert Range(1) == {0};
        TrackedUpdate(counts, pools, inUse, issued, t, 0, [], {0}, 1);
        counts, pools, inUse, issued := counts[t := 0], pools[t := []], inUse[t := {0}], issued[t := 1];
        return 0;
      }
      var pool := pools[t];
      id := NextId(pool, counts[t]);
      var rest := if |pool| == 0 then [] else pool[..|pool| - 1];
      if t in inUse {
        assert TypeInv(counts, pools, inUse, issued, t);
        TakeKeepsInv(inUse[t], pool, counts[t], issued[t]);
        NextIdFresh(inUse[t], pool, counts[t], issued[t]);
        var n := if |pool| == 0 then issued[t] + 1 else issued[t];
        TrackedUpdate(counts, pools, inUse, issued, t, counts[t] + 1, rest, inUse[t] + {id}, n);
        inUse, issued := inUse[t := inUse[t] + {id}], issued[t := n];
      } else {
        UntrackedUpdate(counts, pools, inUse, issued, t, counts[t] + 1, rest);
      }
      counts, pools := counts[t := counts[t] + 1], pools[t := rest];
    }

    /**
     * ReturnID (lines 27-42): a known type pools the id and lowers its
     * count; an unknown type gets a pool holding just that id and count 0.
     */
    method ReturnID(t: nat, id: int)
      requires Valid()
      requires t in inUse ==> id in inUse[t]
      modifies this
      ensures Valid()
      ensures t !in old(pools) ==> pools == old(pools)[t := [id]] && counts == old(counts)[t := 0]
      ensures t in old(pools) ==>
        pools == old(pools)[t := old(pools)[t] + [id]] && counts == old(counts)[t := old(counts)[t] - 1]
      ensures t in old(inUse) ==> inUse == old(inUse)[t := old(inUse)[t] - {id}]
      ensures t !in old(inUse) ==> inUse == old(inUse)
    {
      if t !in pools {
        UntrackedUpdate(counts, pools, inUse, issued, t, 0, [id]);
        pools, counts := pools[t := [id]], counts[t := 0];
      } else {
        if t in inUse {
          assert TypeInv(counts, pools, inUse, issued, t);
          ReturnKeepsInv(inUse[t], pools[t], counts[t], issued[t], id);
          TrackedUpdate(counts, pools, inUse, issued, t, counts[t] - 1, pools[t] + [id], inUse[t] - {id}, issued[t]);
          assert issued[t := issued[t]] == issued;
          inUse := inUse[t := inUse[t] - {id}];
        } else {
          UntrackedUpdate(counts, pools, inUse, issued, t, counts[t] - 1, pools[t] + [id]);
        }
        pools, counts := pools[t := pools[t] + [id]], counts[t := counts[t] - 1];
      }
    }
  }
}
