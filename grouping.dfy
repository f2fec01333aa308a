/** The ORM's `.values(key).annotate(count=Count(...), avg=Avg(...))` as a function over a
    finite sequence of (key, value) pairs: one group per distinct key, in order of first
    occurrence, holding the number of pairs with that key and the sum of their values. */
module Grouping {
  import opened Basics

  datatype Group<K> = Group(key: K, count: nat, sum: real)

  /** The position of the group with key `k`. */
  function GroupIndex<K(==)>(gs: seq<Group<K>>, k: K): (found: Option<nat>)
    ensures found.Some? ==> found.value < |gs| && gs[found.value].key == k
    ensures found.None? ==> forall i :: 0 <= i < |gs| ==> gs[i].key != k
  {
    if |gs| == 0 then None
    else if gs[|gs| - 1].key == k then Some(|gs| - 1)
    else GroupIndex(gs[..|gs| - 1], k)
  }

  /** One more pair with key `k` and value `v`. */
  function AddTo<K(==)>(gs: seq<Group<K>>, k: K, v: real): seq<Group<K>> {
    match GroupIndex(gs, k)
    case Some(i) => gs[i := Group(k, gs[i].count + 1, gs[i].sum + v)]
    case None => gs + [Group(k, 1, v)]
  }

  function GroupBy<K(==)>(pairs: seq<(K, real)>): seq<Group<K>> {
    if |pairs| == 0 then []
    else
      var p := pairs[|pairs| - 1];
      AddTo(GroupBy(pairs[..|pairs| - 1]), p.0, p.1)
  }

  predicate DistinctKeys<K(==)>(gs: seq<Group<K>>) {
    forall i, j :: 0 <= i < j < |gs| ==> gs[i].key != gs[j].key
  }

  /** Some group has key `k`. */
  predicate HasGroup<K(==)>(gs: seq<Group<K>>, k: K) {
    exists i :: 0 <= i < |gs| && gs[i].key == k
  }

  /** Some pair has key `k`. */
  predicate HasPair<K(==)>(pairs: seq<(K, real)>, k: K) {
    exists j :: 0 <= j < |pairs| && pairs[j].0 == k
  }

  /** The groups have distinct keys, each group is non-empty, and a key has a group exactly
      when some pair carries it. */
  lemma {:induction false} GroupByShape<K>(pairs: seq<(K, real)>)
    ensures var gs := GroupBy(pairs);
      && DistinctKeys(gs)
      && |gs| <= |pairs|
      && (forall i :: 0 <= i < |gs| ==> gs[i].count >= 1)
      && (forall k :: HasGroup(gs, k) <==> HasPair(pairs, k))
  {
    if |pairs| > 0 {
      var init := pairs[..|pairs| - 1];
      var p := pairs[|pairs| - 1];
      GroupByShape(init);
      AddToShape(GroupBy(init), p.0, p.1);
      HasPairSplit(pairs);
    }
  }

  /** Adding a pair keeps the keys distinct and the groups non-empty, adds at most one group,
      and adds exactly the pair's key. */
  lemma {:induction false} AddToShape<K>(gs: seq<Group<K>>, k: K, v: real)
    requires DistinctKeys(gs) && forall i :: 0 <= i < |gs| ==> gs[i].count >= 1
    ensures var gs' := AddTo(gs, k, v);
      && DistinctKeys(gs') && |gs'| <= |gs| + 1
      && (forall i :: 0 <= i < |gs'| ==> gs'[i].count >= 1)
      && (forall x :: HasGroup(gs', x) <==> HasGroup(gs, x) || x == k)
  {
    var gs' := AddTo(gs, k, v);
    match GroupIndex(gs, k)
    case Some(i) =>
      forall x
        ensures HasGroup(gs', x) <==> HasGroup(gs, x) || x == k
      {
        if HasGroup(gs, x) {
          var j :| 0 <= j < |gs| && gs[j].key == x;
          assert gs'[j].key == x;
        }
        if HasGroup(gs', x) {
          var j :| 0 <= j < |gs'| && gs'[j].key == x;
          assert gs[j].key == x;
        }
        assert gs'[i].key == k;
      }
    case None =>
      forall x
        ensures HasGroup(gs', x) <==> HasGroup(gs, x) || x == k
      {
        if HasGroup(gs, x) {
          var j :| 0 <= j < |gs| && gs[j].key == x;
          assert gs'[j].key == x;
        }
        if HasGroup(gs', x) && x != k {
          var j :| 0 <= j < |gs'| && gs'[j].key == x;
          assert gs[j].key == x;
        }
        assert gs'[|gs|].key == k;
      }
  }

  /** A key is carried by some pair exactly when it is carried by an earlier pair or by the
      last one. */
  lemma {:induction false} HasPairSplit<K>(pairs: seq<(K, real)>)
    requires |pairs| > 0
    ensures forall x :: HasPair(pairs, x) <==> HasPair(pairs[..|pairs| - 1], x) || x == pairs[|pairs| - 1].0
  {
    var init := pairs[..|pairs| - 1];
    forall x
      ensures HasPair(pairs, x) <==> HasPair(init, x) || x == pairs[|pairs| - 1].0
    {
      if HasPair(init, x) {
        var j :| 0 <= j < |init| && init[j].0 == x;
        assert pairs[j].0 == x;
      }
      if HasPair(pairs, x) && x != pairs[|pairs| - 1].0 {
        var j :| 0 <= j < |pairs| && pairs[j].0 == x;
        assert init[j].0 == x;
      }
      assert HasPair(pairs, pairs[|pairs| - 1].0);
    }
  }

  // ---------------------------------------------------------------------------
  // Counting and summing through a predicate on keys

  function CountWhere<K>(pairs: seq<(K, real)>, P: K -> bool): nat {
    if |pairs| == 0 then 0
    else CountWhere(pairs[..|pairs| - 1], P) + (if P(pairs[|pairs| - 1].0) then 1 else 0)
  }

  function SumWhere<K>(pairs: seq<(K, real)>, P: K -> bool): real {
    if |pairs| == 0 then 0.0
    else SumWhere(pairs[..|pairs| - 1], P) + (if P(pairs[|pairs| - 1].0) then pairs[|pairs| - 1].1 else 0.0)
  }

  /** The total count of the groups whose key satisfies `P`. */
  function GroupCountWhere<K>(gs: seq<Group<K>>, P: K -> bool): nat {
    if |gs| == 0 then 0
    else GroupCountWhere(gs[..|gs| - 1], P) + (if P(gs[|gs| - 1].key) then gs[|gs| - 1].count else 0)
  }

  function GroupSumWhere<K>(gs: seq<Group<K>>, P: K -> bool): real {
    if |gs| == 0 then 0.0
    else GroupSumWhere(gs[..|gs| - 1], P) + (if P(gs[|gs| - 1].key) then gs[|gs| - 1].sum else 0.0)
  }

  lemma {:induction false} GroupWhereUpdate<K>(gs: seq<Group<K>>, i: nat, g: Group<K>, P: K -> bool)
    requires i < |gs| && g.key == gs[i].key
    ensures GroupCountWhere(gs[i := g], P) == GroupCountWhere(gs, P) - (if P(g.key) then gs[i].count else 0) + (if P(g.key) then g.count else 0)
    ensures GroupSumWhere(gs[i := g], P) == GroupSumWhere(gs, P) - (if P(g.key) then gs[i].sum else 0.0) + (if P(g.key) then g.sum else 0.0)
  {
    var gs' := gs[i := g];
    if i < |gs| - 1 {
      assert gs'[..|gs'| - 1] == gs[..|gs| - 1][i := g];
      GroupWhereUpdate(gs[..|gs| - 1], i, g, P);
    } else {
      assert gs'[..|gs'| - 1] == gs[..|gs| - 1];
    }
  }

  lemma {:induction false} GroupWhereAdd<K>(gs: seq<Group<K>>, k: K, v: real, P: K -> bool)
    ensures GroupCountWhere(AddTo(gs, k, v), P) == GroupCountWhere(gs, P) + (if P(k) then 1 else 0)
    ensures GroupSumWhere(AddTo(gs, k, v), P) == GroupSumWhere(gs, P) + (if P(k) then v else 0.0)
  {
    match GroupIndex(gs, k)
    case Some(i) =>
      GroupWhereUpdate(gs, i, Group(k, gs[i].count + 1, gs[i].sum + v), P);
    case None =>
      var gs' := gs + [Group(k, 1, v)];
      assert gs'[..|gs'| - 1] == gs;
  }

  /** Grouping keeps every count and every sum taken over a set of keys. */
  lemma {:induction false} GroupByKeepsTotals<K>(pairs: seq<(K, real)>, P: K -> bool)
    ensures GroupCountWhere(GroupBy(pairs), P) == CountWhere(pairs, P)
    ensures GroupSumWhere(GroupBy(pairs), P) == SumWhere(pairs, P)
  {
    if |pairs| > 0 {
      var p := pairs[|pairs| - 1];
      GroupByKeepsTotals(pairs[..|pairs| - 1], P);
      GroupWhereAdd(GroupBy(pairs[..|pairs| - 1]), p.0, p.1, P);
    }
  }

  /** The predicate "the key equals `k`". */
  function Is<K(==)>(k: K): K -> bool {
    x => x == k
  }

  /** With distinct keys, the group with key `k` alone makes up the count and the sum over `k`. */
  lemma {:induction false} OneGroupPerKey<K>(gs: seq<Group<K>>, i: nat)
    requires DistinctKeys(gs) && i < |gs|
    ensures GroupCountWhere(gs, Is(gs[i].key)) == gs[i].count
    ensures GroupSumWhere(gs, Is(gs[i].key)) == gs[i].sum
  {
    var k := gs[i].key;
    var init := gs[..|gs| - 1];
    if i < |gs| - 1 {
      assert init[i] == gs[i];
      OneGroupPerKey(init, i);
      assert gs[|gs| - 1].key != k;
    } else {
      NoGroupOfKey(init, k);
    }
  }

  lemma {:induction false} NoGroupOfKey<K>(gs: seq<Group<K>>, k: K)
    requires forall i :: 0 <= i < |gs| ==> gs[i].key != k
    ensures GroupCountWhere(gs, Is(k)) == 0 && GroupSumWhere(gs, Is(k)) == 0.0
  {
    if |gs| > 0 {
      NoGroupOfKey(gs[..|gs| - 1], k);
    }
  }

  /** Each group counts exactly the pairs with its key, and sums exactly their values. */
  lemma {:induction false} GroupOfKey<K>(pairs: seq<(K, real)>, i: nat)
    requires i < |GroupBy(pairs)|
    ensures GroupBy(pairs)[i].count == CountWhere(pairs, Is(GroupBy(pairs)[i].key))
    ensures GroupBy(pairs)[i].sum == SumWhere(pairs, Is(GroupBy(pairs)[i].key))
  {
    GroupByShape(pairs);
    OneGroupPerKey(GroupBy(pairs), i);
    GroupByKeepsTotals(pairs, Is(GroupBy(pairs)[i].key));
  }

  /** The predicate that holds of every key. */
  function Anything<K>(): K -> bool {
    x => true
  }

  /** The counts of all groups add up to the number of pairs. */
  lemma {:induction false} GroupCountsTotal<K>(pairs: seq<(K, real)>)
    ensures GroupCountWhere(GroupBy(pairs), Anything()) == |pairs|
  {
    GroupByKeepsTotals(pairs, Anything());
    AllCounted(pairs);
  }

  lemma {:induction false} AllCounted<K>(pairs: seq<(K, real)>)
    ensures CountWhere(pairs, Anything()) == |pairs|
  {
    if |pairs| > 0 {
      AllCounted(pairs[..|pairs| - 1]);
    }
  }
}
