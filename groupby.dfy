/** pandas' `DataFrame.groupby(keys).size()` and `.agg({col: "sum"})` with the
    default `sort=True`: one row per distinct key, rows in ascending key order,
    each row carrying the number (or the summed weight) of the input rows with
    that key. The key order is a parameter so that one definition serves every
    tuple of key columns. */
module GroupBy {
  import opened Wrappers

  /** One output row of a group-by: the key and its aggregated count. */
  datatype Group<K> = Group(key: K, size: nat)

  /** `less` is a strict total order on keys, as Python's tuple comparison is
      on the key tuples a group-by sorts. */
  ghost predicate StrictTotalOrder<K(!new)>(less: (K, K) -> bool)
  {
    && (forall a :: !less(a, a))
    && (forall a, b, c :: less(a, b) && less(b, c) ==> less(a, c))
    && (forall a, b :: a == b || less(a, b) || less(b, a))
  }

  /** Keys strictly ascending, hence pairwise distinct. */
  predicate StrictlySorted<K>(gs: seq<Group<K>>, less: (K, K) -> bool)
  {
    forall i, j :: 0 <= i < j < |gs| ==> less(gs[i].key, gs[j].key)
  }

  /** The count stored for key `k`, if there is a row for it. */
  function Lookup<K(==)>(gs: seq<Group<K>>, k: K): Option<nat>
  {
    if gs == [] then None
    else if gs[0].key == k then Some(gs[0].size)
    else Lookup(gs[1..], k)
  }

  /** Sum of the counts of all rows. */
  function TotalSize<K>(gs: seq<Group<K>>): nat
  {
    if gs == [] then 0 else gs[0].size + TotalSize(gs[1..])
  }

  // ---------------------------------------------------------------------------
  // The input rows: (key, weight) pairs
  // ---------------------------------------------------------------------------

  /** Some input row has key `k`. */
  predicate Occurs<K(==)>(items: seq<(K, nat)>, k: K)
  {
    items != [] && (items[0].0 == k || Occurs(items[1..], k))
  }

  /** Sum of the weights of the input rows with key `k`. */
  function Weight<K(==)>(items: seq<(K, nat)>, k: K): nat
  {
    if items == [] then 0
    else (if items[0].0 == k then items[0].1 else 0) + Weight(items[1..], k)
  }

  /** Sum of all weights. */
  function TotalWeight<K>(items: seq<(K, nat)>): nat
  {
    if items == [] then 0 else items[0].1 + TotalWeight(items[1..])
  }

  // ---------------------------------------------------------------------------
  // The group-by
  // ---------------------------------------------------------------------------

  /** Adds weight `w` under key `k`: to the existing row for `k`, or as a new
      row at its place in key order. */
  function Add<K(==)>(gs: seq<Group<K>>, k: K, w: nat, less: (K, K) -> bool): seq<Group<K>>
  {
    if gs == [] then [Group(k, w)]
    else if gs[0].key == k then [Group(k, gs[0].size + w)] + gs[1..]
    else if less(k, gs[0].key) then [Group(k, w)] + gs
    else [gs[0]] + Add(gs[1..], k, w, less)
  }

  /** Groups the input rows by key and sums their weights. */
  function Tally<K(==)>(items: seq<(K, nat)>, less: (K, K) -> bool): seq<Group<K>>
  {
    if items == [] then [] else Add(Tally(items[1..], less), items[0].0, items[0].1, less)
  }

  /** Every key of `Add(gs, k, ...)` is `k` or a key of `gs`. */
  lemma {:induction false} AddKeys<K>(gs: seq<Group<K>>, k: K, w: nat, less: (K, K) -> bool, i: nat)
    requires i < |Add(gs, k, w, less)|
    ensures Add(gs, k, w, less)[i].key == k
         || exists j :: 0 <= j < |gs| && gs[j].key == Add(gs, k, w, less)[i].key
  {
    var r := Add(gs, k, w, less);
    if gs != [] && gs[0].key != k && !less(k, gs[0].key) && i > 0 {
      AddKeys(gs[1..], k, w, less, i - 1);
      if r[i].key != k {
        var j :| 0 <= j < |gs[1..]| && gs[1..][j].key == r[i].key;
        assert gs[j + 1].key == r[i].key;
      }
    } else if gs != [] && i > 0 {
      assert r[i].key == gs[i - 1].key || r[i].key == gs[i].key;
    }
  }

  /** Adding keeps the rows strictly sorted. */
  lemma {:induction false} AddSorted<K(!new)>(gs: seq<Group<K>>, k: K, w: nat, less: (K, K) -> bool)
    requires StrictTotalOrder(less) && StrictlySorted(gs, less)
    ensures StrictlySorted(Add(gs, k, w, less), less)
  {
    if gs != [] && gs[0].key != k && !less(k, gs[0].key) {
      var tail := gs[1..];
      AddSorted(tail, k, w, less);
      var r := Add(gs, k, w, less);
      assert less(gs[0].key, k);
      forall j | 1 <= j < |r| ensures less(r[0].key, r[j].key) {
        AddKeys(tail, k, w, less, j - 1);
      }
    }
  }

  /** Adding changes exactly the count of `k`. */
  lemma {:induction false} AddLookup<K(!new)>(gs: seq<Group<K>>, k: K, w: nat, less: (K, K) -> bool, k': K)
    requires StrictTotalOrder(less) && StrictlySorted(gs, less)
    ensures Lookup(Add(gs, k, w, less), k') ==
              if k' != k then Lookup(gs, k')
              else match Lookup(gs, k) case None => Some(w) case Some(n) => Some(n + w)
  {
    if gs != [] && gs[0].key != k {
      if less(k, gs[0].key) {
        if k' == k {
          AbsentBelowHead(gs, k, less);
        }
      } else {
        AddLookup(gs[1..], k, w, less, k');
      }
    }
  }

  /** In strictly sorted rows, a key below the first key has no row. */
  lemma {:induction false} AbsentBelowHead<K(!new)>(gs: seq<Group<K>>, k: K, less: (K, K) -> bool)
    requires StrictTotalOrder(less) && StrictlySorted(gs, less)
    requires gs != [] && less(k, gs[0].key)
    ensures Lookup(gs, k) == None
  {
    if |gs| > 1 {
      assert less(gs[0].key, gs[1].key);
      AbsentBelowHead(gs[1..], k, less);
    }
  }

  /** Adding `w` raises the total by `w`. */
  lemma {:induction false} AddTotal<K>(gs: seq<Group<K>>, k: K, w: nat, less: (K, K) -> bool)
    ensures TotalSize(Add(gs, k, w, less)) == TotalSize(gs) + w
  {
    if gs != [] && gs[0].key != k && !less(k, gs[0].key) {
      AddTotal(gs[1..], k, w, less);
    } else if gs != [] && gs[0].key == k {
      assert Add(gs, k, w, less)[1..] == gs[1..];
    } else if gs != [] {
      assert Add(gs, k, w, less)[1..] == gs;
    }
  }

  /** The group-by yields strictly sorted rows: one per distinct key, in
      ascending key order. */
  lemma {:induction false} TallySorted<K(!new)>(items: seq<(K, nat)>, less: (K, K) -> bool)
    requires StrictTotalOrder(less)
    ensures StrictlySorted(Tally(items, less), less)
  {
    if items != [] {
      TallySorted(items[1..], less);
      AddSorted(Tally(items[1..], less), items[0].0, items[0].1, less);
    }
  }

  /** A key has a row exactly when it occurs in the input, and the row holds
      the summed weight of its input rows. */
  lemma {:induction false} TallyLookup<K(!new)>(items: seq<(K, nat)>, less: (K, K) -> bool, k: K)
    requires StrictTotalOrder(less)
    ensures Lookup(Tally(items, less), k) == if Occurs(items, k) then Some(Weight(items, k)) else None
  {
    if items != [] {
      if !Occurs(items[1..], k) {
        AbsentWeighsNothing(items[1..], k);
      }
      TallyLookup(items[1..], less, k);
      TallySorted(items[1..], less);
      AddLookup(Tally(items[1..], less), items[0].0, items[0].1, less, k);
    }
  }

  /** A key that does not occur carries no weight. */
  lemma {:induction false} AbsentWeighsNothing<K>(items: seq<(K, nat)>, k: K)
    requires !Occurs(items, k)
    ensures Weight(items, k) == 0
  {
    if items != [] {
      AbsentWeighsNothing(items[1..], k);
    }
  }

  /** The group-by neither loses nor invents weight. */
  lemma {:induction false} TallyTotal<K>(items: seq<(K, nat)>, less: (K, K) -> bool)
    ensures TotalSize(Tally(items, less)) == TotalWeight(items)
  {
    if items != [] {
      TallyTotal(items[1..], less);
      AddTotal(Tally(items[1..], less), items[0].0, items[0].1, less);
    }
  }

  /** Lookup finds the row at its position. */
  lemma {:induction false} LookupAt<K(!new)>(gs: seq<Group<K>>, less: (K, K) -> bool, i: nat)
    requires StrictTotalOrder(less) && StrictlySorted(gs, less) && i < |gs|
    ensures Lookup(gs, gs[i].key) == Some(gs[i].size)
  {
    if i > 0 {
      assert less(gs[0].key, gs[i].key);
      LookupAt(gs[1..], less, i - 1);
    }
  }

  /** Lookup finds nothing but the rows present. */
  lemma {:induction false} LookupFound<K>(gs: seq<Group<K>>, k: K)
    requires Lookup(gs, k).Some?
    ensures exists i :: 0 <= i < |gs| && gs[i].key == k && gs[i].size == Lookup(gs, k).value
  {
    if gs[0].key != k {
      LookupFound(gs[1..], k);
      var i :| 0 <= i < |gs[1..]| && gs[1..][i].key == k && gs[1..][i].size == Lookup(gs, k).value;
      assert gs[i + 1] == gs[1..][i];
    }
  }

  /** Strictly sorted rows are determined by their lookups: two group-by
      results that agree on every key are the same table. */
  lemma {:induction false} SortedUnique<K(!new)>(gs: seq<Group<K>>, hs: seq<Group<K>>, less: (K, K) -> bool)
    requires StrictTotalOrder(less)
    requires StrictlySorted(gs, less) && StrictlySorted(hs, less)
    requires forall k :: Lookup(gs, k) == Lookup(hs, k)
    ensures gs == hs
  {
    if gs != [] {
      LookupAt(gs, less, 0);
    }
    if hs != [] {
      LookupAt(hs, less, 0);
    }
    if gs == [] || hs == [] {
      assert gs == [] && hs == [];
    } else {
      var a, b := gs[0].key, hs[0].key;
      LookupAt(gs, less, 0);
      LookupAt(hs, less, 0);
      if a != b {
        if less(a, b) {
          AbsentBelowHead(hs, a, less);
        } else {
          AbsentBelowHead(gs, b, less);
        }
      }
      assert gs[0] == hs[0];
      forall k ensures Lookup(gs[1..], k) == Lookup(hs[1..], k) {
        assert Lookup(gs, k) == Lookup(hs, k);
        if k == a {
          if gs[1..] != [] {
            assert less(gs[0].key, gs[1..][0].key);
            AbsentBelowHead(gs[1..], k, less);
          }
          if hs[1..] != [] {
            assert less(hs[0].key, hs[1..][0].key);
            AbsentBelowHead(hs[1..], k, less);
          }
        }
      }
      SortedUnique(gs[1..], hs[1..], less);
    }
  }

  /** Two inputs with the same keys and the same weight per key group into
      the same table, whatever the order or split of their rows. */
  lemma TallyDeterminedByWeights<K(!new)>(items: seq<(K, nat)>, others: seq<(K, nat)>, less: (K, K) -> bool)
    requires StrictTotalOrder(less)
    requires forall k :: Occurs(items, k) == Occurs(others, k) && Weight(items, k) == Weight(others, k)
    ensures Tally(items, less) == Tally(others, less)
  {
    TallySorted(items, less);
    TallySorted(others, less);
    forall k ensures Lookup(Tally(items, less), k) == Lookup(Tally(others, less), k) {
      TallyLookup(items, less, k);
      TallyLookup(others, less, k);
    }
    SortedUnique(Tally(items, less), Tally(others, less), less);
  }

  /** Splitting the input adds up: occurrences and weights of a concatenation. */
  lemma {:induction false} ConcatWeights<K>(a: seq<(K, nat)>, b: seq<(K, nat)>, k: K)
    ensures Occurs(a + b, k) == (Occurs(a, k) || Occurs(b, k))
    ensures Weight(a + b, k) == Weight(a, k) + Weight(b, k)
    ensures TotalWeight(a + b) == TotalWeight(a) + TotalWeight(b)
  {
    if a != [] {
      assert (a + b)[1..] == a[1..] + b;
      ConcatWeights(a[1..], b, k);
    } else {
      assert a + b == b;
    }
  }

  // ---------------------------------------------------------------------------
  // Re-grouping a group-by result under a coarser key
  // ---------------------------------------------------------------------------

  /** The rows of a table as input rows for a second group-by: a row whose
      key `select` maps to `Some(j)` becomes `(j, size)`; a row it maps to
      `None` is filtered out. */
  function Project<K, J>(gs: seq<Group<K>>, select: K -> Option<J>): seq<(J, nat)>
  {
    if gs == [] then []
    else
      (match select(gs[0].key) case Some(j) => [(j, gs[0].size)] case None => [])
        + Project(gs[1..], select)
  }

  /** The same selection applied to input rows. */
  function ProjectItems<K, J>(items: seq<(K, nat)>, select: K -> Option<J>): seq<(J, nat)>
  {
    if items == [] then []
    else
      (match select(items[0].0) case Some(j) => [(j, items[0].1)] case None => [])
        + ProjectItems(items[1..], select)
  }

  lemma {:induction false} ProjectConcat<K, J>(a: seq<Group<K>>, b: seq<Group<K>>, select: K -> Option<J>)
    ensures Project(a + b, select) == Project(a, select) + Project(b, select)
  {
    if a == [] {
      assert a + b == b;
    } else {
      assert (a + b)[1..] == a[1..] + b;
      ProjectConcat(a[1..], b, select);
    }
  }

  lemma {:induction false} ProjectItemsConcat<K, J>(a: seq<(K, nat)>, b: seq<(K, nat)>, select: K -> Option<J>)
    ensures ProjectItems(a + b, select) == ProjectItems(a, select) + ProjectItems(b, select)
  {
    if a == [] {
      assert a + b == b;
    } else {
      assert (a + b)[1..] == a[1..] + b;
      ProjectItemsConcat(a[1..], b, select);
    }
  }

  /** Adding weight `w` under `k` adds `w` to the projected weight of the
      coarse key `k` selects, and nothing to any other. */
  lemma {:induction false} ProjectAdd<K, J>(gs: seq<Group<K>>, k: K, w: nat, less: (K, K) -> bool, select: K -> Option<J>, j: J)
    ensures Occurs(Project(Add(gs, k, w, less), select), j) == (Occurs(Project(gs, select), j) || select(k) == Some(j))
    ensures Weight(Project(Add(gs, k, w, less), select), j) ==
              Weight(Project(gs, select), j) + (if select(k) == Some(j) then w else 0)
  {
    var single: seq<(J, nat)> := match select(k) case Some(j') => [(j', w)] case None => [];
    ConcatWeights(single, Project(gs, select), j);
    if gs == [] {
      assert Project(Add(gs, k, w, less), select) == single + Project(gs, select);
    } else if gs[0].key == k {
      var g := Group(k, gs[0].size + w);
      assert Add(gs, k, w, less) == [g] + gs[1..];
      assert Project(Add(gs, k, w, less), select)
          == (match select(k) case Some(j') => [(j', g.size)] case None => []) + Project(gs[1..], select);
    } else if less(k, gs[0].key) {
      assert Add(gs, k, w, less) == [Group(k, w)] + gs;
      assert Project(Add(gs, k, w, less), select) == single + Project(gs, select);
    } else {
      ProjectAdd(gs[1..], k, w, less, select, j);
      var rest := Add(gs[1..], k, w, less);
      var head: seq<(J, nat)> := match select(gs[0].key) case Some(j') => [(j', gs[0].size)] case None => [];
      assert Add(gs, k, w, less) == [gs[0]] + rest;
      assert Project(Add(gs, k, w, less), select) == head + Project(rest, select);
      assert Project(gs, select) == head + Project(gs[1..], select);
      ConcatWeights(head, Project(rest, select), j);
      ConcatWeights(head, Project(gs[1..], select), j);
    }
  }

  /** Re-grouping a group-by result sees the same weight under every coarse
      key as selecting from the input rows directly. */
  lemma {:induction false} ProjectTally<K, J>(items: seq<(K, nat)>, less: (K, K) -> bool, select: K -> Option<J>, j: J)
    ensures Occurs(Project(Tally(items, less), select), j) == Occurs(ProjectItems(items, select), j)
    ensures Weight(Project(Tally(items, less), select), j) == Weight(ProjectItems(items, select), j)
  {
    if items != [] {
      ProjectTally(items[1..], less, select, j);
      ProjectAdd(Tally(items[1..], less), items[0].0, items[0].1, less, select, j);
      var single: seq<(J, nat)> := match select(items[0].0) case Some(j') => [(j', items[0].1)] case None => [];
      ConcatWeights(single, ProjectItems(items[1..], select), j);
    }
  }
}
