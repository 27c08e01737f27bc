/** `DataFrame.groupby(keys)[col].sum()` and `.mean()` over an in-memory table.

    A table is projected onto a sequence of entries, one per input row,
    each holding the row's group key, the value of the summed column and a
    row count of 1. `GroupSum` folds the entries into a list of groups that
    is kept strictly ascending by key: a key already present has its total
    and size increased, a new key is inserted at its place. The result is
    pandas' `groupby(..., sort=True)`: one group per distinct key present
    in the input, in ascending key order, and `GroupSumUnique` shows that
    this characterisation leaves no other choice. */
module GroupBy {
  import opened Keys

  /** One group (or one input entry): its key, the sum of the aggregated
      column over its rows, and how many rows it has. */
  datatype Group = Group(key: Key, total: nat, size: nat)

  /** The set of keys occurring in a list of entries or groups. */
  function KeySet(s: seq<Group>): set<Key>
  {
    if |s| == 0 then {} else {s[0].key} + KeySet(s[1..])
  }

  /** The sum of the aggregated column over the entries with key `k`. */
  function SumWhere(s: seq<Group>, k: Key): nat
  {
    if |s| == 0 then 0
    else (if s[0].key == k then s[0].total else 0) + SumWhere(s[1..], k)
  }

  /** The number of rows counted by the entries with key `k`. */
  function SizeWhere(s: seq<Group>, k: Key): nat
  {
    if |s| == 0 then 0
    else (if s[0].key == k then s[0].size else 0) + SizeWhere(s[1..], k)
  }

  /** The sum of the aggregated column over all entries. */
  function Total(s: seq<Group>): nat
  {
    if |s| == 0 then 0 else s[0].total + Total(s[1..])
  }

  /** The sum of the aggregated column over the entries whose key
      satisfies `p`. */
  function SumIf(s: seq<Group>, p: Key -> bool): nat
  {
    if |s| == 0 then 0 else (if p(s[0].key) then s[0].total else 0) + SumIf(s[1..], p)
  }

  /** Every key of `s` is above `x`. */
  predicate AllAbove(x: Key, s: seq<Group>)
  {
    forall i :: 0 <= i < |s| ==> KeyLt(x, s[i].key)
  }

  /** Keys strictly ascending, hence pairwise distinct. */
  predicate Sorted(s: seq<Group>)
  {
    |s| == 0 || (AllAbove(s[0].key, s[1..]) && Sorted(s[1..]))
  }

  /** The reference meaning of a group-by-sum of `es`: one group per
      distinct key of `es`, in ascending key order, each holding the sum and
      the row count of the entries with its key. */
  ghost predicate Aggregates(gs: seq<Group>, es: seq<Group>)
  {
    && Sorted(gs)
    && KeySet(gs) == KeySet(es)
    && forall i :: 0 <= i < |gs| ==>
         gs[i].total == SumWhere(es, gs[i].key) && gs[i].size == SizeWhere(es, gs[i].key)
  }

  /** Adds the entry (k, t, n) to a sorted list of groups. */
  function Insert(gs: seq<Group>, k: Key, t: nat, n: nat): seq<Group>
  {
    if |gs| == 0 then [Group(k, t, n)]
    else if gs[0].key == k then [Group(k, gs[0].total + t, gs[0].size + n)] + gs[1..]
    else if KeyLt(k, gs[0].key) then [Group(k, t, n)] + gs
    else [gs[0]] + Insert(gs[1..], k, t, n)
  }

  /** `groupby(keys).sum()` (together with the group sizes `mean` needs). */
  function GroupSum(es: seq<Group>): seq<Group>
  {
    if |es| == 0 then [] else Insert(GroupSum(es[1..]), es[0].key, es[0].total, es[0].size)
  }

  lemma {:induction false} KeySetMember(s: seq<Group>, k: Key)
    ensures k in KeySet(s) <==> exists i :: 0 <= i < |s| && s[i].key == k
  {
    if |s| > 0 {
      KeySetMember(s[1..], k);
      if k in KeySet(s[1..]) {
        var i :| 0 <= i < |s[1..]| && s[1..][i].key == k;
        assert s[i + 1].key == k;
      }
      if exists i :: 0 <= i < |s| && s[i].key == k {
        var i :| 0 <= i < |s| && s[i].key == k;
        if i > 0 { assert s[1..][i - 1].key == k; }
      }
    }
  }

  lemma {:induction false} InsertKeySet(gs: seq<Group>, k: Key, t: nat, n: nat)
    ensures KeySet(Insert(gs, k, t, n)) == KeySet(gs) + {k}
  {
    if |gs| > 0 && gs[0].key != k && !KeyLt(k, gs[0].key) {
      InsertKeySet(gs[1..], k, t, n);
      assert ([gs[0]] + Insert(gs[1..], k, t, n))[1..] == Insert(gs[1..], k, t, n);
    } else if |gs| > 0 && gs[0].key == k {
      assert ([Group(k, gs[0].total + t, gs[0].size + n)] + gs[1..])[1..] == gs[1..];
    } else if |gs| > 0 {
      assert ([Group(k, t, n)] + gs)[1..] == gs;
    }
  }

  lemma {:induction false} InsertSums(gs: seq<Group>, k: Key, t: nat, n: nat, x: Key)
    ensures Total(Insert(gs, k, t, n)) == Total(gs) + t
    ensures SumWhere(Insert(gs, k, t, n), x) == SumWhere(gs, x) + (if x == k then t else 0)
    ensures SizeWhere(Insert(gs, k, t, n), x) == SizeWhere(gs, x) + (if x == k then n else 0)
  {
    if |gs| > 0 && gs[0].key != k && !KeyLt(k, gs[0].key) {
      InsertSums(gs[1..], k, t, n, x);
      assert ([gs[0]] + Insert(gs[1..], k, t, n))[1..] == Insert(gs[1..], k, t, n);
    } else if |gs| > 0 && gs[0].key == k {
      assert ([Group(k, gs[0].total + t, gs[0].size + n)] + gs[1..])[1..] == gs[1..];
    } else if |gs| > 0 {
      assert ([Group(k, t, n)] + gs)[1..] == gs;
    }
  }

  lemma {:induction false} InsertAbove(x: Key, gs: seq<Group>, k: Key, t: nat, n: nat)
    requires AllAbove(x, gs) && KeyLt(x, k)
    ensures AllAbove(x, Insert(gs, k, t, n))
  {
    if |gs| > 0 && gs[0].key != k && !KeyLt(k, gs[0].key) {
      InsertAbove(x, gs[1..], k, t, n);
    }
  }

  lemma {:induction false} InsertSorted(gs: seq<Group>, k: Key, t: nat, n: nat)
    requires Sorted(gs)
    ensures Sorted(Insert(gs, k, t, n))
  {
    if |gs| == 0 {
    } else if gs[0].key == k {
      assert ([Group(k, gs[0].total + t, gs[0].size + n)] + gs[1..])[1..] == gs[1..];
    } else if KeyLt(k, gs[0].key) {
      forall j | 0 <= j < |gs| ensures KeyLt(k, gs[j].key) {
        if j > 0 {
          assert gs[1..][j - 1] == gs[j];
          KeyLtTransitive(k, gs[0].key, gs[j].key);
        }
      }
      assert ([Group(k, t, n)] + gs)[1..] == gs;
    } else {
      KeyLtTotal(k, gs[0].key);
      InsertAbove(gs[0].key, gs[1..], k, t, n);
      InsertSorted(gs[1..], k, t, n);
      assert ([gs[0]] + Insert(gs[1..], k, t, n))[1..] == Insert(gs[1..], k, t, n);
    }
  }

  /** A key below every key of `s` does not occur in `s`. */
  lemma {:induction false} AboveAbsent(x: Key, s: seq<Group>)
    requires AllAbove(x, s)
    ensures x !in KeySet(s) && SumWhere(s, x) == 0 && SizeWhere(s, x) == 0
  {
    if |s| > 0 {
      KeyLtIrreflexive(x);
      AboveAbsent(x, s[1..]);
    }
  }

  /** In a sorted list the group at position i is the only one with its key. */
  lemma {:induction false} SortedLookup(s: seq<Group>, i: nat)
    requires Sorted(s) && i < |s|
    ensures SumWhere(s, s[i].key) == s[i].total && SizeWhere(s, s[i].key) == s[i].size
  {
    if i == 0 {
      AboveAbsent(s[0].key, s[1..]);
    } else {
      assert KeyLt(s[0].key, s[1..][i - 1].key);
      KeyLtIrreflexive(s[0].key);
      SortedLookup(s[1..], i - 1);
    }
  }

  /** Sortedness read pairwise. */
  lemma {:induction false} SortedPairwise(s: seq<Group>, i: nat, j: nat)
    requires Sorted(s) && i < j < |s|
    ensures KeyLt(s[i].key, s[j].key)
  {
    if i == 0 {
      assert s[1..][j - 1] == s[j];
    } else {
      SortedPairwise(s[1..], i - 1, j - 1);
    }
  }

  /** The invariant that `GroupSum` keeps, step by step. */
  lemma {:induction false} GroupSumInvariant(es: seq<Group>)
    ensures Sorted(GroupSum(es))
    ensures KeySet(GroupSum(es)) == KeySet(es)
    ensures Total(GroupSum(es)) == Total(es)
    ensures forall x :: SumWhere(GroupSum(es), x) == SumWhere(es, x)
    ensures forall x :: SizeWhere(GroupSum(es), x) == SizeWhere(es, x)
  {
    if |es| > 0 {
      var rest := GroupSum(es[1..]);
      GroupSumInvariant(es[1..]);
      InsertSorted(rest, es[0].key, es[0].total, es[0].size);
      InsertKeySet(rest, es[0].key, es[0].total, es[0].size);
      InsertSums(rest, es[0].key, es[0].total, es[0].size, []);
      forall x ensures SumWhere(GroupSum(es), x) == SumWhere(es, x)
        && SizeWhere(GroupSum(es), x) == SizeWhere(es, x)
      {
        InsertSums(rest, es[0].key, es[0].total, es[0].size, x);
      }
    }
  }

  /** `GroupSum` computes the group-by-sum: one group per distinct key
      present, ascending, with the sum and row count of its entries; the
      grand total is preserved, and an empty input gives no groups. */
  lemma GroupSumCorrect(es: seq<Group>)
    ensures Aggregates(GroupSum(es), es)
    ensures Total(GroupSum(es)) == Total(es)
    ensures |es| == 0 <==> |GroupSum(es)| == 0
  {
    var gs := GroupSum(es);
    GroupSumInvariant(es);
    forall i | 0 <= i < |gs|
      ensures gs[i].total == SumWhere(es, gs[i].key) && gs[i].size == SizeWhere(es, gs[i].key)
    {
      SortedLookup(gs, i);
    }
  }

  lemma {:induction false} InsertSumIf(gs: seq<Group>, k: Key, t: nat, n: nat, p: Key -> bool)
    ensures SumIf(Insert(gs, k, t, n), p) == SumIf(gs, p) + (if p(k) then t else 0)
  {
    if |gs| > 0 {
      if gs[0].key == k {
        assert Insert(gs, k, t, n)[1..] == gs[1..];
      } else if KeyLt(k, gs[0].key) {
        assert Insert(gs, k, t, n)[1..] == gs;
      } else {
        assert Insert(gs, k, t, n)[1..] == Insert(gs[1..], k, t, n);
        InsertSumIf(gs[1..], k, t, n, p);
      }
    }
  }

  /** Grouping keeps the sum over any set of keys: the groups whose key
      satisfies `p` add up to the entries whose key does. */
  lemma {:induction false} GroupSumSumIf(es: seq<Group>, p: Key -> bool)
    ensures SumIf(GroupSum(es), p) == SumIf(es, p)
  {
    if |es| > 0 {
      GroupSumSumIf(es[1..], p);
      InsertSumIf(GroupSum(es[1..]), es[0].key, es[0].total, es[0].size, p);
    }
  }

  /** Two lists that both satisfy the reference meaning are equal: the
      sorted grouping is unique. */
  lemma {:induction false} SortedMatchUnique(a: seq<Group>, b: seq<Group>, es: seq<Group>)
    requires Sorted(a) && Sorted(b) && KeySet(a) == KeySet(b)
    requires forall i :: 0 <= i < |a| ==>
      a[i].total == SumWhere(es, a[i].key) && a[i].size == SizeWhere(es, a[i].key)
    requires forall i :: 0 <= i < |b| ==>
      b[i].total == SumWhere(es, b[i].key) && b[i].size == SizeWhere(es, b[i].key)
    ensures a == b
  {
    if |a| > 0 && |b| > 0 {
      if a[0].key != b[0].key {
        KeySetMember(b, a[0].key);
        KeySetMember(a, b[0].key);
        var j :| 0 <= j < |b| && b[j].key == a[0].key;
        var i :| 0 <= i < |a| && a[i].key == b[0].key;
        SortedPairwise(b, 0, j);
        SortedPairwise(a, 0, i);
        KeyLtTransitive(a[0].key, b[0].key, a[0].key);
        KeyLtIrreflexive(a[0].key);
      }
      AboveAbsent(a[0].key, a[1..]);
      AboveAbsent(b[0].key, b[1..]);
      assert KeySet(a[1..]) == KeySet(b[1..]);
      SortedMatchUnique(a[1..], b[1..], es);
      assert a == [a[0]] + a[1..] && b == [b[0]] + b[1..];
    }
  }

  /** The reference meaning determines the group-by-sum: any list that
      satisfies it is `GroupSum(es)`. */
  lemma GroupSumUnique(gs: seq<Group>, es: seq<Group>)
    requires Aggregates(gs, es)
    ensures gs == GroupSum(es)
  {
    GroupSumCorrect(es);
    SortedMatchUnique(gs, GroupSum(es), es);
  }

  /** A key of `es` counts at least one row when every entry does. */
  lemma {:induction false} PresentKeyHasRows(es: seq<Group>, k: Key)
    requires forall i :: 0 <= i < |es| ==> es[i].size >= 1
    requires k in KeySet(es)
    ensures SizeWhere(es, k) >= 1
  {
    if es[0].key != k {
      PresentKeyHasRows(es[1..], k);
    }
  }

  /** Every group of a group-by over entries of one row each has rows, so
      its mean is defined. */
  lemma GroupSizesPositive(es: seq<Group>)
    requires forall i :: 0 <= i < |es| ==> es[i].size >= 1
    ensures forall i :: 0 <= i < |GroupSum(es)| ==> GroupSum(es)[i].size >= 1
  {
    var gs := GroupSum(es);
    GroupSumCorrect(es);
    forall i | 0 <= i < |gs| ensures gs[i].size >= 1 {
      KeySetMember(gs, gs[i].key);
      PresentKeyHasRows(es, gs[i].key);
    }
  }

}
