/** `dict.setdefault(key, []).append(item)` over a sequence: groups in order of first appearance. */
module Grouping {
  import opened Seqs
  import opened InsertionDict

  function AddToGroup<K(==), T>(groups: Dict<K, seq<T>>, k: K, item: T): Dict<K, seq<T>> {
    groups.Put(k, (if k in groups.entries then groups.entries[k] else []) + [item])
  }

  function GroupBy<K(==), T>(key: T -> K, items: seq<T>): (groups: Dict<K, seq<T>>)
    ensures groups.Valid()
  {
    if items == [] then Empty()
    else AddToGroup(GroupBy(key, Front(items)), key(Last(items)), Last(items))
  }

  function HasKey<K(==), T>(key: T -> K, k: K): T -> bool {
    (item: T) => key(item) == k
  }

  /** The group of `k` is the subsequence of items with that key; there is one for every key that occurs. */
  lemma {:induction false} GroupIsFilter<K, T>(key: T -> K, items: seq<T>, k: K)
    ensures var groups := GroupBy(key, items);
      && (k in groups.entries <==> Filter(HasKey(key, k), items) != [])
      && (k in groups.entries ==> groups.entries[k] == Filter(HasKey(key, k), items))
  {
    if items != [] {
      GroupIsFilter(key, Front(items), k);
    }
  }

  function Flatten<T>(groups: seq<seq<T>>): seq<T> {
    if groups == [] then [] else Flatten(Front(groups)) + Last(groups)
  }

  lemma {:induction false} FlattenUpdate<T>(groups: seq<seq<T>>, i: nat, item: T)
    requires i < |groups|
    ensures multiset(Flatten(groups[i := groups[i] + [item]])) == multiset(Flatten(groups)) + multiset{item}
  {
    var updated := groups[i := groups[i] + [item]];
    if i < |groups| - 1 {
      FlattenUpdate(Front(groups), i, item);
      assert Front(updated) == Front(groups)[i := groups[i] + [item]];
    } else {
      assert Front(updated) == Front(groups);
    }
  }

  lemma ValuesAfterAdd<K, T>(groups: Dict<K, seq<T>>, k: K, item: T)
    requires groups.Valid()
    ensures multiset(Flatten(AddToGroup(groups, k, item).Values())) == multiset(Flatten(groups.Values())) + multiset{item}
  {
    var before, after := groups.Values(), AddToGroup(groups, k, item).Values();
    if k in groups.entries {
      assert k in groups.keys;
      var i :| 0 <= i < |groups.keys| && groups.keys[i] == k;
      assert after == before[i := before[i] + [item]];
      FlattenUpdate(before, i, item);
    } else {
      assert [] + [item] == [item];
      assert after == before + [[item]];
      assert Front(after) == before && Last(after) == [item];
    }
  }

  /** Every item is in exactly one group, as often as it occurs. */
  lemma {:induction false} GroupsPartition<K, T>(key: T -> K, items: seq<T>)
    ensures multiset(Flatten(GroupBy(key, items).Values())) == multiset(items)
  {
    if items != [] {
      GroupsPartition(key, Front(items));
      ValuesAfterAdd(GroupBy(key, Front(items)), key(Last(items)), Last(items));
      SplitLast(items);
    }
  }

  function SumOfGroup<T>(f: T -> real): seq<T> -> real {
    (group: seq<T>) => Sum(f, group)
  }

  lemma {:induction false} SumFlatten<T>(f: T -> real, groups: seq<seq<T>>)
    ensures Sum(f, Flatten(groups)) == Sum(SumOfGroup(f), groups)
  {
    if groups != [] {
      SumFlatten(f, Front(groups));
      SumAppend(f, Flatten(Front(groups)), Last(groups));
    }
  }

  /** Grouping conserves every sum. */
  lemma GroupingConserves<K, T>(key: T -> K, items: seq<T>, f: T -> real)
    ensures Sum(SumOfGroup(f), GroupBy(key, items).Values()) == Sum(f, items)
  {
    GroupsPartition(key, items);
    SumPermutation(f, Flatten(GroupBy(key, items).Values()), items);
    SumFlatten(f, GroupBy(key, items).Values());
  }
}
