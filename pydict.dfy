/**
 * What a Python dict literal `{k1: v1, k2: v2, ...}` evaluates to: a repeated
 * key keeps the position of its first occurrence and the value of its last.
 */
module PyDict {

  predicate Distinct<T(==)>(s: seq<T>)
  {
    forall i, j :: 0 <= i < j < |s| ==> s[i] != s[j]
  }

  /** The list `[f(0), ..., f(n - 1)]`: a literal written out entry by entry. */
  function Tabulate<T>(f: nat --> T, n: nat): (s: seq<T>)
    requires forall i :: 0 <= i < n ==> f.requires(i)
    ensures |s| == n
  {
    if n == 0 then [] else Tabulate(f, n - 1) + [f(n - 1)]
  }

  /** Entry `i` of the tabulated list is `f(i)`. */
  lemma {:induction false} TabulateAt<T>(f: nat --> T, n: nat, i: nat)
    requires forall j :: 0 <= j < n ==> f.requires(j)
    requires i < n
    ensures Tabulate(f, n)[i] == f(i)
  {
    if i < n - 1 {
      TabulateAt(f, n - 1, i);
    }
  }

  /** The mapping the literal denotes: a later entry overrides an earlier one. */
  function DictOf<V>(entries: seq<(string, V)>): map<string, V>
  {
    if entries == [] then map[]
    else DictOf(entries[..|entries| - 1])[entries[|entries| - 1].0 := entries[|entries| - 1].1]
  }

  /** Some entry of the literal has key `k`. */
  predicate HasKey<V>(entries: seq<(string, V)>, k: string)
  {
    exists i :: 0 <= i < |entries| && entries[i].0 == k
  }

  lemma HasKeySnoc<V>(entries: seq<(string, V)>, k: string)
    requires entries != []
    ensures HasKey(entries, k) <==> HasKey(entries[..|entries| - 1], k) || entries[|entries| - 1].0 == k
  {
    if HasKey(entries, k) && entries[|entries| - 1].0 != k {
      var i :| 0 <= i < |entries| && entries[i].0 == k;
      assert entries[..|entries| - 1][i].0 == k;
    }
    if HasKey(entries[..|entries| - 1], k) {
      var i :| 0 <= i < |entries| - 1 && entries[..|entries| - 1][i].0 == k;
      assert entries[i].0 == k;
    }
  }

  /** `d.keys()` of the literal: the keys in first-occurrence order, each once. */
  function DictKeys<V>(entries: seq<(string, V)>): (keys: seq<string>)
    ensures Distinct(keys)
    ensures forall k :: k in keys <==> HasKey(entries, k)
  {
    if entries == [] then []
    else
      var init := DictKeys(entries[..|entries| - 1]);
      var k := entries[|entries| - 1].0;
      assert forall x :: HasKey(entries, x) <==> HasKey(entries[..|entries| - 1], x) || x == k by {
        forall x { HasKeySnoc(entries, x); }
      }
      if k in init then init else init + [k]
  }

  /**
   * When every entry of the literal agrees with `m` and every key of `m` occurs
   * in it, the literal denotes `m` whichever duplicate wins.
   */
  lemma {:induction false} DictOfAgrees<V>(entries: seq<(string, V)>, m: map<string, V>)
    requires forall i :: 0 <= i < |entries| ==> entries[i].0 in m && m[entries[i].0] == entries[i].1
    requires forall k :: k in m ==> HasKey(entries, k)
    ensures DictOf(entries) == m
  {
    DictOfBelow(entries, m);
    forall k | k in m
      ensures k in DictOf(entries)
    {
      var i :| 0 <= i < |entries| && entries[i].0 == k;
      DictOfHasKey(entries, i);
    }
  }

  lemma {:induction false} DictOfBelow<V>(entries: seq<(string, V)>, m: map<string, V>)
    requires forall i :: 0 <= i < |entries| ==> entries[i].0 in m && m[entries[i].0] == entries[i].1
    ensures forall k :: k in DictOf(entries) ==> k in m && DictOf(entries)[k] == m[k]
  {
    if entries != [] {
      DictOfBelow(entries[..|entries| - 1], m);
    }
  }

  lemma {:induction false} DictOfHasKey<V>(entries: seq<(string, V)>, i: nat)
    requires i < |entries|
    ensures entries[i].0 in DictOf(entries)
  {
    if i < |entries| - 1 {
      DictOfHasKey(entries[..|entries| - 1], i);
    }
  }

  /** A key of the literal maps to the value of its last occurrence. */
  lemma {:induction false} DictOfLastWins<V>(entries: seq<(string, V)>, i: nat)
    requires i < |entries|
    requires forall j :: i < j < |entries| ==> entries[j].0 != entries[i].0
    ensures entries[i].0 in DictOf(entries) && DictOf(entries)[entries[i].0] == entries[i].1
  {
    if i < |entries| - 1 {
      DictOfLastWins(entries[..|entries| - 1], i);
    }
  }

  /** The keys of the literal are exactly the keys its entries name. */
  lemma {:induction false} DictOfKeys<V>(entries: seq<(string, V)>)
    ensures forall k :: k in DictOf(entries) <==> HasKey(entries, k)
  {
    if entries != [] {
      DictOfKeys(entries[..|entries| - 1]);
      forall k ensures HasKey(entries, k) <==> HasKey(entries[..|entries| - 1], k) || entries[|entries| - 1].0 == k {
        HasKeySnoc(entries, k);
      }
    }
  }

  /**
   * `dict(items)` of items whose keys are distinct (`Series.to_dict()` of a
   * `value_counts`) loses nothing: its keys are the items' keys and each maps
   * to its own item's value.
   */
  lemma DictOfDistinct<V>(entries: seq<(string, V)>)
    requires forall i, j :: 0 <= i < j < |entries| ==> entries[i].0 != entries[j].0
    ensures forall k :: k in DictOf(entries) <==> HasKey(entries, k)
    ensures forall i :: 0 <= i < |entries| ==> entries[i].0 in DictOf(entries) && DictOf(entries)[entries[i].0] == entries[i].1
  {
    DictOfKeys(entries);
    forall i | 0 <= i < |entries| ensures entries[i].0 in DictOf(entries) && DictOf(entries)[entries[i].0] == entries[i].1 {
      DictOfLastWins(entries, i);
    }
  }
}
