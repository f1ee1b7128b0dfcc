/** A JavaScript `Map` as an insertion-ordered list of entries, and the
    collapse `xs.forEach(x => map.set(key(x), x))` followed by
    `[...map.values()]`. `map.set` on a present key overwrites the value in
    place; on a new key it appends. So every key keeps the position of its
    first occurrence and holds the value of its last. */
module Dedup {

  datatype Entry<V> = Entry(key: string, value: V)

  predicate DistinctKeys<V>(m: seq<Entry<V>>) {
    forall i, j :: 0 <= i < j < |m| ==> m[i].key != m[j].key
  }

  predicate HasKey<V>(m: seq<Entry<V>>, k: string) {
    exists j :: 0 <= j < |m| && m[j].key == k
  }

  /** Some element of `xs` has key `k`. */
  predicate Occurs<V>(xs: seq<V>, key: V -> string, k: string) {
    exists i :: 0 <= i < |xs| && key(xs[i]) == k
  }

  /** Overwrite the value under `k`, wherever it sits. */
  function Overwrite<V>(m: seq<Entry<V>>, k: string, v: V): (r: seq<Entry<V>>)
    ensures |r| == |m|
    ensures forall i :: 0 <= i < |m| ==> r[i].key == m[i].key
    ensures forall i :: 0 <= i < |m| && m[i].key == k ==> r[i].value == v
    ensures forall i :: 0 <= i < |m| && m[i].key != k ==> r[i] == m[i]
  {
    if m == [] then []
    else [if m[0].key == k then Entry(k, v) else m[0]] + Overwrite(m[1..], k, v)
  }

  /** `map.set(k, v)`. */
  function Put<V>(m: seq<Entry<V>>, k: string, v: V): (r: seq<Entry<V>>)
    requires DistinctKeys(m)
    ensures DistinctKeys(r)
    ensures forall k' :: HasKey(r, k') <==> HasKey(m, k') || k' == k
    ensures HasKey(m, k) ==> (|r| == |m|
      && (forall i :: 0 <= i < |m| ==> r[i].key == m[i].key)
      && (forall i :: 0 <= i < |m| ==> r[i].value == if m[i].key == k then v else m[i].value))
    ensures !HasKey(m, k) ==> r == m + [Entry(k, v)]
  {
    if HasKey(m, k) then
      var r := Overwrite(m, k, v);
      assert forall k' :: HasKey(r, k') ==> HasKey(m, k') by {
        forall k' | HasKey(r, k')
          ensures HasKey(m, k')
        {
          var j :| 0 <= j < |r| && r[j].key == k';
          assert m[j].key == k';
        }
      }
      assert forall k' :: HasKey(m, k') ==> HasKey(r, k') by {
        forall k' | HasKey(m, k')
          ensures HasKey(r, k')
        {
          var j :| 0 <= j < |m| && m[j].key == k';
          assert r[j].key == k';
        }
      }
      r
    else
      var r := m + [Entry(k, v)];
      assert r[|m|].key == k;
      assert forall k' :: HasKey(r, k') ==> HasKey(m, k') || k' == k by {
        forall k' | HasKey(r, k')
          ensures HasKey(m, k') || k' == k
        {
          var j :| 0 <= j < |r| && r[j].key == k';
          if j < |m| {
            assert m[j].key == k';
          }
        }
      }
      assert forall k' :: HasKey(m, k') ==> HasKey(r, k') by {
        forall k' | HasKey(m, k')
          ensures HasKey(r, k')
        {
          var j :| 0 <= j < |m| && m[j].key == k';
          assert r[j].key == k';
        }
      }
      r
  }

  /** `xs.forEach(x => map.set(key(x), x))` on an empty map. */
  function Build<V>(xs: seq<V>, key: V -> string): (r: seq<Entry<V>>)
    ensures DistinctKeys(r)
    ensures |r| <= |xs|
    ensures |xs| > 0 ==> |r| > 0
  {
    if xs == [] then []
    else
      var m := Build(xs[..|xs| - 1], key);
      var k := key(xs[|xs| - 1]);
      assert HasKey(Put(m, k, xs[|xs| - 1]), k);
      Put(m, k, xs[|xs| - 1])
  }

  /** `[...map.values()]`. */
  function ValuesOf<V>(m: seq<Entry<V>>): (r: seq<V>)
    ensures |r| == |m|
    ensures forall i :: 0 <= i < |m| ==> r[i] == m[i].value
  {
    if m == [] then [] else [m[0].value] + ValuesOf(m[1..])
  }

  /** The collapsed batch. */
  function Collapse<V>(xs: seq<V>, key: V -> string): seq<V> {
    ValuesOf(Build(xs, key))
  }

  /** The position of the first element with key `k`; `|xs|` when there is none. */
  function FirstIndex<V>(xs: seq<V>, key: V -> string, k: string): (r: nat)
    ensures r <= |xs|
    ensures r < |xs| ==> key(xs[r]) == k
    ensures forall i :: 0 <= i < r ==> key(xs[i]) != k
  {
    if xs == [] then 0
    else if key(xs[0]) == k then 0
    else
      var r := 1 + FirstIndex(xs[1..], key, k);
      assert forall i :: 1 <= i < |xs| ==> xs[i] == xs[1..][i - 1];
      r
  }

  /** The position of the last element with key `k`, for a key that occurs. */
  function LastIndex<V>(xs: seq<V>, key: V -> string, k: string): (r: nat)
    requires Occurs(xs, key, k)
    ensures r < |xs| && key(xs[r]) == k
    ensures forall i :: r < i < |xs| ==> key(xs[i]) != k
  {
    if key(xs[|xs| - 1]) == k then |xs| - 1
    else
      var p := xs[..|xs| - 1];
      assert Occurs(p, key, k) by {
        var i :| 0 <= i < |xs| && key(xs[i]) == k;
        assert p[i] == xs[i];
      }
      LastIndex(p, key, k)
  }

  lemma OccursInPrefixOrLast<V>(xs: seq<V>, key: V -> string, k: string)
    requires |xs| > 0
    ensures Occurs(xs, key, k) <==> Occurs(xs[..|xs| - 1], key, k) || key(xs[|xs| - 1]) == k
  {
  }

  /** The collapsed map has exactly the keys that occur in the batch. */
  lemma {:induction false} BuildKeys<V>(xs: seq<V>, key: V -> string)
    ensures forall k :: HasKey(Build(xs, key), k) <==> Occurs(xs, key, k)
    decreases |xs|
  {
    if xs != [] {
      BuildKeys(xs[..|xs| - 1], key);
      forall k
        ensures HasKey(Build(xs, key), k) <==> Occurs(xs, key, k)
      {
        OccursInPrefixOrLast(xs, key, k);
      }
    }
  }

  /** A key that occurs in a prefix has the same first position in the whole. */
  lemma FirstIndexOfPrefix<V>(xs: seq<V>, n: nat, key: V -> string, k: string)
    requires n <= |xs| && Occurs(xs[..n], key, k)
    ensures FirstIndex(xs[..n], key, k) == FirstIndex(xs, key, k)
  {
  }

  /** Adding an element at the end does not move the first position of a key
      the prefix already holds. */
  lemma PrefixKeysKeepFirstIndex<V>(xs: seq<V>, key: V -> string)
    requires |xs| > 0
    ensures var p := xs[..|xs| - 1];
      forall i :: 0 <= i < |Build(p, key)| ==>
        FirstIndex(xs, key, Build(p, key)[i].key) == FirstIndex(p, key, Build(p, key)[i].key)
  {
    var p := xs[..|xs| - 1];
    var mp := Build(p, key);
    BuildKeys(p, key);
    forall i | 0 <= i < |mp|
      ensures FirstIndex(xs, key, mp[i].key) == FirstIndex(p, key, mp[i].key)
    {
      assert HasKey(mp, mp[i].key);
      FirstIndexOfPrefix(xs, |xs| - 1, key, mp[i].key);
    }
  }

  /** The entries of `m` stand in the order of their keys' first positions in `xs`. */
  predicate OrderedByFirst<V>(xs: seq<V>, key: V -> string, m: seq<Entry<V>>) {
    && (forall i, j :: 0 <= i < j < |m| ==> FirstIndex(xs, key, m[i].key) < FirstIndex(xs, key, m[j].key))
    && (forall i :: 0 <= i < |m| ==> FirstIndex(xs, key, m[i].key) < |xs|)
  }

  /** The order carries over from the prefix to the whole batch when the last
      element's key is already present and the keys stay where they were. */
  lemma OrderAfterOverwrite<V>(xs: seq<V>, key: V -> string, mp: seq<Entry<V>>, m: seq<Entry<V>>)
    requires |xs| > 0
    requires OrderedByFirst(xs[..|xs| - 1], key, mp)
    requires forall i :: 0 <= i < |mp| ==>
      FirstIndex(xs, key, mp[i].key) == FirstIndex(xs[..|xs| - 1], key, mp[i].key)
    requires |m| == |mp| && forall i :: 0 <= i < |m| ==> m[i].key == mp[i].key
    ensures OrderedByFirst(xs, key, m)
  {
  }

  /** The order carries over when the last element brings a new key, whose
      first position is the last one. */
  lemma OrderAfterAppend<V>(xs: seq<V>, key: V -> string, mp: seq<Entry<V>>, e: Entry<V>)
    requires |xs| > 0
    requires OrderedByFirst(xs[..|xs| - 1], key, mp)
    requires forall i :: 0 <= i < |mp| ==>
      FirstIndex(xs, key, mp[i].key) == FirstIndex(xs[..|xs| - 1], key, mp[i].key)
    requires FirstIndex(xs, key, e.key) == |xs| - 1
    ensures OrderedByFirst(xs, key, mp + [e])
  {
    var m := mp + [e];
    forall i, j | 0 <= i < j < |m|
      ensures FirstIndex(xs, key, m[i].key) < FirstIndex(xs, key, m[j].key)
    {
      assert m[i] == mp[i];
      if j < |mp| {
        assert m[j] == mp[j];
      }
    }
    forall i | 0 <= i < |m|
      ensures FirstIndex(xs, key, m[i].key) < |xs|
    {
      if i < |mp| {
        assert m[i] == mp[i];
      }
    }
  }

  /** Entries stand in the order of their keys' first occurrences. */
  lemma {:induction false} BuildFirstOccurrenceOrder<V>(xs: seq<V>, key: V -> string)
    ensures forall i, j :: 0 <= i < j < |Build(xs, key)| ==>
      FirstIndex(xs, key, Build(xs, key)[i].key) < FirstIndex(xs, key, Build(xs, key)[j].key)
    ensures forall i :: 0 <= i < |Build(xs, key)| ==> FirstIndex(xs, key, Build(xs, key)[i].key) < |xs|
    decreases |xs|
  {
    if xs != [] {
      var n := |xs| - 1;
      var p := xs[..n];
      var mp := Build(p, key);
      var k := key(xs[n]);
      var m := Build(xs, key);
      BuildFirstOccurrenceOrder(p, key);
      PrefixKeysKeepFirstIndex(xs, key);
      assert m == Put(mp, k, xs[n]);
      if HasKey(mp, k) {
        OrderAfterOverwrite(xs, key, mp, m);
      } else {
        BuildKeys(p, key);
        assert FirstIndex(xs, key, k) == n by {
          assert forall j :: 0 <= j < n ==> p[j] == xs[j];
        }
        OrderAfterAppend(xs, key, mp, Entry(k, xs[n]));
      }
      assert OrderedByFirst(xs, key, m);
    }
  }

  /** Every entry holds the last element of the batch with its key. */
  lemma {:induction false} BuildLastWriteWins<V>(xs: seq<V>, key: V -> string)
    ensures forall i :: 0 <= i < |Build(xs, key)| ==> Occurs(xs, key, Build(xs, key)[i].key)
    ensures forall i :: 0 <= i < |Build(xs, key)| ==>
      Build(xs, key)[i].value == xs[LastIndex(xs, key, Build(xs, key)[i].key)]
    decreases |xs|
  {
    if xs != [] {
      var n := |xs| - 1;
      var p := xs[..n];
      var mp := Build(p, key);
      var k := key(xs[n]);
      var m := Build(xs, key);
      BuildLastWriteWins(p, key);
      assert m == Put(mp, k, xs[n]);
      forall i | 0 <= i < |m|
        ensures Occurs(xs, key, m[i].key) && m[i].value == xs[LastIndex(xs, key, m[i].key)]
      {
        OccursInPrefixOrLast(xs, key, m[i].key);
        if m[i].key == k {
          assert m[i].value == xs[n];
        } else {
          assert i < |mp| && m[i] == mp[i];
          assert Occurs(p, key, mp[i].key);
          assert LastIndex(xs, key, m[i].key) == LastIndex(p, key, m[i].key);
          var l := LastIndex(p, key, m[i].key);
          assert p[l] == xs[l];
        }
      }
    }
  }

  /** The keys of a builder sequence, as a set. */
  function KeySet<V>(m: seq<Entry<V>>): set<string> {
    set i | 0 <= i < |m| :: m[i].key
  }

  /** Dropping the last entry drops exactly its key from the key set, when keys are distinct. */
  lemma KeySetOfPrefix<V>(m: seq<Entry<V>>)
    requires m != [] && DistinctKeys(m)
    ensures KeySet(m) == KeySet(m[..|m| - 1]) + {m[|m| - 1].key}
    ensures m[|m| - 1].key !in KeySet(m[..|m| - 1])
  {
    var n := |m| - 1;
    var p := m[..n];
    forall x | x in KeySet(m)
      ensures x in KeySet(p) + {m[n].key}
    {
      var i :| 0 <= i < |m| && m[i].key == x;
      if i < n {
        assert p[i] == m[i];
      }
    }
    forall x | x in KeySet(p)
      ensures x in KeySet(m) && x != m[n].key
    {
      var i :| 0 <= i < |p| && p[i].key == x;
      assert m[i] == p[i];
    }
  }

  /** Distinct keys: as many keys as entries. */
  lemma {:induction false} DistinctKeysCardinality<V>(m: seq<Entry<V>>)
    requires DistinctKeys(m)
    ensures |KeySet(m)| == |m|
    decreases |m|
  {
    if m != [] {
      var p := m[..|m| - 1];
      assert DistinctKeys(p);
      DistinctKeysCardinality(p);
      KeySetOfPrefix(m);
    }
  }

  /** The distinct keys of a sequence. */
  function KeysOf<V>(xs: seq<V>, key: V -> string): (r: set<string>)
    ensures forall k :: k in r <==> Occurs(xs, key, k)
  {
    set i | 0 <= i < |xs| :: key(xs[i])
  }

  /** The collapsed batch has exactly one entry per distinct key of the input. */
  lemma CollapseSizeIsDistinctKeyCount<V>(xs: seq<V>, key: V -> string)
    ensures |Collapse(xs, key)| == |KeysOf(xs, key)|
  {
    var m := Build(xs, key);
    BuildKeys(xs, key);
    DistinctKeysCardinality(m);
    var a := KeySet(m);
    var b := KeysOf(xs, key);
    assert a == b by {
      forall x | x in a
        ensures x in b
      {
        assert HasKey(m, x);
        assert Occurs(xs, key, x);
      }
      forall x | x in b
        ensures x in a
      {
        assert Occurs(xs, key, x);
        assert HasKey(m, x);
      }
    }
  }

  /** The collapse in one statement: one value per distinct key, keys in the
      order of their first occurrence, each value the last with its key. */
  lemma CollapseIsMapSemantics<V>(xs: seq<V>, key: V -> string)
    ensures var out := Collapse(xs, key);
      && |out| == |KeysOf(xs, key)|
      && (forall i, j :: 0 <= i < j < |out| ==> key(out[i]) != key(out[j]))
      && (forall i, j :: 0 <= i < j < |out| ==> FirstIndex(xs, key, key(out[i])) < FirstIndex(xs, key, key(out[j])))
      && (forall i :: 0 <= i < |out| ==> Occurs(xs, key, key(out[i])) && out[i] == xs[LastIndex(xs, key, key(out[i]))])
  {
    var m := Build(xs, key);
    BuildLastWriteWins(xs, key);
    BuildFirstOccurrenceOrder(xs, key);
    CollapseSizeIsDistinctKeyCount(xs, key);
    assert forall i :: 0 <= i < |m| ==> key(m[i].value) == m[i].key;
  }

  /** A value given twice collapses to one copy. */
  lemma CollapseOfRepeat<V>(x: V, key: V -> string)
    ensures Collapse([x, x], key) == [x]
  {
    assert [x, x][..1] == [x];
    assert [x][..0] == [];
    assert Build([x], key) == [Entry(key(x), x)];
    assert HasKey(Build([x], key), key(x));
  }

  /** Every collapsed value is one of the inputs, and a non-empty input
      leaves something. */
  lemma CollapseKeepsMembers<V>(xs: seq<V>, key: V -> string)
    ensures forall x :: x in Collapse(xs, key) ==> x in xs
    ensures 1 <= |Collapse(xs, key)| <= |xs| || xs == []
  {
    var m := Build(xs, key);
    BuildLastWriteWins(xs, key);
    forall x | x in Collapse(xs, key)
      ensures x in xs
    {
      var i :| 0 <= i < |m| && ValuesOf(m)[i] == x;
      assert x == xs[LastIndex(xs, key, m[i].key)];
    }
  }
}
