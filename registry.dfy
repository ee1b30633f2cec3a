/** The node's `sensors` dict: sensor uuid to stored record, in insertion order
    (Python dicts iterate in the order keys were first inserted). */
module SensorRegistry {
  import opened Values

  /** `order` lists the keys in iteration order; `entries` holds the records. */
  datatype Dict = Dict(order: seq<Value>, entries: map<Value, Record>)

  ghost predicate Distinct(s: seq<Value>)
  {
    forall i, j :: 0 <= i < j < |s| ==> s[i] != s[j]
  }

  /** Every key is listed exactly once, and only keys are listed. */
  ghost predicate Valid(d: Dict)
  {
    Distinct(d.order) && forall k :: k in d.entries <==> k in d.order
  }

  const Empty: Dict := Dict([], map[])

  /** `s` with `k` taken out, the other keys keeping their order. */
  function Without(s: seq<Value>, k: Value): (r: seq<Value>)
    ensures forall x :: x in r <==> x in s && x != k
    ensures Distinct(s) ==> Distinct(r)
    ensures Distinct(s) && k in s ==> |r| == |s| - 1
    ensures k !in s ==> r == s
  {
    if s == [] then []
    else
      assert Distinct(s) ==> Distinct(s[1..]) && s[0] !in s[1..];
      if s[0] == k then Without(s[1..], k)
      else [s[0]] + Without(s[1..], k)
  }

  /** Taking out the key at index `i` of a duplicate-free sequence cuts exactly
      that position: the keys before and after it keep their order. */
  lemma {:induction false} WithoutKeepsOrder(s: seq<Value>, k: Value, i: nat)
    requires Distinct(s) && i < |s| && s[i] == k
    ensures Without(s, k) == s[..i] + s[i + 1..]
  {
    assert Distinct(s[1..]) && s[0] !in s[1..];
    if i > 0 {
      assert s[1..][i - 1] == k;
      WithoutKeepsOrder(s[1..], k, i - 1);
      assert s[..i] == [s[0]] + s[1..][..i - 1];
      assert s[i + 1..] == s[1..][i..];
    }
  }

  lemma WithoutCutsPosition(s: seq<Value>, k: Value)
    requires Distinct(s)
    ensures forall i :: 0 <= i < |s| && s[i] == k ==> Without(s, k) == s[..i] + s[i + 1..]
  {
    forall i | 0 <= i < |s| && s[i] == k {
      WithoutKeepsOrder(s, k, i);
    }
  }

  /** `s` with every key of `gone` taken out, the other keys keeping their order. */
  function WithoutAll(s: seq<Value>, gone: set<Value>): (r: seq<Value>)
    ensures forall x :: x in r <==> x in s && x !in gone
    ensures Distinct(s) ==> Distinct(r)
    ensures (forall x | x in s :: x !in gone) ==> r == s
  {
    if s == [] then []
    else
      assert Distinct(s) ==> Distinct(s[1..]) && s[0] !in s[1..];
      assert forall x | x in s[1..] :: x in s;
      (if s[0] in gone then [] else [s[0]]) + WithoutAll(s[1..], gone)
  }

  /** Taking out one key and then a set of keys takes out their union. */
  lemma {:induction false} WithoutThenWithoutAll(s: seq<Value>, k: Value, gone: set<Value>)
    ensures WithoutAll(Without(s, k), gone) == WithoutAll(s, {k} + gone)
  {
    if s != [] {
      WithoutThenWithoutAll(s[1..], k, gone);
      if s[0] != k {
        assert ([s[0]] + Without(s[1..], k))[1..] == Without(s[1..], k);
      }
    }
  }

  /** `d[k] = r`: an existing key keeps its place, a new key goes last. */
  function Put(d: Dict, k: Value, r: Record): (d': Dict)
    requires Valid(d)
    ensures Valid(d')
    ensures d'.entries == d.entries[k := r]
    ensures k in d.entries ==> d'.order == d.order
    ensures k !in d.entries ==> d'.order == d.order + [k]
  {
    if k in d.entries then Dict(d.order, d.entries[k := r])
    else Dict(d.order + [k], d.entries[k := r])
  }

  /** `del d[k]`, with a missing key ignored: the other keys keep their order. */
  function Delete(d: Dict, k: Value): (d': Dict)
    requires Valid(d)
    ensures Valid(d')
    ensures d'.entries == d.entries - {k}
    ensures |d'.order| == if k in d.entries then |d.order| - 1 else |d.order|
    ensures k !in d.entries ==> d' == d
    ensures forall i :: 0 <= i < |d.order| && d.order[i] == k ==> d'.order == d.order[..i] + d.order[i + 1..]
  {
    WithoutCutsPosition(d.order, k);
    Dict(Without(d.order, k), d.entries - {k})
  }

  /** `list(d.items())`: a snapshot of the entries in iteration order. */
  function Items(d: Dict): (items: seq<(Value, Record)>)
    requires Valid(d)
    ensures |items| == |d.order| == |d.entries|
    ensures forall i :: 0 <= i < |items| ==> items[i].0 == d.order[i] && items[i].1 == d.entries[d.order[i]]
    ensures forall i, j :: 0 <= i < j < |items| ==> items[i].0 != items[j].0
    ensures forall k :: k in d.entries ==> exists i :: 0 <= i < |items| && items[i].0 == k
  {
    SizeAgrees(d);
    seq(|d.order|, i requires 0 <= i < |d.order| => (d.order[i], d.entries[d.order[i]]))
  }

  /** The keys of a valid dict are as many as its entries. */
  lemma {:induction false} SizeAgrees(d: Dict)
    requires Valid(d)
    ensures |d.order| == |d.entries|
    decreases |d.order|
  {
    if d.order != [] {
      var k := d.order[0];
      var rest := Dict(d.order[1..], d.entries - {k});
      assert Valid(rest) by {
        forall x ensures x in rest.entries <==> x in rest.order {
          if x in d.order && x != k {
            var j :| 0 <= j < |d.order| && d.order[j] == x;
            assert j > 0;
            assert rest.order[j - 1] == x;
          }
        }
      }
      SizeAgrees(rest);
    }
  }

  lemma {:induction false} WithoutAppend(s: seq<Value>, k: Value)
    requires k !in s
    ensures Without(s + [k], k) == s
  {
    if s != [] {
      assert (s + [k])[1..] == s[1..] + [k];
      WithoutAppend(s[1..], k);
    } else {
      assert [k][1..] == [];
    }
  }

  /** Inserting a new key and deleting it again restores the dict, order included. */
  lemma DeleteUndoesPut(d: Dict, k: Value, r: Record)
    requires Valid(d) && k !in d.entries
    ensures Delete(Put(d, k, r), k) == d
  {
    WithoutAppend(d.order, k);
    assert d.entries[k := r] - {k} == d.entries;
  }

  /** Storing the same record twice is the same as storing it once. */
  lemma PutIdempotent(d: Dict, k: Value, r: Record)
    requires Valid(d)
    ensures Put(Put(d, k, r), k, r) == Put(d, k, r)
  {
  }

  /** Deleting twice is the same as deleting once. */
  lemma DeleteIdempotent(d: Dict, k: Value)
    requires Valid(d)
    ensures Delete(Delete(d, k), k) == Delete(d, k)
  {
  }
}
