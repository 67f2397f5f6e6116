/** common.go: the parameter list a route match binds, and the int32 slice
    that plugs into Go's sort package. */
module Common {

  /** A key/value pair bound by a route pattern. */
  datatype Param = Param(key: string, value: string)

  /** Params: the bound pairs, in the order the pattern binds them. */
  type Params = seq<Param>

  /** No pair before position `i` has the key. */
  ghost predicate NoKeyBefore(ps: Params, key: string, i: int)
  {
    forall j :: 0 <= j < i && j < |ps| ==> ps[j].key != key
  }

  /** Params.Get: the value of the first pair whose key equals `key`, so later
      pairs with the same key are shadowed; "" when no pair has the key. */
  function Get(ps: Params, key: string): (r: string)
    ensures NoKeyBefore(ps, key, |ps|) ==> r == ""
    ensures !NoKeyBefore(ps, key, |ps|) ==>
      exists i :: 0 <= i < |ps| && ps[i].key == key && NoKeyBefore(ps, key, i) && r == ps[i].value
  {
    if |ps| == 0 then ""
    else if ps[0].key == key then ps[0].value
    else
      var r := Get(ps[1..], key);
      assert forall i :: 0 <= i < |ps| - 1 && NoKeyBefore(ps[1..], key, i) ==> NoKeyBefore(ps, key, i + 1);
      r
  }

  /** A pair appended after one with the same key is never seen by Get;
      when no pair of `ps` has the key, Get looks in `qs`. */
  lemma {:induction false} GetConcat(ps: Params, qs: Params, key: string)
    ensures !NoKeyBefore(ps, key, |ps|) ==> Get(ps + qs, key) == Get(ps, key)
    ensures NoKeyBefore(ps, key, |ps|) ==> Get(ps + qs, key) == Get(qs, key)
  {
    if |ps| > 0 {
      assert (ps + qs)[1..] == ps[1..] + qs;
      GetConcat(ps[1..], qs, key);
      if ps[0].key != key {
        assert NoKeyBefore(ps, key, |ps|) <==> NoKeyBefore(ps[1..], key, |ps| - 1);
      }
    } else {
      assert ps + qs == qs;
    }
  }

  /** Go's int32. */
  type Int32 = x: int | -0x8000_0000 <= x < 0x8000_0000

  /** Int32Slice. */
  type Int32Slice = seq<Int32>

  /** Int32Slice.Len. */
  function Len(p: Int32Slice): nat
  {
    |p|
  }

  /** Int32Slice.Less. */
  predicate Less(p: Int32Slice, i: int, j: int)
    requires 0 <= i < |p| && 0 <= j < |p|
  {
    p[i] < p[j]
  }

  /** Int32Slice.Swap: positions i and j trade values and nothing else moves. */
  function Swap(p: Int32Slice, i: int, j: int): (r: Int32Slice)
    requires 0 <= i < |p| && 0 <= j < |p|
    ensures Len(r) == Len(p)
    ensures r[i] == p[j] && r[j] == p[i]
    ensures forall k :: 0 <= k < |p| && k != i && k != j ==> r[k] == p[k]
    ensures multiset(r) == multiset(p)
  {
    p[i := p[j]][j := p[i]]
  }

  /** The order sort.Sort establishes: no later element is Less than an
      earlier one. */
  ghost predicate Sorted(p: Int32Slice)
  {
    forall i, j :: 0 <= i < j < |p| ==> !Less(p, j, i)
  }

  lemma SortedTail(p: Int32Slice)
    requires Sorted(p) && |p| > 0
    ensures Sorted(p[1..])
  {
    forall i, j | 0 <= i < j < |p| - 1
      ensures !Less(p[1..], j, i)
    {
      assert !Less(p, j + 1, i + 1);
    }
  }

  lemma SortedCons(x: Int32, p: Int32Slice)
    requires Sorted(p)
    requires forall k :: 0 <= k < |p| ==> x <= p[k]
    ensures Sorted([x] + p)
  {
    forall i, j | 0 <= i < j < |p| + 1
      ensures !Less([x] + p, j, i)
    {
      if i > 0 {
        assert !Less(p, j - 1, i - 1);
      }
    }
  }

  /** Places `x` into an already sorted slice. */
  function Insert(x: Int32, p: Int32Slice): (r: Int32Slice)
    requires Sorted(p)
    ensures Sorted(r)
    ensures multiset(r) == multiset(p) + multiset{x}
    ensures forall k :: 0 <= k < |r| ==> r[k] == x || r[k] in p
    decreases |p|
  {
    if |p| == 0 || x <= p[0] then
      forall k | 0 <= k < |p|
        ensures x <= p[k]
      {
        assert k == 0 || !Less(p, k, 0);
      }
      SortedCons(x, p);
      [x] + p
    else
      SortedTail(p);
      var rest := Insert(x, p[1..]);
      assert forall k :: 0 <= k < |rest| ==> p[0] <= rest[k] by {
        forall k | 0 <= k < |rest|
          ensures p[0] <= rest[k]
        {
          if rest[k] != x {
            var m :| 0 <= m < |p[1..]| && p[1..][m] == rest[k];
            assert !Less(p, m + 1, 0);
          }
        }
      }
      assert p == [p[0]] + p[1..];
      SortedCons(p[0], rest);
      [p[0]] + rest
  }

  /** Int32Slice.Sort: a non-decreasing permutation of the input. The order
      Go's sort.Sort uses to get there is not observable for integers (see
      SortedPermutationUnique), so the model sorts by insertion. */
  function Sort(p: Int32Slice): (r: Int32Slice)
    ensures Sorted(r)
    ensures multiset(r) == multiset(p)
    decreases |p|
  {
    if |p| == 0 then []
    else
      assert p == [p[0]] + p[1..];
      Insert(p[0], Sort(p[1..]))
  }

  /** There is only one sorted permutation of a slice of integers. */
  lemma {:induction false} SortedPermutationUnique(a: Int32Slice, b: Int32Slice)
    requires Sorted(a) && Sorted(b)
    requires multiset(a) == multiset(b)
    ensures a == b
    decreases |a|
  {
    assert |a| == |multiset(a)| == |multiset(b)| == |b|;
    if |a| > 0 {
      SortedHeadsAgree(a, b);
      SameTail(a, b);
      SortedTail(a);
      SortedTail(b);
      SortedPermutationUnique(a[1..], b[1..]);
      assert a == [a[0]] + a[1..] && b == [b[0]] + b[1..];
    }
  }

  /** Two sorted permutations start with the same, least, element. */
  lemma SortedHeadsAgree(a: Int32Slice, b: Int32Slice)
    requires Sorted(a) && Sorted(b) && |a| > 0 && |b| > 0
    requires multiset(a) == multiset(b)
    ensures a[0] == b[0]
  {
    assert a[0] in multiset(b);
    var k :| 0 <= k < |b| && b[k] == a[0];
    assert k == 0 || !Less(b, k, 0);
    assert b[0] in multiset(a);
    var m :| 0 <= m < |a| && a[m] == b[0];
    assert m == 0 || !Less(a, m, 0);
  }

  /** Dropping the same first element from two permutations leaves
      permutations. */
  lemma SameTail(a: Int32Slice, b: Int32Slice)
    requires |a| > 0 && |b| > 0 && a[0] == b[0]
    requires multiset(a) == multiset(b)
    ensures multiset(a[1..]) == multiset(b[1..])
  {
    assert a == [a[0]] + a[1..] && b == [b[0]] + b[1..];
    assert multiset(a) == multiset{a[0]} + multiset(a[1..]);
    assert multiset(b) == multiset{b[0]} + multiset(b[1..]);
    assert multiset(a[1..]) == multiset(a) - multiset{a[0]};
    assert multiset(b[1..]) == multiset(b) - multiset{b[0]};
  }
}
