/** Lists without an element, and where one is. */
module Lists {
  function Without<T(==)>(list: seq<T>, x: T): seq<T> {
    if list == [] then []
    else (if list[0] == x then [] else [list[0]]) + Without(list[1..], x)
  }

  predicate Distinct<T(==)>(list: seq<T>) {
    forall i, j | 0 <= i < j < |list| :: list[i] != list[j]
  }

  lemma Regrouped<T>(a: seq<T>, b: seq<T>, c: seq<T>)
    ensures (a + b) + c == a + (b + c)
  {
  }

  lemma {:induction false} WithoutIs<T>(list: seq<T>, x: T)
    ensures forall y :: y in Without(list, x) <==> y in list && y != x
    ensures Distinct(list) ==> Distinct(Without(list, x))
  {
    if list != [] {
      WithoutIs(list[1..], x);
      assert list == [list[0]] + list[1..];
      var rest := Without(list[1..], x);
      if Distinct(list) {
        assert forall j | 0 <= j < |rest| :: rest[j] in rest;
        assert forall j | 0 <= j < |list[1..]| :: list[1..][j] == list[j + 1];
        assert Distinct(list[1..]);
        assert list[0] !in list[1..];
      }
    }
  }

  lemma {:induction false} WithoutAppend<T>(a: seq<T>, b: seq<T>, x: T)
    ensures Without(a + b, x) == Without(a, x) + Without(b, x)
  {
    if a == [] {
      assert a + b == b;
      assert [] + Without(b, x) == Without(b, x);
    } else {
      var first := if a[0] == x then [] else [a[0]];
      WithoutAppend(a[1..], b, x);
      assert (a + b)[1..] == a[1..] + b;
      Regrouped(first, Without(a[1..], x), Without(b, x));
    }
  }

  lemma {:induction false} WithoutLength<T>(list: seq<T>, x: T)
    requires Distinct(list)
    ensures |Without(list, x)| == |list| - if x in list then 1 else 0
    ensures x !in list ==> Without(list, x) == list
  {
    if list != [] {
      assert list == [list[0]] + list[1..];
      assert forall j | 0 <= j < |list[1..]| :: list[1..][j] == list[j + 1];
      WithoutLength(list[1..], x);
      assert list[0] !in list[1..];
    }
  }

  lemma WithoutOn<T>(list: seq<T>, i: nat, x: T, kept: seq<T>)
    requires i < |list|
    ensures kept + Without(list[i..], x) == (if list[i] == x then kept else kept + [list[i]]) + Without(list[i + 1..], x)
  {
    assert list[i..][1..] == list[i + 1..];
  }

  lemma DistinctParts<T>(list: seq<T>, n: nat)
    requires Distinct(list) && n <= |list|
    ensures Distinct(list[..n]) && Distinct(list[n..]) && list == list[..n] + list[n..]
  {
    assert forall i | 0 <= i < |list[n..]| :: list[n..][i] == list[n + i];
  }

  lemma {:induction false} WithoutNone<T>(list: seq<T>, x: T)
    requires x !in list
    ensures Without(list, x) == list
  {
    if list != [] {
      assert list[0] in list && forall y | y in list[1..] :: y in list;
      WithoutNone(list[1..], x);
    }
  }

  lemma WithoutBetween<T>(a: seq<T>, x: T, b: seq<T>)
    requires x !in a && x !in b
    ensures Without(a + [x] + b, x) == a + b
  {
    WithoutAppend(a + [x], b, x);
    WithoutAppend(a, [x], x);
    WithoutNone(a, x);
    WithoutNone(b, x);
    assert [x][1..] == [];
    assert a + [] == a;
  }

  /** A list is what comes before an element, it, and what comes after: neither of
      which has it, if the list has it once. */
  lemma Around<T>(list: seq<T>, k: nat)
    requires Distinct(list) && k < |list|
    ensures list == list[..k] + [list[k]] + list[k + 1..]
    ensures list[k] !in list[..k] && list[k] !in list[k + 1..]
  {
    assert forall i | 0 <= i < k :: list[..k][i] == list[i];
    var n, after := k + 1, list[k + 1..];
    assert forall i | 0 <= i < |after| :: after[i] == list[n + i];
  }

  lemma Halves<T>(a: seq<T>, b: seq<T>)
    ensures (a + b)[..|a|] == a && (a + b)[|a|..] == b
  {
  }
}
