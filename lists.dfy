/**
 * Python list operations the admin code relies on: `list.remove`, which drops the first
 * occurrence only, and filtering out a set of names while keeping order.
 */
module Lists {

  predicate NoDuplicates<T(==)>(xs: seq<T>)
  {
    forall i, j :: 0 <= i < j < |xs| ==> xs[i] != xs[j]
  }

  /** `xs.remove(x)` after an `x in xs` test: the first occurrence goes, everything else stays in order. */
  function RemoveFirst<T(==)>(xs: seq<T>, x: T): (r: seq<T>)
    ensures x !in xs ==> r == xs
    ensures x in xs ==> |r| == |xs| - 1 && multiset(r) == multiset(xs) - multiset{x}
  {
    if xs == [] then []
    else
      assert xs == [xs[0]] + xs[1..];
      if xs[0] == x then xs[1..]
      else [xs[0]] + RemoveFirst(xs[1..], x)
  }

  /** The names removed one after the other, in the order given. */
  function RemoveEach<T(==)>(xs: seq<T>, names: seq<T>): seq<T>
  {
    if names == [] then xs
    else RemoveFirst(RemoveEach(xs, names[..|names| - 1]), names[|names| - 1])
  }

  /** The loop `for x in names: if x in xs: xs.remove(x)` on a copy of the list. */
  method RemoveEachLoop<T(==)>(xs: seq<T>, names: seq<T>) returns (r: seq<T>)
    ensures r == RemoveEach(xs, names)
  {
    r := xs;
    var k := 0;
    while k < |names|
      invariant 0 <= k <= |names|
      invariant r == RemoveEach(xs, names[..k])
    {
      var x := names[k];
      ghost var before := r;
      if x in r {
        r := RemoveFirst(r, x);
      }
      assert r == RemoveFirst(before, x);
      assert names[..k + 1][..k] == names[..k] && names[..k + 1][k] == x;
      assert RemoveEach(xs, names[..k + 1]) == RemoveFirst(RemoveEach(xs, names[..k]), x);
      k := k + 1;
    }
    assert names[..k] == names;
  }

  /** The elements of `xs` that are not in `names`, in their original order. */
  function Without<T(==,!new)>(xs: seq<T>, names: seq<T>): (r: seq<T>)
    ensures forall y :: y in r <==> y in xs && y !in names
    ensures |r| <= |xs|
  {
    if xs == [] then []
    else if xs[0] in names then Without(xs[1..], names)
    else [xs[0]] + Without(xs[1..], names)
  }

  lemma {:induction false} WithoutNoDuplicates<T(!new)>(xs: seq<T>, names: seq<T>)
    requires NoDuplicates(xs)
    ensures NoDuplicates(Without(xs, names))
  {
    if xs != [] {
      assert NoDuplicates(xs[1..]) by {
        forall i, j | 0 <= i < j < |xs| - 1 ensures xs[1..][i] != xs[1..][j] {
          assert xs[1..][i] == xs[i + 1] && xs[1..][j] == xs[j + 1];
        }
      }
      WithoutNoDuplicates(xs[1..], names);
      assert xs[0] !in xs[1..] by {
        forall k | 0 <= k < |xs| - 1 ensures xs[1..][k] != xs[0] {
          assert xs[1..][k] == xs[k + 1];
        }
      }
    }
  }

  /** Removing the first occurrence from a list without duplicates removes every occurrence. */
  lemma {:induction false} RemoveFirstWithout<T(!new)>(xs: seq<T>, names: seq<T>, x: T)
    requires NoDuplicates(xs)
    ensures RemoveFirst(Without(xs, names), x) == Without(xs, names + [x])
  {
    if xs != [] {
      assert NoDuplicates(xs[1..]) by {
        forall i, j | 0 <= i < j < |xs| - 1 ensures xs[1..][i] != xs[1..][j] {
          assert xs[1..][i] == xs[i + 1] && xs[1..][j] == xs[j + 1];
        }
      }
      assert xs[0] !in xs[1..] by {
        forall k | 0 <= k < |xs| - 1 ensures xs[1..][k] != xs[0] {
          assert xs[1..][k] == xs[k + 1];
        }
      }
      RemoveFirstWithout(xs[1..], names, x);
      if xs[0] !in names && xs[0] == x {
        assert x !in Without(xs[1..], names);
      }
    }
  }

  /** On a list without duplicates, removing names one by one is filtering them out. */
  lemma {:induction false} RemoveEachIsWithout<T(!new)>(xs: seq<T>, names: seq<T>)
    requires NoDuplicates(xs)
    ensures RemoveEach(xs, names) == Without(xs, names)
  {
    if names == [] {
      WithoutNothing(xs);
    } else {
      var front := names[..|names| - 1];
      RemoveEachIsWithout(xs, front);
      RemoveFirstWithout(xs, front, names[|names| - 1]);
      assert front + [names[|names| - 1]] == names;
    }
  }

  lemma {:induction false} WithoutNothing<T(!new)>(xs: seq<T>)
    ensures Without(xs, []) == xs
  {
    if xs != [] {
      WithoutNothing(xs[1..]);
      assert xs == [xs[0]] + xs[1..];
    }
  }
}
