/** Small facts about lists: how often a value stands in one, taking it out, and lists without repetition. */
module Lists {

  function Count<T(==)>(xs: seq<T>, x: T): nat {
    if xs == [] then 0 else (if xs[0] == x then 1 else 0) + Count(xs[1..], x)
  }

  lemma {:induction false} CountAppend<T>(a: seq<T>, b: seq<T>, x: T)
    ensures Count(a + b, x) == Count(a, x) + Count(b, x)
  {
    if a == [] {
      assert a + b == b;
    } else {
      assert (a + b)[1..] == a[1..] + b;
      CountAppend(a[1..], b, x);
    }
  }

  lemma {:induction false} CountIn<T>(xs: seq<T>, x: T)
    ensures Count(xs, x) > 0 <==> x in xs
  {
    if xs == [] {
    } else {
      assert xs == [xs[0]] + xs[1..];
      CountIn(xs[1..], x);
    }
  }

  /** The list without the first occurrence of x. */
  function Without<T(==)>(xs: seq<T>, x: T): (r: seq<T>)
    ensures forall y :: y in r ==> y in xs
    ensures x !in xs ==> r == xs
  {
    if xs == [] then [] else
    assert xs == [xs[0]] + xs[1..];
    if xs[0] == x then xs[1..] else [xs[0]] + Without(xs[1..], x)
  }

  ghost predicate Distinct<T>(xs: seq<T>) {
    xs == [] || (xs[0] !in xs[1..] && Distinct(xs[1..]))
  }

  lemma {:induction false} WithoutMembers<T>(xs: seq<T>, x: T)
    requires Distinct(xs)
    ensures Distinct(Without(xs, x)) && forall y :: y in Without(xs, x) <==> y in xs && y != x
  {
    if xs == [] {
    } else {
      assert xs == [xs[0]] + xs[1..];
      if xs[0] != x {
        WithoutMembers(xs[1..], x);
        assert ([xs[0]] + Without(xs[1..], x))[1..] == Without(xs[1..], x);
      }
    }
  }

  lemma {:induction false} WithoutLength<T>(xs: seq<T>, x: T)
    ensures |Without(xs, x)| == |xs| - if x in xs then 1 else 0
  {
    if xs == [] {
    } else if xs[0] != x {
      assert xs == [xs[0]] + xs[1..];
      WithoutLength(xs[1..], x);
    }
  }

  lemma {:induction false} DistinctAppend<T>(xs: seq<T>, x: T)
    requires Distinct(xs) && x !in xs
    ensures Distinct(xs + [x])
  {
    if xs == [] {
      assert [x][1..] == [];
    } else {
      assert (xs + [x])[1..] == xs[1..] + [x];
      DistinctAppend(xs[1..], x);
    }
  }

  lemma {:induction false} WithoutAt<T>(xs: seq<T>, x: T, i: nat)
    requires i < |xs| && xs[i] == x && forall j | 0 <= j < i :: xs[j] != x
    ensures Without(xs, x) == xs[..i] + xs[i + 1..]
    decreases i
  {
    if i == 0 {
      assert xs[..0] + xs[1..] == xs[1..];
    } else {
      WithoutAt(xs[1..], x, i - 1);
      assert xs[..i] == [xs[0]] + xs[1..][..i - 1] && xs[i + 1..] == xs[1..][i..];
    }
  }

  /** The loop behind every `remove`: it takes the first occurrence out and stops. */
  method RemoveFirst<T(==)>(xs: seq<T>, x: T) returns (r: seq<T>, found: bool)
    ensures r == Without(xs, x) && (found <==> x in xs) && (!found ==> r == xs)
  {
    for i := 0 to |xs|
      invariant forall j | 0 <= j < i :: xs[j] != x
    {
      if xs[i] == x {
        WithoutAt(xs, x, i);
        return xs[..i] + xs[i + 1..], true;
      }
    }
    r, found := xs, false;
  }
}
