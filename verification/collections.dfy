/**
 * Generic list operations that several components build with `filter`,
 * `find`, `includes` and spread: removing every occurrence of a value,
 * toggling membership, and finding the first element with a property.
 */
module Collections {
  import opened Wrappers

  /** `xs.filter(y => y !== x)`. */
  function RemoveAll<T(==,!new)>(xs: seq<T>, x: T): (r: seq<T>)
    ensures x !in r
    ensures forall y :: y != x ==> (y in r <==> y in xs)
    ensures |r| <= |xs|
  {
    if xs == [] then []
    else if xs[0] == x then RemoveAll(xs[1..], x)
    else [xs[0]] + RemoveAll(xs[1..], x)
  }

  lemma {:induction false} RemoveAbsent<T(!new)>(xs: seq<T>, x: T)
    requires x !in xs
    ensures RemoveAll(xs, x) == xs
  {
    if xs != [] {
      RemoveAbsent(xs[1..], x);
      assert [xs[0]] + xs[1..] == xs;
    }
  }

  /**
   * `xs.includes(x) ? xs.filter(y => y !== x) : [...xs, x]`: add `x` at the
   * end when it is absent, otherwise drop every occurrence.
   */
  function ToggleMember<T(==,!new)>(xs: seq<T>, x: T): (r: seq<T>)
    ensures x in r <==> x !in xs
    ensures forall y :: y != x ==> (y in r <==> y in xs)
    ensures x !in xs ==> r == xs + [x]
  {
    if x in xs then RemoveAll(xs, x) else xs + [x]
  }

  /** Toggling a value in and out again restores the list. */
  lemma ToggleTwiceFromAbsent<T(!new)>(xs: seq<T>, x: T)
    requires x !in xs
    ensures ToggleMember(ToggleMember(xs, x), x) == xs
  {
    assert ToggleMember(xs, x) == xs + [x];
    RemoveAbsent(xs, x);
    RemoveAllAppend(xs, [x], x);
    assert RemoveAll([x], x) == [];
    assert xs + [] == xs;
  }

  lemma {:induction false} RemoveAllAppend<T(!new)>(a: seq<T>, b: seq<T>, x: T)
    ensures RemoveAll(a + b, x) == RemoveAll(a, x) + RemoveAll(b, x)
  {
    if a == [] {
      assert a + b == b;
    } else {
      assert (a + b)[1..] == a[1..] + b;
      RemoveAllAppend(a[1..], b, x);
    }
  }

  predicate NoDuplicates<T(==)>(xs: seq<T>) {
    forall i, j :: 0 <= i < j < |xs| ==> xs[i] != xs[j]
  }

  lemma {:induction false} RemoveAllSubsequence<T(!new)>(xs: seq<T>, x: T)
    requires NoDuplicates(xs)
    ensures NoDuplicates(RemoveAll(xs, x))
  {
    if xs != [] {
      RemoveAllSubsequence(xs[1..], x);
      var rest := RemoveAll(xs[1..], x);
      if xs[0] != x {
        assert xs[0] !in xs[1..];
        assert xs[0] !in rest;
        var r := [xs[0]] + rest;
        forall i, j | 0 <= i < j < |r| ensures r[i] != r[j] {
          if i == 0 {
            assert r[j] == rest[j - 1];
            assert r[j] in rest;
          } else {
            assert r[i] == rest[i - 1] && r[j] == rest[j - 1];
          }
        }
      }
    }
  }

  /** Toggling keeps a duplicate-free list duplicate-free. */
  lemma ToggleKeepsNoDuplicates<T(!new)>(xs: seq<T>, x: T)
    requires NoDuplicates(xs)
    ensures NoDuplicates(ToggleMember(xs, x))
  {
    if x in xs {
      RemoveAllSubsequence(xs, x);
    } else {
      var r := xs + [x];
      forall i, j | 0 <= i < j < |r| ensures r[i] != r[j] {
        if j == |xs| {
          assert r[i] == xs[i];
        }
      }
    }
  }

  /** Index of the first element satisfying `p`, or `|xs|` when there is none. */
  function FirstIndex<T>(xs: seq<T>, p: T -> bool): (k: nat)
    ensures k <= |xs|
    ensures k < |xs| ==> p(xs[k])
    ensures forall j :: 0 <= j < k ==> !p(xs[j])
  {
    if xs == [] then 0
    else if p(xs[0]) then 0
    else 1 + FirstIndex(xs[1..], p)
  }

  /** `xs.find(p)`: the first element satisfying `p`, if any. */
  function Find<T>(xs: seq<T>, p: T -> bool): (r: Option<T>)
    ensures r.None? <==> forall j :: 0 <= j < |xs| ==> !p(xs[j])
    ensures r.Some? ==> r.value in xs && p(r.value)
    ensures r.Some? ==> exists k :: 0 <= k < |xs| && xs[k] == r.value && forall j :: 0 <= j < k ==> !p(xs[j])
  {
    var k := FirstIndex(xs, p);
    if k < |xs| then Some(xs[k]) else None
  }

  /** `xs.filter(p).map(f)`. */
  function FilterMap<T, U>(xs: seq<T>, p: T -> bool, f: T -> U): (r: seq<U>)
    ensures |r| <= |xs|
    ensures r == [] <==> forall i :: 0 <= i < |xs| ==> !p(xs[i])
  {
    if xs == [] then []
    else
      var rest := FilterMap(xs[1..], p, f);
      assert forall i :: 1 <= i < |xs| ==> xs[i] == xs[1..][i - 1];
      (if p(xs[0]) then [f(xs[0])] else []) + rest
  }

  lemma {:induction false} FilterMapAppend<T, U>(a: seq<T>, b: seq<T>, p: T -> bool, f: T -> U)
    ensures FilterMap(a + b, p, f) == FilterMap(a, p, f) + FilterMap(b, p, f)
  {
    if a != [] {
      assert (a + b)[0] == a[0] && (a + b)[1..] == a[1..] + b;
      FilterMapAppend(a[1..], b, p, f);
      var head := if p(a[0]) then [f(a[0])] else [];
      assert FilterMap(a, p, f) == head + FilterMap(a[1..], p, f);
      assert FilterMap(a + b, p, f) == head + (FilterMap(a[1..], p, f) + FilterMap(b, p, f));
    } else {
      assert a + b == b;
    }
  }

  lemma FilterMapCons<T, U>(x: T, xs: seq<T>, p: T -> bool, f: T -> U)
    ensures FilterMap([x] + xs, p, f) == (if p(x) then [f(x)] else []) + FilterMap(xs, p, f)
  {
    assert ([x] + xs)[1..] == xs;
  }

  /** The filter visits each element once, in order: a kept element contributes its image at its place. */
  lemma FilterMapAt<T, U>(xs: seq<T>, i: nat, p: T -> bool, f: T -> U)
    requires i < |xs|
    ensures FilterMap(xs, p, f) ==
      FilterMap(xs[..i], p, f) + (if p(xs[i]) then [f(xs[i])] else []) + FilterMap(xs[i + 1..], p, f)
  {
    var a, b := xs[..i], xs[i + 1..];
    assert xs == a + ([xs[i]] + b);
    FilterMapAppend(a, [xs[i]] + b, p, f);
    FilterMapCons(xs[i], b, p, f);
  }

  /** The output holds exactly the images of the elements that pass `p`. */
  lemma {:induction false} FilterMapMembers<T, U>(xs: seq<T>, p: T -> bool, f: T -> U, y: U)
    ensures y in FilterMap(xs, p, f) <==> exists i :: 0 <= i < |xs| && p(xs[i]) && f(xs[i]) == y
  {
    if xs != [] {
      var rest := xs[1..];
      FilterMapMembers(rest, p, f, y);
      assert xs == [xs[0]] + rest;
      FilterMapCons(xs[0], rest, p, f);
      if exists i :: 0 <= i < |rest| && p(rest[i]) && f(rest[i]) == y {
        var i :| 0 <= i < |rest| && p(rest[i]) && f(rest[i]) == y;
        assert xs[i + 1] == rest[i];
      }
      if exists i :: 0 <= i < |xs| && p(xs[i]) && f(xs[i]) == y {
        var i :| 0 <= i < |xs| && p(xs[i]) && f(xs[i]) == y;
        if i > 0 {
          assert rest[i - 1] == xs[i];
        }
      }
    }
  }
}
