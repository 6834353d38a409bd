/**
 * The array operations the handlers rely on, from JavaScript and from the
 * document store: finding the first match (`findIndex`, `findOne`,
 * `comments.id(..)`), `filter`, `$pull`, `splice(i, 1)` and `$addToSet` with
 * `$each`.  Each is a function on sequences; the lemmas state what the
 * handlers rely on them for.
 */
module ArrayOps {
  import opened Common

  /** No element occurs twice. */
  predicate NoDup<T(==)>(s: seq<T>)
  {
    forall i, j :: 0 <= i < j < |s| ==> s[i] != s[j]
  }

  /** Index of the first element satisfying `p`, or None when there is none. */
  function FirstWhere<T>(s: seq<T>, p: T -> bool): (r: Option<nat>)
    ensures r.Some? ==> r.value < |s| && p(s[r.value])
    ensures r.Some? ==> forall j :: 0 <= j < r.value ==> !p(s[j])
    ensures r.None? <==> forall j :: 0 <= j < |s| ==> !p(s[j])
  {
    if |s| == 0 then None
    else if p(s[0]) then Some(0)
    else match FirstWhere(s[1..], p)
      case None => None
      case Some(k) => Some(k + 1)
  }

  /** The elements of `s` that satisfy `p`, in their original order (`Array.prototype.filter`). */
  function Keep<T>(s: seq<T>, p: T -> bool): (r: seq<T>)
    ensures |r| <= |s|
    ensures forall k :: 0 <= k < |r| ==> p(r[k])
  {
    if |s| == 0 then []
    else (if p(s[0]) then [s[0]] else []) + Keep(s[1..], p)
  }

  /** Keep distributes over concatenation: the kept elements stay in their order. */
  lemma {:induction false} KeepAppend<T>(a: seq<T>, b: seq<T>, p: T -> bool)
    ensures Keep(a + b, p) == Keep(a, p) + Keep(b, p)
  {
    if |a| == 0 {
      assert a + b == b;
    } else {
      assert (a + b)[0] == a[0];
      assert (a + b)[1..] == a[1..] + b;
      KeepAppend(a[1..], b, p);
    }
  }

  /** Keep retains every kept element as often as `s` has it, and nothing else. */
  lemma {:induction false} KeepCount<T>(s: seq<T>, p: T -> bool, y: T)
    ensures multiset(Keep(s, p))[y] == if p(y) then multiset(s)[y] else 0
  {
    if |s| > 0 {
      KeepCount(s[1..], p, y);
      assert s == [s[0]] + s[1..];
    }
  }

  /** When every element satisfies `p`, Keep changes nothing. */
  lemma {:induction false} KeepAll<T>(s: seq<T>, p: T -> bool)
    requires forall k :: 0 <= k < |s| ==> p(s[k])
    ensures Keep(s, p) == s
  {
    if |s| > 0 {
      KeepAll(s[1..], p);
    }
  }

  /** `$pull: x`: removes every occurrence of `x`. */
  function Pull<T(==)>(s: seq<T>, x: T): (r: seq<T>)
  {
    Keep(s, y => y != x)
  }

  /** After a pull, `x` is gone and every other value occurs exactly as often as before. */
  lemma PullSpec<T>(s: seq<T>, x: T)
    ensures x !in Pull(s, x)
    ensures forall y :: y != x ==> multiset(Pull(s, x))[y] == multiset(s)[y]
  {
    forall y
      ensures multiset(Pull(s, x))[y] == if y != x then multiset(s)[y] else 0
    {
      KeepCount(s, z => z != x, y);
    }
    assert multiset(Pull(s, x))[x] == 0;
  }

  /** `splice(i, 1)`: removes the element at index `i`, keeping the rest in order. */
  function RemoveAt<T>(s: seq<T>, i: nat): (r: seq<T>)
    requires i < |s|
    ensures |r| == |s| - 1
    ensures forall k :: 0 <= k < i ==> r[k] == s[k]
    ensures forall k :: i <= k < |r| ==> r[k] == s[k + 1]
  {
    s[..i] + s[i + 1..]
  }

  /**
   * `$addToSet: {$each: xs}`: takes the elements of `xs` in order and appends
   * each one that is not yet in the array.
   */
  function AddToSet<T(==)>(s: seq<T>, xs: seq<T>): (r: seq<T>)
    ensures |s| <= |r| && r[..|s|] == s
    decreases |xs|
  {
    if |xs| == 0 then s
    else AddToSet(if xs[0] in s then s else s + [xs[0]], xs[1..])
  }

  /** The result holds exactly the old elements and the added ones. */
  lemma {:induction false} AddToSetMembers<T>(s: seq<T>, xs: seq<T>, y: T)
    ensures y in AddToSet(s, xs) <==> y in s || y in xs
    decreases |xs|
  {
    if |xs| > 0 {
      var s' := if xs[0] in s then s else s + [xs[0]];
      AddToSetMembers(s', xs[1..], y);
      assert xs == [xs[0]] + xs[1..];
    }
  }

  /** A value already in the array is never added again, and a new value is added once. */
  lemma {:induction false} AddToSetCount<T>(s: seq<T>, xs: seq<T>, y: T)
    ensures y in s ==> multiset(AddToSet(s, xs))[y] == multiset(s)[y]
    ensures y !in s && y in xs ==> multiset(AddToSet(s, xs))[y] == 1
    ensures y !in s && y !in xs ==> multiset(AddToSet(s, xs))[y] == 0
    decreases |xs|
  {
    if |xs| > 0 {
      var s' := if xs[0] in s then s else s + [xs[0]];
      AddToSetCount(s', xs[1..], y);
      assert xs == [xs[0]] + xs[1..];
      assert multiset(s') == if xs[0] in s then multiset(s) else multiset(s) + multiset{xs[0]};
    }
  }

  /** `$addToSet` keeps an array free of duplicates. */
  lemma AddToSetNoDup<T>(s: seq<T>, xs: seq<T>)
    requires NoDup(s)
    ensures NoDup(AddToSet(s, xs))
  {
    var r := AddToSet(s, xs);
    forall i, j | 0 <= i < j < |r|
      ensures r[i] != r[j]
    {
      if r[i] == r[j] {
        var y := r[i];
        assert multiset(r)[y] >= 2 by {
          assert r == r[..j] + [r[j]] + r[j + 1..];
          assert y in r[..j];
          assert multiset(r) == multiset(r[..j]) + multiset{y} + multiset(r[j + 1..]);
        }
        AddToSetCount(s, xs, y);
        if y in s {
          NoDupCount(s, y);
        }
        assert false;
      }
    }
  }

  /** In a duplicate-free array every element occurs once. */
  lemma {:induction false} NoDupCount<T>(s: seq<T>, y: T)
    requires NoDup(s)
    ensures multiset(s)[y] <= 1
  {
    if |s| > 0 {
      assert s == [s[0]] + s[1..];
      NoDupCount(s[1..], y);
      if s[0] == y {
        assert y !in s[1..];
      }
    }
  }
}
