/** Value types and sequence operations shared by the select widget and the
    performer page: JavaScript's nullable values, toast notifications, and
    the `Array.prototype` operations (`filter`, `map`, `findIndex`)
    the components are written with. */
module Common {

  /** A JavaScript value that may be `null` or `undefined`. */
  datatype Option<+T> = None | Some(value: T)

  /** A user-visible notification raised through the toast hook. */
  datatype Toast = ToastSuccess(message: string) | ToastError(error: string)

  /** `a` keeps some of the elements of `b`, in their original order. */
  ghost predicate IsSubsequence<T>(a: seq<T>, b: seq<T>)
    decreases |b|
  {
    if a == [] then true
    else if b == [] then false
    else (a[0] == b[0] && IsSubsequence(a[1..], b[1..])) || IsSubsequence(a, b[1..])
  }

  /** `s.filter(p)`: the elements that pass, in order, with every copy of a
      passing element kept and no failing element kept. */
  function Filter<T>(s: seq<T>, p: T -> bool): (r: seq<T>)
    ensures forall i :: 0 <= i < |r| ==> r[i] in s && p(r[i])
    ensures forall i :: 0 <= i < |s| && p(s[i]) ==> s[i] in r
    ensures forall i :: 0 <= i < |s| && p(s[i]) ==> multiset(r)[s[i]] == multiset(s)[s[i]]
    ensures IsSubsequence(r, s)
    ensures |r| <= |s|
  {
    if s == [] then []
    else
      var rest := Filter(s[1..], p);
      assert s == [s[0]] + s[1..];
      if p(s[0]) then
        assert ([s[0]] + rest)[1..] == rest;
        [s[0]] + rest
      else
        rest
  }

  /** `s.map(f)`. */
  function Map<T, U>(s: seq<T>, f: T -> U): (r: seq<U>)
    ensures |r| == |s|
    ensures forall i :: 0 <= i < |s| ==> r[i] == f(s[i])
  {
    if s == [] then [] else [f(s[0])] + Map(s[1..], f)
  }

  /** `s.findIndex(p)`: the first index whose element passes, or -1. */
  function FindIndex<T>(s: seq<T>, p: T -> bool): (k: int)
    ensures -1 <= k < |s|
    ensures k == -1 <==> forall i :: 0 <= i < |s| ==> !p(s[i])
    ensures 0 <= k ==> p(s[k]) && forall i :: 0 <= i < k ==> !p(s[i])
  {
    if s == [] then -1
    else if p(s[0]) then 0
    else
      var k := FindIndex(s[1..], p);
      if k == -1 then -1 else k + 1
  }

  function Min(a: int, b: int): int { if a <= b then a else b }

  function Max(a: int, b: int): int { if a <= b then b else a }

  /** A filter that every element passes returns its input unchanged. */
  lemma {:induction false} FilterKeepsAll<T>(s: seq<T>, p: T -> bool)
    requires forall i :: 0 <= i < |s| ==> p(s[i])
    ensures Filter(s, p) == s
  {
    if s != [] {
      FilterKeepsAll(s[1..], p);
    }
  }

  /** Two tests that agree on every element of `s` filter it the same way. */
  lemma {:induction false} FilterAgrees<T>(s: seq<T>, p: T -> bool, q: T -> bool)
    requires forall i :: 0 <= i < |s| ==> p(s[i]) == q(s[i])
    ensures Filter(s, p) == Filter(s, q)
  {
    if s != [] {
      FilterAgrees(s[1..], p, q);
    }
  }

  /** Filtering and then mapping equals mapping and then filtering with the
      test transported along `f`. */
  lemma {:induction false} MapFilterCommute<T, U>(s: seq<T>, f: T -> U, p: T -> bool, q: U -> bool)
    requires forall i :: 0 <= i < |s| ==> p(s[i]) == q(f(s[i]))
    ensures Map(Filter(s, p), f) == Filter(Map(s, f), q)
  {
    if s != [] {
      MapFilterCommute(s[1..], f, p, q);
      assert Map(s, f) == [f(s[0])] + Map(s[1..], f);
      assert Map(s, f)[1..] == Map(s[1..], f);
    }
  }

  /** A prefix keeps its elements in order. */
  lemma {:induction false} PrefixIsSubsequence<T>(s: seq<T>, n: nat)
    requires n <= |s|
    ensures IsSubsequence(s[..n], s)
    decreases n
  {
    if n > 0 {
      PrefixIsSubsequence(s[1..], n - 1);
      assert s[..n][1..] == s[1..][..n - 1];
    }
  }

  /** A prefix followed by one later element keeps them in order. */
  lemma {:induction false} PrefixThenLaterIsSubsequence<T>(s: seq<T>, n: nat, k: nat)
    requires n <= k < |s|
    ensures IsSubsequence(s[..n] + [s[k]], s)
    decreases n, k
  {
    if n > 0 {
      PrefixThenLaterIsSubsequence(s[1..], n - 1, k - 1);
      assert (s[..n] + [s[k]])[1..] == s[1..][..n - 1] + [s[1..][k - 1]];
    } else if k > 0 {
      PrefixThenLaterIsSubsequence(s[1..], 0, k - 1);
      assert s[..0] + [s[k]] == s[1..][..0] + [s[1..][k - 1]];
    } else {
      assert ([s[0]])[1..] == [];
    }
  }

  /** A filter's first element is the first element of its input that passes. */
  lemma {:induction false} FilterHead<T>(s: seq<T>, p: T -> bool)
    ensures Filter(s, p) != [] <==> exists i :: 0 <= i < |s| && p(s[i])
    ensures Filter(s, p) != [] ==>
      exists k :: 0 <= k < |s| && Filter(s, p)[0] == s[k] && p(s[k]) && forall i :: 0 <= i < k ==> !p(s[i])
  {
    if s != [] && !p(s[0]) {
      FilterHead(s[1..], p);
      if Filter(s, p) != [] {
        var k :| 0 <= k < |s[1..]| && Filter(s[1..], p)[0] == s[1..][k] && p(s[1..][k])
          && forall i :: 0 <= i < k ==> !p(s[1..][i]);
        assert forall i :: 0 <= i < k + 1 ==> !p(s[i]) by {
          forall i | 0 <= i < k + 1 ensures !p(s[i]) {
            if i > 0 { assert s[i] == s[1..][i - 1]; }
          }
        }
      }
      assert (exists i :: 0 <= i < |s| && p(s[i])) ==> exists i :: 0 <= i < |s[1..]| && p(s[1..][i]) by {
        if exists i :: 0 <= i < |s| && p(s[i]) {
          var i :| 0 <= i < |s| && p(s[i]);
          assert p(s[1..][i - 1]);
        }
      }
    }
  }
}
