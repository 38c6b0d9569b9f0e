/**
 * Sequence helpers shared by the components: JavaScript's `Array.prototype.filter`
 * and the subsequence relation used to say that a filter keeps the original order.
 */
module Seqs {

  /** `s` occurs in `t` with its elements in the same order, possibly with gaps. */
  predicate IsSubsequence<T(==)>(s: seq<T>, t: seq<T>)
    decreases |t|
  {
    if t == [] then s == []
    else IsSubsequence(s, t[1..]) || (s != [] && s[0] == t[0] && IsSubsequence(s[1..], t[1..]))
  }

  /** `s.filter(p)`: the elements of `s` that satisfy `p`, front to back. */
  function Filter<T>(s: seq<T>, p: T -> bool): (r: seq<T>)
    ensures |r| <= |s|
    ensures forall x :: x in r ==> x in s && p(x)
    ensures forall x :: x in s && p(x) ==> x in r
  {
    if s == [] then []
    else (if p(s[0]) then [s[0]] else []) + Filter(s[1..], p)
  }

  lemma {:induction false} FilterIsSubsequence<T>(s: seq<T>, p: T -> bool)
    ensures IsSubsequence(Filter(s, p), s)
  {
    if s != [] {
      FilterIsSubsequence(s[1..], p);
      if p(s[0]) {
        assert Filter(s, p) == [s[0]] + Filter(s[1..], p);
        assert Filter(s, p)[0] == s[0];
        assert Filter(s, p)[1..] == Filter(s[1..], p);
      } else {
        assert Filter(s, p) == Filter(s[1..], p);
      }
    }
  }

  /** A filter keeps every copy of a passing element and no copy of a failing one. */
  lemma {:induction false} FilterCounts<T>(s: seq<T>, p: T -> bool)
    ensures forall x :: multiset(Filter(s, p))[x] == if p(x) then multiset(s)[x] else 0
  {
    if s != [] {
      FilterCounts(s[1..], p);
      assert s == [s[0]] + s[1..];
      assert multiset(s) == multiset([s[0]]) + multiset(s[1..]);
      var head := if p(s[0]) then [s[0]] else [];
      assert Filter(s, p) == head + Filter(s[1..], p);
      assert multiset(Filter(s, p)) == multiset(head) + multiset(Filter(s[1..], p));
    }
  }

  /** A filter that every element passes is the identity. */
  lemma {:induction false} FilterAllPass<T>(s: seq<T>, p: T -> bool)
    requires forall i :: 0 <= i < |s| ==> p(s[i])
    ensures Filter(s, p) == s
  {
    if s != [] {
      FilterAllPass(s[1..], p);
    }
  }

  /** A filter that no element passes is empty. */
  lemma {:induction false} FilterNonePass<T>(s: seq<T>, p: T -> bool)
    requires forall i :: 0 <= i < |s| ==> !p(s[i])
    ensures Filter(s, p) == []
  {
    if s != [] {
      FilterNonePass(s[1..], p);
    }
  }

  lemma {:induction false} FilterConcat<T>(a: seq<T>, b: seq<T>, p: T -> bool)
    ensures Filter(a + b, p) == Filter(a, p) + Filter(b, p)
  {
    if a == [] {
      assert a + b == b;
    } else {
      assert (a + b)[1..] == a[1..] + b;
      FilterConcat(a[1..], b, p);
    }
  }

  /** The first element of a filter is the element at the lowest index that passes. */
  lemma {:induction false} FilterHead<T>(s: seq<T>, p: T -> bool)
    requires Filter(s, p) != []
    ensures exists i :: 0 <= i < |s| && s[i] == Filter(s, p)[0] && p(s[i]) &&
                        forall j :: 0 <= j < i ==> !p(s[j])
  {
    if p(s[0]) {
      assert s[0] == Filter(s, p)[0];
    } else {
      assert Filter(s, p) == Filter(s[1..], p);
      FilterHead(s[1..], p);
      var i :| 0 <= i < |s[1..]| && s[1..][i] == Filter(s[1..], p)[0] && p(s[1..][i]) &&
               forall j :: 0 <= j < i ==> !p(s[1..][j]);
      assert s[i + 1] == Filter(s, p)[0];
      assert forall j :: 0 <= j < i + 1 ==> !p(s[j]) by {
        forall j | 0 <= j < i + 1 ensures !p(s[j]) {
          if j > 0 { assert s[j] == s[1..][j - 1]; }
        }
      }
    }
  }

  /** The filter is empty exactly when no element passes. */
  lemma {:induction false} FilterEmptyIff<T>(s: seq<T>, p: T -> bool)
    ensures Filter(s, p) == [] <==> forall i :: 0 <= i < |s| ==> !p(s[i])
  {
    if forall i :: 0 <= i < |s| ==> !p(s[i]) {
      FilterNonePass(s, p);
    } else {
      var i :| 0 <= i < |s| && p(s[i]);
      assert s[i] in s;
    }
  }

  /** The sum of `xs`, added front to back. */
  function Sum(xs: seq<real>): real
    decreases |xs|
  {
    if xs == [] then 0.0 else Sum(xs[..|xs| - 1]) + xs[|xs| - 1]
  }

  /** `h` hours of which `o` are paid at `q` and the rest at `r`. */
  function Priced(h: real, o: real, r: real, q: real): real
  {
    (h - o) * r + o * q
  }

  /** Summing commutes with a fixed pair of rates. */
  lemma {:induction false} SumLinear(ps: seq<real>, hs: seq<real>, os: seq<real>, r: real, q: real)
    requires |ps| == |hs| == |os|
    requires forall i :: 0 <= i < |ps| ==> ps[i] == Priced(hs[i], os[i], r, q)
    ensures Sum(ps) == Priced(Sum(hs), Sum(os), r, q)
    decreases |ps|
  {
    if ps != [] {
      var n := |ps| - 1;
      SumLinear(ps[..n], hs[..n], os[..n], r, q);
      var h, o := Sum(hs[..n]), Sum(os[..n]);
      assert Priced(h + hs[n], o + os[n], r, q) == Priced(h, o, r, q) + Priced(hs[n], os[n], r, q);
    }
  }
}
