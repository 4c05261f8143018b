/** Boolean-mask row selection, `df[mask]`: keep the rows the mask admits, in order. */
module Selection {

  /** `s[mask]` where `mask[i] == keep(s[i])`. */
  function Where<T(!new)>(s: seq<T>, keep: T -> bool): (r: seq<T>)
    ensures |r| <= |s|
    ensures forall x :: x in r <==> x in s && keep(x)
  {
    if s == [] then []
    else (if keep(s[0]) then [s[0]] else []) + Where(s[1..], keep)
  }

  /** `r` is `s` with some elements left out and the rest in their original order. */
  predicate IsSubsequence<T(==)>(r: seq<T>, s: seq<T>)
    decreases |s|
  {
    if r == [] then true
    else if s == [] then false
    else (r[0] == s[0] && IsSubsequence(r[1..], s[1..])) || IsSubsequence(r, s[1..])
  }

  /** Selection keeps the input order. */
  lemma {:induction false} WhereIsSubsequence<T(!new)>(s: seq<T>, keep: T -> bool)
    ensures IsSubsequence(Where(s, keep), s)
  {
    if s != [] {
      WhereIsSubsequence(s[1..], keep);
      var w := Where(s, keep);
      if keep(s[0]) {
        assert w == [s[0]] + Where(s[1..], keep);
        assert w[0] == s[0] && w[1..] == Where(s[1..], keep);
      } else {
        assert w == Where(s[1..], keep);
      }
    }
  }

  /** Selection works piecewise: selecting from a concatenation concatenates the selections. */
  lemma {:induction false} WhereAppend<T(!new)>(a: seq<T>, b: seq<T>, keep: T -> bool)
    ensures Where(a + b, keep) == Where(a, keep) + Where(b, keep)
  {
    if a != [] {
      var head := if keep(a[0]) then [a[0]] else [];
      assert (a + b)[0] == a[0] && (a + b)[1..] == a[1..] + b;
      WhereAppend(a[1..], b, keep);
      calc {
        Where(a + b, keep);
        head + Where(a[1..] + b, keep);
        head + (Where(a[1..], keep) + Where(b, keep));
        (head + Where(a[1..], keep)) + Where(b, keep);
      }
    } else {
      assert a + b == b;
    }
  }

  /** Selecting with `p` and then with `q` is selecting once with both. */
  lemma {:induction false} WhereWhere<T(!new)>(s: seq<T>, p: T -> bool, q: T -> bool)
    ensures Where(Where(s, p), q) == Where(s, x => p(x) && q(x))
  {
    if s != [] {
      WhereWhere(s[1..], p, q);
      WhereAppend(if p(s[0]) then [s[0]] else [], Where(s[1..], p), q);
    }
  }

  /** Narrowing a selection by `q` is selecting by any mask equal to "`p` and `q`". */
  lemma Narrow<T(!new)>(s: seq<T>, p: T -> bool, q: T -> bool, both: T -> bool)
    requires forall x :: both(x) == (p(x) && q(x))
    ensures Where(Where(s, p), q) == Where(s, both)
  {
    WhereWhere(s, p, q);
    WhereSameMask(s, x => p(x) && q(x), both);
  }

  /** Two selections give the same result in either order. */
  lemma WhereCommutes<T(!new)>(s: seq<T>, p: T -> bool, q: T -> bool)
    ensures Where(Where(s, p), q) == Where(Where(s, q), p)
  {
    WhereWhere(s, p, q);
    WhereWhere(s, q, p);
    WhereSameMask(s, x => p(x) && q(x), x => q(x) && p(x));
  }

  /** Selections whose masks agree on the elements of `s` agree. */
  lemma {:induction false} WhereSameMask<T(!new)>(s: seq<T>, p: T -> bool, q: T -> bool)
    requires forall x :: x in s ==> p(x) == q(x)
    ensures Where(s, p) == Where(s, q)
  {
    if s != [] {
      WhereSameMask(s[1..], p, q);
    }
  }

  /** Applying the same selection to its own result changes nothing. */
  lemma WhereIdempotent<T(!new)>(s: seq<T>, keep: T -> bool)
    ensures Where(Where(s, keep), keep) == Where(s, keep)
  {
    WhereWhere(s, keep, keep);
    WhereSameMask(s, x => keep(x) && keep(x), keep);
  }

  /** A mask that admits no element of `s` keeps nothing. */
  lemma {:induction false} WhereNone<T(!new)>(s: seq<T>, keep: T -> bool)
    requires forall x :: x in s ==> !keep(x)
    ensures Where(s, keep) == []
  {
    if s != [] {
      WhereNone(s[1..], keep);
    }
  }

  /** A mask and its negation split `s` into two parts whose sizes add up to `|s|`
      and which together hold every element of `s` exactly as often. */
  lemma {:induction false} WhereSplits<T(!new)>(s: seq<T>, keep: T -> bool, drop: T -> bool)
    requires forall x :: drop(x) == !keep(x)
    ensures |Where(s, keep)| + |Where(s, drop)| == |s|
    ensures multiset(Where(s, keep)) + multiset(Where(s, drop)) == multiset(s)
  {
    if s != [] {
      WhereSplits(s[1..], keep, drop);
      assert s == [s[0]] + s[1..];
    }
  }
}
