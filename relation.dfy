/** What the scopes of app/models/item.rb are built from: ActiveRecord's
    `where` over a table, modelled as a filter over the table's rows in
    their stored order. */
module Relation {

  /** The rows of `s` that satisfy `p`, in the order of `s`. */
  function Where<T>(s: seq<T>, p: T -> bool): (r: seq<T>)
    ensures |r| <= |s|
  {
    if s == [] then []
    else Where(s[..|s| - 1], p) + (if p(s[|s| - 1]) then [s[|s| - 1]] else [])
  }

  /** `idx` picks out `a` inside `b`: strictly increasing positions of `b`
      holding the elements of `a` in turn. */
  ghost predicate Embeds<T>(a: seq<T>, b: seq<T>, idx: seq<int>) {
    && |idx| == |a|
    && (forall k :: 0 <= k < |idx| ==> 0 <= idx[k] < |b| && a[k] == b[idx[k]])
    && (forall k, l :: 0 <= k < l < |idx| ==> idx[k] < idx[l])
  }

  /** `a` is `b` with some elements left out and the rest in their order. */
  ghost predicate IsSubsequence<T>(a: seq<T>, b: seq<T>) {
    exists idx :: Embeds(a, b, idx)
  }

  /** A row is in the result exactly when it is in the table and passes. */
  lemma {:induction false} WhereMembers<T>(s: seq<T>, p: T -> bool, x: T)
    ensures x in Where(s, p) <==> x in s && p(x)
  {
    if s != [] {
      var init, last := s[..|s| - 1], s[|s| - 1];
      assert s == init + [last];
      WhereMembers(init, p, x);
    }
  }

  /** `WhereMembers` for every row at once. */
  lemma WhereAllMembers<T>(s: seq<T>, p: T -> bool)
    ensures forall x :: x in Where(s, p) <==> x in s && p(x)
  {
    forall x ensures x in Where(s, p) <==> x in s && p(x) {
      WhereMembers(s, p, x);
    }
  }

  /** Filtering a concatenation filters each part. */
  lemma {:induction false} WhereAppend<T>(a: seq<T>, b: seq<T>, p: T -> bool)
    ensures Where(a + b, p) == Where(a, p) + Where(b, p)
  {
    if b == [] {
      assert a + b == a;
    } else {
      var init, last := b[..|b| - 1], b[|b| - 1];
      assert (a + b)[..|a + b| - 1] == a + init;
      WhereAppend(a, init, p);
    }
  }

  /** The result keeps the table's order: it is a subsequence. */
  lemma {:induction false} WhereIsSubsequence<T>(s: seq<T>, p: T -> bool)
    ensures IsSubsequence(Where(s, p), s)
  {
    var idx := WhereIndices(s, p);
  }

  /** The positions in `s` of the rows `Where` keeps. */
  lemma {:induction false} WhereIndices<T>(s: seq<T>, p: T -> bool) returns (idx: seq<int>)
    ensures Embeds(Where(s, p), s, idx)
    ensures forall k :: 0 <= k < |idx| ==> idx[k] < |s|
  {
    if s == [] {
      idx := [];
    } else {
      var init, last := s[..|s| - 1], s[|s| - 1];
      idx := WhereIndices(init, p);
      if p(last) {
        idx := idx + [|s| - 1];
      }
    }
  }

  /** Chaining `where`s is one `where` on the conjunction `both`. */
  lemma {:induction false} WhereWhere<T>(s: seq<T>, p: T -> bool, q: T -> bool, both: T -> bool)
    requires forall x :: both(x) == (p(x) && q(x))
    ensures Where(Where(s, p), q) == Where(s, both)
  {
    if s != [] {
      var init, last := s[..|s| - 1], s[|s| - 1];
      WhereWhere(init, p, q, both);
      var single := if p(last) then [last] else [];
      WhereAppend(Where(init, p), single, q);
      assert Where(single, q) == if both(last) then [last] else [] by {
        if p(last) {
          assert single[..0] == [];
        }
      }
    }
  }

  /** A weaker filter keeps everything a stronger one keeps, in order. */
  lemma WhereWeaker<T>(s: seq<T>, p: T -> bool, q: T -> bool)
    requires forall x :: p(x) ==> q(x)
    ensures IsSubsequence(Where(s, p), Where(s, q))
  {
    WhereWhere(s, q, p, p);
    WhereIsSubsequence(Where(s, q), p);
  }
}
