/** Option type for values that may be absent, and an order-preserving
    selection on sequences (the model of JavaScript's Array.prototype.filter). */
module Optional {
  datatype Option<+T> = None | Some(value: T)
}

module Seqs {

  /** `a` is an order-preserving subsequence of `b`: `a` is obtained from `b`
      by dropping some elements and keeping the rest in their order. */
  ghost predicate IsSubsequence<T>(a: seq<T>, b: seq<T>)
    decreases |b|
  {
    if b == [] then a == []
    else (a != [] && a[0] == b[0] && IsSubsequence(a[1..], b[1..])) || IsSubsequence(a, b[1..])
  }

  lemma {:induction false} SubsequenceOfSelf<T>(s: seq<T>)
    ensures IsSubsequence(s, s)
  {
    if s != [] {
      SubsequenceOfSelf(s[1..]);
    }
  }

  /** The elements of `s` for which `keep` holds, in their original order
      (`s.filter(keep)`). */
  function Select<T>(s: seq<T>, keep: T -> bool): (r: seq<T>)
    ensures |r| <= |s|
    ensures forall i :: 0 <= i < |r| ==> keep(r[i]) && r[i] in s
    ensures forall i :: 0 <= i < |s| && keep(s[i]) ==> s[i] in r
  {
    if s == [] then []
    else if keep(s[0]) then [s[0]] + Select(s[1..], keep)
    else Select(s[1..], keep)
  }

  lemma {:induction false} SelectIsSubsequence<T>(s: seq<T>, keep: T -> bool)
    ensures IsSubsequence(Select(s, keep), s)
  {
    if s != [] {
      SelectIsSubsequence(s[1..], keep);
      if keep(s[0]) {
        assert Select(s, keep)[1..] == Select(s[1..], keep);
      }
    }
  }

  /** Every kept element occurs as often as in `s`; every dropped one not at all. */
  lemma {:induction false} SelectCount<T>(s: seq<T>, keep: T -> bool, x: T)
    ensures multiset(Select(s, keep))[x] == if keep(x) then multiset(s)[x] else 0
  {
    if s != [] {
      SelectCount(s[1..], keep, x);
      assert s == [s[0]] + s[1..];
      assert multiset(s) == multiset([s[0]]) + multiset(s[1..]);
    }
  }

  /** Selecting keeps the whole sequence exactly when every element is kept. */
  lemma {:induction false} SelectAllKept<T>(s: seq<T>, keep: T -> bool)
    ensures Select(s, keep) == s <==> forall i :: 0 <= i < |s| ==> keep(s[i])
  {
    if s != [] {
      SelectAllKept(s[1..], keep);
      if !keep(s[0]) {
        assert |Select(s, keep)| < |s|;
      } else {
        assert forall i :: 1 <= i < |s| ==> s[1..][i - 1] == s[i];
      }
    }
  }

  /** Selecting twice with the same test is selecting once. */
  lemma {:induction false} SelectIdempotent<T>(s: seq<T>, keep: T -> bool)
    ensures Select(Select(s, keep), keep) == Select(s, keep)
  {
    var r := Select(s, keep);
    SelectAllKept(r, keep);
  }
}
