/** Order-preserving filtering of sequences: the shape of every query and
    list comprehension with a condition in the application. */
module Seqs {

  /** The elements of `s` that satisfy `keep`, in their original order. */
  function Filter<T(!new)>(s: seq<T>, keep: T -> bool): (r: seq<T>)
    ensures |r| <= |s|
    ensures forall x :: x in r <==> x in s && keep(x)
  {
    if s == [] then [] else (if keep(s[0]) then [s[0]] else []) + Filter(s[1..], keep)
  }

  /** Filtering a sequence extended by one element extends the result by at most that element. */
  lemma {:induction false} FilterAppend<T(!new)>(s: seq<T>, x: T, keep: T -> bool)
    ensures Filter(s + [x], keep) == Filter(s, keep) + (if keep(x) then [x] else [])
  {
    if s == [] {
      assert s + [x] == [x];
    } else {
      assert (s + [x])[1..] == s[1..] + [x];
      FilterAppend(s[1..], x, keep);
    }
  }

  /** What is kept from a prefix is a prefix of what is kept from the whole:
      filtering never reorders. */
  lemma {:induction false} FilterPrefix<T(!new)>(s: seq<T>, k: nat, keep: T -> bool)
    requires k <= |s|
    ensures Filter(s[..k], keep) <= Filter(s, keep)
  {
    if k < |s| {
      FilterPrefix(s[..|s| - 1], k, keep);
      assert s[..|s| - 1][..k] == s[..k];
      assert s == s[..|s| - 1] + [s[|s| - 1]];
      FilterAppend(s[..|s| - 1], s[|s| - 1], keep);
    } else {
      assert s[..k] == s;
    }
  }

  /** Two conditions that are exclusive on the elements of `s` and whose
      disjunction there is `either` split what `either` keeps: together they
      keep every element exactly as often. */
  lemma {:induction false} FilterSplit<T(!new)>(s: seq<T>, p: T -> bool, q: T -> bool, either: T -> bool)
    requires forall x :: x in s ==> (either(x) <==> p(x) || q(x))
    requires forall x :: x in s ==> !(p(x) && q(x))
    ensures multiset(Filter(s, p)) + multiset(Filter(s, q)) == multiset(Filter(s, either))
    ensures |Filter(s, p)| + |Filter(s, q)| == |Filter(s, either)|
  {
    if s != [] {
      FilterSplit(s[1..], p, q, either);
    }
    assert |multiset(Filter(s, p)) + multiset(Filter(s, q))| == |Filter(s, p)| + |Filter(s, q)|;
  }
}
