/** Sequence vocabulary shared by the models. Sequences grow at the end everywhere in the
    program, so the functions here recurse on the last element. */
module Basics {

  datatype Option<+T> = None | Some(value: T)

  function Last<T>(s: seq<T>): T
    requires s != []
  {
    s[|s| - 1]
  }

  function Front<T>(s: seq<T>): seq<T>
    requires s != []
  {
    s[..|s| - 1]
  }

  function Flatten<T>(ss: seq<seq<T>>): seq<T> {
    if ss == [] then [] else Flatten(Front(ss)) + Last(ss)
  }

  function Filter<T>(keep: T -> bool, s: seq<T>): seq<T> {
    if s == [] then []
    else Filter(keep, Front(s)) + if keep(Last(s)) then [Last(s)] else []
  }

  function Sum(s: seq<nat>): nat {
    if s == [] then 0 else Sum(Front(s)) + Last(s)
  }

  lemma {:induction false} FlattenConcat<T>(a: seq<seq<T>>, b: seq<seq<T>>)
    ensures Flatten(a + b) == Flatten(a) + Flatten(b)
  {
    if b == [] {
      assert a + b == a;
    } else {
      FlattenConcat(a, Front(b));
      assert Front(a + b) == a + Front(b);
    }
  }

  lemma {:induction false} FilterConcat<T>(keep: T -> bool, a: seq<T>, b: seq<T>)
    ensures Filter(keep, a + b) == Filter(keep, a) + Filter(keep, b)
  {
    if b == [] {
      assert a + b == a;
    } else {
      FilterConcat(keep, a, Front(b));
      assert Front(a + b) == a + Front(b);
    }
  }

  /** Filtering keeps exactly the elements that satisfy the condition, as often as they occur. */
  lemma {:induction false} FilterCounts<T>(keep: T -> bool, s: seq<T>, x: T)
    ensures multiset(Filter(keep, s))[x] == if keep(x) then multiset(s)[x] else 0
  {
    if s == [] {
    } else {
      FilterCounts(keep, Front(s), x);
      assert s == Front(s) + [Last(s)];
    }
  }

  lemma FilterNext<T>(keep: T -> bool, s: seq<T>, i: nat)
    requires i < |s|
    ensures Filter(keep, s[..i + 1]) == Filter(keep, s[..i]) + if keep(s[i]) then [s[i]] else []
  {
    assert Front(s[..i + 1]) == s[..i] && Last(s[..i + 1]) == s[i];
  }

  lemma FilterSplit<T>(keep: T -> bool, s: seq<T>, i: nat)
    requires i <= |s|
    ensures Filter(keep, s) == Filter(keep, s[..i]) + Filter(keep, s[i..])
  {
    HalvesMake(s, i);
    FilterConcat(keep, s[..i], s[i..]);
  }

  lemma HalvesMake<T>(s: seq<T>, i: nat)
    requires i <= |s|
    ensures s[..i] + s[i..] == s
  {
  }

  lemma ConcatAssociates<T>(a: seq<T>, b: seq<T>, c: seq<T>)
    ensures (a + b) + c == a + (b + c)
  {
  }

  lemma SliceOfConcat<T>(prefix: seq<T>, s: seq<T>, a: nat, b: nat)
    requires a <= b <= |s|
    ensures (prefix + s)[|prefix| + a..|prefix| + b] == s[a..b]
  {
  }

  lemma {:induction false} SumUpdate(s: seq<nat>, i: nat, x: nat)
    requires i < |s|
    ensures Sum(s[i := x]) + s[i] == Sum(s) + x
  {
    if i < |s| - 1 {
      SumUpdate(Front(s), i, x);
      assert Front(s[i := x]) == Front(s)[i := x];
    } else {
      assert Front(s[i := x]) == Front(s);
    }
  }

  /** The first position at or after `from` that holds `c`, or |s| (std::find). */
  function Find(s: string, c: char, from: nat): (i: nat)
    requires from <= |s|
    ensures from <= i <= |s|
    ensures forall k :: from <= k < i ==> s[k] != c
    ensures i < |s| ==> s[i] == c
    decreases |s| - from
  {
    if from == |s| || s[from] == c then from else Find(s, c, from + 1)
  }

  /** `a` can be obtained from `b` by deleting elements, keeping the order. */
  ghost predicate IsSubsequence<T>(a: seq<T>, b: seq<T>)
    decreases |b|
  {
    a == []
    || (b != [] && (IsSubsequence(a, Front(b))
                    || (Last(a) == Last(b) && IsSubsequence(Front(a), Front(b)))))
  }

  lemma {:induction false} SubsequenceConcat<T>(a: seq<T>, b: seq<T>, c: seq<T>, d: seq<T>)
    requires IsSubsequence(a, b) && IsSubsequence(c, d)
    ensures IsSubsequence(a + c, b + d)
    decreases |d|
  {
    if d == [] {
      assert a + c == a && b + d == b;
    } else {
      assert Front(b + d) == b + Front(d);
      if c == [] {
        SubsequenceConcat(a, b, c, Front(d));
      } else if IsSubsequence(c, Front(d)) {
        SubsequenceConcat(a, b, c, Front(d));
      } else {
        SubsequenceConcat(a, b, Front(c), Front(d));
        assert Front(a + c) == a + Front(c);
      }
    }
  }

  lemma {:induction false} SubsequenceReflexive<T>(a: seq<T>)
    ensures IsSubsequence(a, a)
  {
    if a == [] {
    } else {
      SubsequenceReflexive(Front(a));
    }
  }

  /** And it keeps their order. */
  lemma {:induction false} FilterIsSubsequence<T>(keep: T -> bool, s: seq<T>)
    ensures IsSubsequence(Filter(keep, s), s)
  {
    if s == [] {
    } else {
      var last := if keep(Last(s)) then [Last(s)] else [];
      FilterIsSubsequence(keep, Front(s));
      SubsequenceConcat(Filter(keep, Front(s)), Front(s), last, [Last(s)]);
      assert s == Front(s) + [Last(s)];
    }
  }
}
