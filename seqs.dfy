/** Sequence helpers with the meaning of `Array.prototype.filter` and of flattening batches. */
module Seqs {
  import opened Wrappers

  /** `s.filter(keep)`: the elements satisfying `keep`, in their original order. */
  function Filter<T(!new)>(keep: T -> bool, s: seq<T>): (r: seq<T>)
    ensures |r| <= |s|
    ensures forall x :: x in r <==> x in s && keep(x)
  {
    if s == [] then [] else (if keep(s[0]) then [s[0]] else []) + Filter(keep, s[1..])
  }

  lemma {:induction false} FilterAppend<T(!new)>(keep: T -> bool, a: seq<T>, b: seq<T>)
    ensures Filter(keep, a + b) == Filter(keep, a) + Filter(keep, b)
  {
    if a == [] {
      assert a + b == b;
    } else {
      assert (a + b)[1..] == a[1..] + b;
      FilterAppend(keep, a[1..], b);
    }
  }

  lemma {:induction false} FilterAll<T(!new)>(keep: T -> bool, s: seq<T>)
    requires forall i :: 0 <= i < |s| ==> keep(s[i])
    ensures Filter(keep, s) == s
  {
    if s != [] {
      FilterAll(keep, s[1..]);
      assert s == [s[0]] + s[1..];
    }
  }

  /** Nothing is kept exactly when `keep` rejects every element. */
  lemma {:induction false} FilterEmpty<T(!new)>(keep: T -> bool, s: seq<T>)
    ensures Filter(keep, s) == [] <==> forall i :: 0 <= i < |s| ==> !keep(s[i])
  {
    if s != [] {
      FilterEmpty(keep, s[1..]);
      forall i | 1 <= i < |s| ensures s[i] == s[1..][i - 1] {
      }
    }
  }

  /** Dropping a prefix that `keep` rejects throughout changes no result. */
  lemma {:induction false} FilterDropRejected<T(!new)>(keep: T -> bool, s: seq<T>, k: nat)
    requires k <= |s|
    requires forall i :: 0 <= i < k ==> !keep(s[i])
    ensures Filter(keep, s) == Filter(keep, s[k..])
  {
    if k > 0 {
      assert s[1..][k - 1..] == s[k..];
      FilterDropRejected(keep, s[1..], k - 1);
    }
  }

  /** The prefix of full length is the whole sequence. */
  lemma FullPrefix<T>(s: seq<T>)
    ensures s[..|s|] == s
  {
  }

  /** The concatenation of the pieces, in order. */
  function Flatten<T>(ss: seq<seq<T>>): seq<T> {
    if ss == [] then [] else ss[0] + Flatten(ss[1..])
  }

  lemma {:induction false} FlattenAppend<T>(ss: seq<seq<T>>, t: seq<T>)
    ensures Flatten(ss + [t]) == Flatten(ss) + t
  {
    if ss == [] {
      assert [] + [t] == [t];
    } else {
      assert (ss + [t])[1..] == ss[1..] + [t];
      FlattenAppend(ss[1..], t);
    }
  }

  /** Maps each element through `f` and keeps the `Some` results, in order. */
  function FilterMap<T, U>(f: T -> Option<U>, s: seq<T>): (r: seq<U>)
    ensures |r| <= |s|
  {
    if s == [] then []
    else (if f(s[0]).Some? then [f(s[0]).value] else []) + FilterMap(f, s[1..])
  }

  lemma {:induction false} FilterMapAppend<T, U>(f: T -> Option<U>, a: seq<T>, b: seq<T>)
    ensures FilterMap(f, a + b) == FilterMap(f, a) + FilterMap(f, b)
  {
    if a == [] {
      assert a + b == b;
    } else {
      var head := if f(a[0]).Some? then [f(a[0]).value] else [];
      assert (a + b)[0] == a[0] && (a + b)[1..] == a[1..] + b;
      assert FilterMap(f, a + b) == head + FilterMap(f, a[1..] + b);
      FilterMapAppend(f, a[1..], b);
      assert FilterMap(f, a) == head + FilterMap(f, a[1..]);
    }
  }

  /** Two maps that agree on every element give the same result. */
  lemma {:induction false} FilterMapAgree<T, U>(f: T -> Option<U>, g: T -> Option<U>, s: seq<T>)
    requires forall i :: 0 <= i < |s| ==> f(s[i]) == g(s[i])
    ensures FilterMap(f, s) == FilterMap(g, s)
  {
    if s != [] {
      FilterMapAgree(f, g, s[1..]);
    }
  }

  /** When `f` keeps every element, nothing is dropped. */
  lemma {:induction false} FilterMapAll<T, U>(f: T -> Option<U>, s: seq<T>)
    requires forall i :: 0 <= i < |s| ==> f(s[i]).Some?
    ensures |FilterMap(f, s)| == |s|
    ensures forall i :: 0 <= i < |s| ==> FilterMap(f, s)[i] == f(s[i]).value
  {
    if s != [] {
      FilterMapAll(f, s[1..]);
    }
  }
}
