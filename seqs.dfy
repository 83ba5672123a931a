/** Generic sequence helpers shared by the feature, window and heatmap models:
    concatenation of a list of blocks, sums, and order-preserving filtering. */
module Seqs {
  import opened Numeric

  /** `np.concatenate` / `np.hstack` of a list of 1-D blocks. */
  function Concat<T>(ss: seq<seq<T>>): (r: seq<T>)
  {
    if ss == [] then [] else Concat(ss[..|ss| - 1]) + ss[|ss| - 1]
  }

  /** Every block of `ss` has length `len`. */
  predicate Uniform<T>(ss: seq<seq<T>>, len: nat)
  {
    forall i :: 0 <= i < |ss| ==> |ss[i]| == len
  }

  lemma {:induction false} ConcatAppend<T>(a: seq<seq<T>>, b: seq<seq<T>>)
    ensures Concat(a + b) == Concat(a) + Concat(b)
    decreases |b|
  {
    if b == [] {
      assert a + b == a;
    } else {
      var b' := b[..|b| - 1];
      assert (a + b)[..|a + b| - 1] == a + b';
      ConcatAppend(a, b');
    }
  }

  /** Concatenating `n` blocks of `len` elements gives `n * len` elements. */
  lemma {:induction false} ConcatUniformLength<T>(ss: seq<seq<T>>, len: nat)
    requires Uniform(ss, len)
    ensures |Concat(ss)| == |ss| * len
  {
    if ss != [] {
      var n := |ss| - 1;
      ConcatUniformLength(ss[..n], len);
      assert |ss[n]| == len;
      Distrib(len, n, 1);
      assert |ss| * len == n * len + len;
    }
  }

  /** Element `j` of block `i` lands at position `i * len + j` of the concatenation. */
  lemma {:induction false} ConcatUniformAt<T>(ss: seq<seq<T>>, len: nat, i: nat, j: nat)
    requires Uniform(ss, len) && i < |ss| && j < len
    ensures |Concat(ss)| == |ss| * len
    ensures i * len + j < |Concat(ss)| && Concat(ss)[i * len + j] == ss[i][j]
  {
    var n := |ss| - 1;
    ConcatUniformLength(ss, len);
    ConcatUniformLength(ss[..n], len);
    if i < n {
      MulMonoInt(i + 1, n, len);
      ConcatUniformAt(ss[..n], len, i, j);
    } else {
      assert i * len == n * len;
    }
  }

  /** Sum of an integer sequence. */
  function Sum(s: seq<int>): int
  {
    if s == [] then 0 else Sum(s[..|s| - 1]) + s[|s| - 1]
  }

  lemma {:induction false} SumAppend(a: seq<int>, b: seq<int>)
    ensures Sum(a + b) == Sum(a) + Sum(b)
    decreases |b|
  {
    if b == [] {
      assert a + b == a;
    } else {
      assert (a + b)[..|a + b| - 1] == a + b[..|b| - 1];
      SumAppend(a, b[..|b| - 1]);
    }
  }

  /** Incrementing one entry of a sequence increments its sum by one. */
  lemma {:induction false} SumIncrement(s: seq<int>, k: nat)
    requires k < |s|
    ensures Sum(s[k := s[k] + 1]) == Sum(s) + 1
  {
    var t := s[k := s[k] + 1];
    assert s == s[..k] + [s[k]] + s[k + 1..];
    assert t == s[..k] + [s[k] + 1] + s[k + 1..];
    SumAppend(s[..k] + [s[k]], s[k + 1..]);
    SumAppend(s[..k], [s[k]]);
    SumAppend(s[..k] + [s[k] + 1], s[k + 1..]);
    SumAppend(s[..k], [s[k] + 1]);
  }

  /** The elements of `s` that `keep` accepts, in their original order: the
      list a Python loop builds by appending each accepted element. */
  function Filter<T>(s: seq<T>, keep: T -> bool): (r: seq<T>)
    ensures |r| <= |s|
  {
    if s == [] then []
    else Filter(s[..|s| - 1], keep) + (if keep(s[|s| - 1]) then [s[|s| - 1]] else [])
  }

  /** An element is in the filtered list exactly when it is in the input and accepted. */
  lemma {:induction false} FilterMembers<T>(s: seq<T>, keep: T -> bool, x: T)
    ensures x in Filter(s, keep) <==> x in s && keep(x)
  {
    if s != [] {
      var n := |s| - 1;
      FilterMembers(s[..n], keep, x);
      assert s == s[..n] + [s[n]];
    }
  }

  /** Filtering one more element appends it when it is accepted. */
  lemma FilterStep<T>(s: seq<T>, keep: T -> bool, i: nat)
    requires i < |s|
    ensures Filter(s[..i + 1], keep) == Filter(s[..i], keep) + (if keep(s[i]) then [s[i]] else [])
  {
    assert s[..i + 1][..i] == s[..i];
  }

  lemma FilterMembersAll<T>(s: seq<T>, keep: T -> bool)
    ensures forall x :: x in Filter(s, keep) <==> x in s && keep(x)
  {
    forall x
      ensures x in Filter(s, keep) <==> x in s && keep(x)
    {
      FilterMembers(s, keep, x);
    }
  }

  /** The positions of `s` that `keep` accepts, in increasing order. */
  function KeptIndices<T>(s: seq<T>, keep: T -> bool): (ks: seq<nat>)
    ensures forall j :: 0 <= j < |ks| ==> ks[j] < |s|
  {
    if s == [] then []
    else KeptIndices(s[..|s| - 1], keep) + (if keep(s[|s| - 1]) then [|s| - 1] else [])
  }

  predicate StrictlyIncreasing(ks: seq<nat>)
  {
    forall i, j :: 0 <= i < j < |ks| ==> ks[i] < ks[j]
  }

  /** The filtered list is exactly `s` read at the accepted positions, those
      positions increase, and a position is among them iff `keep` accepts it:
      the filter is the subsequence of accepted elements in input order. */
  lemma {:induction false} FilterIsSubsequence<T>(s: seq<T>, keep: T -> bool)
    ensures |KeptIndices(s, keep)| == |Filter(s, keep)|
    ensures StrictlyIncreasing(KeptIndices(s, keep))
    ensures forall j :: 0 <= j < |Filter(s, keep)| ==> Filter(s, keep)[j] == s[KeptIndices(s, keep)[j]]
    ensures forall i :: 0 <= i < |s| ==> (i in KeptIndices(s, keep) <==> keep(s[i]))
  {
    if s != [] {
      var n := |s| - 1;
      FilterIsSubsequence(s[..n], keep);
    }
  }

  /** Every element of a concatenation comes from one of its blocks. */
  lemma {:induction false} ConcatMember<T>(ss: seq<seq<T>>, k: nat)
    requires k < |Concat(ss)|
    ensures exists i, j :: 0 <= i < |ss| && 0 <= j < |ss[i]| && Concat(ss)[k] == ss[i][j]
  {
    var n := |ss| - 1;
    if k < |Concat(ss[..n])| {
      ConcatMember(ss[..n], k);
      var i, j :| 0 <= i < n && 0 <= j < |ss[..n][i]| && Concat(ss[..n])[k] == ss[..n][i][j];
      assert Concat(ss)[k] == ss[i][j];
    } else {
      var j := k - |Concat(ss[..n])|;
      assert Concat(ss)[k] == ss[n][j];
    }
  }

  /** The concatenation of `f(x)` over the elements `x` of `s`, in order: the
      list a loop builds by appending `f(x)` for each element. */
  function FlatMap<T, U>(s: seq<T>, f: T -> seq<U>): seq<U>
  {
    if s == [] then [] else FlatMap(s[..|s| - 1], f) + f(s[|s| - 1])
  }

  lemma FlatMapStep<T, U>(s: seq<T>, f: T -> seq<U>, k: nat)
    requires k < |s|
    ensures FlatMap(s[..k + 1], f) == FlatMap(s[..k], f) + f(s[k])
  {
    assert s[..k + 1][..k] == s[..k];
  }

  lemma {:induction false} FlatMapAppend<T, U>(a: seq<T>, b: seq<T>, f: T -> seq<U>)
    ensures FlatMap(a + b, f) == FlatMap(a, f) + FlatMap(b, f)
    decreases |b|
  {
    if b == [] {
      assert a + b == a;
    } else {
      var b' := b[..|b| - 1];
      assert (a + b)[..|a + b| - 1] == a + b';
      FlatMapAppend(a, b', f);
    }
  }

  /** When every element maps to two items, element `i`'s items sit at
      positions `2i` and `2i + 1`. */
  lemma {:induction false} FlatMapPairs<T, U>(s: seq<T>, f: T -> seq<U>)
    requires forall k :: 0 <= k < |s| ==> |f(s[k])| == 2
    ensures |FlatMap(s, f)| == 2 * |s|
    ensures forall i :: 0 <= i < |s| ==> FlatMap(s, f)[2 * i] == f(s[i])[0] && FlatMap(s, f)[2 * i + 1] == f(s[i])[1]
  {
    if s != [] {
      var n := |s| - 1;
      var p := s[..n];
      assert forall k :: 0 <= k < n ==> p[k] == s[k];
      FlatMapPairs(p, f);
      var r := FlatMap(s, f);
      assert r == FlatMap(p, f) + f(s[n]);
      forall i | 0 <= i < |s|
        ensures r[2 * i] == f(s[i])[0] && r[2 * i + 1] == f(s[i])[1]
      {
        if i < n {
          assert p[i] == s[i];
        }
      }
    }
  }

  /** An element is in the result exactly when it comes from some element's image. */
  lemma {:induction false} FlatMapMembers<T, U>(s: seq<T>, f: T -> seq<U>, u: U)
    ensures u in FlatMap(s, f) <==> exists k :: 0 <= k < |s| && u in f(s[k])
  {
    if s != [] {
      var n := |s| - 1;
      var prefix := s[..n];
      FlatMapMembers(prefix, f, u);
      if u in FlatMap(prefix, f) {
        var k :| 0 <= k < n && u in f(prefix[k]);
        assert prefix[k] == s[k];
      }
      if exists k :: 0 <= k < |s| && u in f(s[k]) {
        var k :| 0 <= k < |s| && u in f(s[k]);
        if k < n {
          assert prefix[k] == s[k];
        }
      }
    }
  }

  /** Mapping a sequence whose elements all occur in `b` yields only items
      that mapping `b` yields. */
  lemma FlatMapSubset<T, U>(a: seq<T>, b: seq<T>, f: T -> seq<U>)
    requires forall x :: x in a ==> x in b
    ensures forall u :: u in FlatMap(a, f) ==> u in FlatMap(b, f)
  {
    forall u | u in FlatMap(a, f)
      ensures u in FlatMap(b, f)
    {
      FlatMapMembers(a, f, u);
      var k :| 0 <= k < |a| && u in f(a[k]);
      assert a[k] in b;
      var j :| 0 <= j < |b| && b[j] == a[k];
      FlatMapMembers(b, f, u);
    }
  }

  /** Removing the last element of `a` and a matching element of `b` keeps
      two equal multisets equal. */
  lemma RemoveMatching<T>(a: seq<T>, b: seq<T>, j: nat)
    requires multiset(a) == multiset(b) && a != [] && j < |b| && b[j] == a[|a| - 1]
    ensures multiset(a[..|a| - 1]) == multiset(b[..j] + b[j + 1..])
  {
    var a', b', z := a[..|a| - 1], b[..j] + b[j + 1..], b[j];
    assert a == a' + [z];
    assert b == b[..j] + [z] + b[j + 1..];
    assert multiset(a') == multiset(a) - multiset{z};
    assert multiset(b') == multiset(b) - multiset{z};
  }
}
