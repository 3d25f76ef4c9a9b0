/** Sequence helpers shared by the dataset models: order-preserving filtering,
    Python slicing with clipping, and numpy-style scatter assignment. */
module Seqs {

  /** The elements of `s` satisfying `p`, in their original order. */
  function Filter<T>(s: seq<T>, p: T -> bool): (r: seq<T>)
    ensures |r| <= |s|
    ensures forall i :: 0 <= i < |r| ==> r[i] in s && p(r[i])
    ensures forall i :: 0 <= i < |s| && p(s[i]) ==> s[i] in r
  {
    if s == [] then [] else (if p(s[0]) then [s[0]] else []) + Filter(s[1..], p)
  }

  /** The elements of `s` NOT satisfying `p`, in their original order. */
  function Reject<T>(s: seq<T>, p: T -> bool): (r: seq<T>)
    ensures |r| <= |s|
    ensures forall i :: 0 <= i < |r| ==> r[i] in s && !p(r[i])
    ensures forall i :: 0 <= i < |s| && !p(s[i]) ==> s[i] in r
  {
    if s == [] then [] else (if p(s[0]) then [] else [s[0]]) + Reject(s[1..], p)
  }

  /** `a` can be obtained from `b` by deleting elements (order is kept). */
  predicate IsSubseq<T(==)>(a: seq<T>, b: seq<T>)
    decreases |b|
  {
    a == [] || (b != [] && ((a[0] == b[0] && IsSubseq(a[1..], b[1..])) || IsSubseq(a, b[1..])))
  }

  lemma {:induction false} FilterIsSubseq<T>(s: seq<T>, p: T -> bool)
    ensures IsSubseq(Filter(s, p), s)
    ensures IsSubseq(Reject(s, p), s)
  {
    if s != [] {
      FilterIsSubseq(s[1..], p);
      assert Filter(s, p) == (if p(s[0]) then [s[0]] else []) + Filter(s[1..], p);
      assert Reject(s, p) == (if p(s[0]) then [] else [s[0]]) + Reject(s[1..], p);
      if p(s[0]) {
        assert Filter(s, p)[1..] == Filter(s[1..], p);
        assert Reject(s, p) == Reject(s[1..], p);
      } else {
        assert Reject(s, p)[1..] == Reject(s[1..], p);
        assert Filter(s, p) == Filter(s[1..], p);
      }
    }
  }

  lemma {:induction false} SubseqRefl<T>(s: seq<T>)
    ensures IsSubseq(s, s)
  {
    if s != [] {
      SubseqRefl(s[1..]);
    }
  }

  lemma {:induction false} SubseqTrans<T>(a: seq<T>, b: seq<T>, c: seq<T>)
    requires IsSubseq(a, b) && IsSubseq(b, c)
    ensures IsSubseq(a, c)
    decreases |c|
  {
    if a != [] {
      if IsSubseq(b, c[1..]) {
        SubseqTrans(a, b, c[1..]);
      } else if a[0] == b[0] && IsSubseq(a[1..], b[1..]) {
        SubseqTrans(a[1..], b[1..], c[1..]);
      } else {
        SubseqTrans(a, b[1..], c[1..]);
      }
    }
  }

  /** Filtering and rejecting on the same predicate split `s` without loss. */
  lemma {:induction false} FilterRejectPartition<T>(s: seq<T>, p: T -> bool)
    ensures multiset(Filter(s, p)) + multiset(Reject(s, p)) == multiset(s)
  {
    if s != [] {
      var tail := s[1..];
      FilterRejectPartition(tail, p);
      var ft, rt := multiset(Filter(tail, p)), multiset(Reject(tail, p));
      assert s == [s[0]] + tail;
      assert multiset(s) == multiset{s[0]} + multiset(tail);
      if p(s[0]) {
        assert Filter(s, p) == [s[0]] + Filter(tail, p);
        assert multiset(Filter(s, p)) == multiset{s[0]} + ft;
        assert multiset(Reject(s, p)) == rt;
      } else {
        assert Reject(s, p) == [s[0]] + Reject(tail, p);
        assert multiset(Reject(s, p)) == multiset{s[0]} + rt;
        assert multiset(Filter(s, p)) == ft;
      }
    }
  }

  /** Filtering twice is filtering once on the conjunction. */
  lemma {:induction false} FilterFilter<T>(s: seq<T>, p: T -> bool, q: T -> bool, pq: T -> bool)
    requires forall x :: pq(x) == (p(x) && q(x))
    ensures Filter(Filter(s, p), q) == Filter(s, pq)
  {
    if s != [] {
      FilterFilter(s[1..], p, q, pq);
      var fs := Filter(s, p);
      if p(s[0]) {
        assert fs == [s[0]] + Filter(s[1..], p);
        assert fs[0] == s[0] && fs[1..] == Filter(s[1..], p);
        assert Filter(fs, q) == (if q(s[0]) then [s[0]] else []) + Filter(fs[1..], q);
      } else {
        assert fs == Filter(s[1..], p);
      }
      assert Filter(s, pq) == (if pq(s[0]) then [s[0]] else []) + Filter(s[1..], pq);
    }
  }

  /** Rejecting after filtering keeps the elements that pass `p` and fail `q`. */
  lemma {:induction false} FilterReject<T>(s: seq<T>, p: T -> bool, q: T -> bool, pnq: T -> bool)
    requires forall x :: pnq(x) == (p(x) && !q(x))
    ensures Reject(Filter(s, p), q) == Filter(s, pnq)
  {
    if s != [] {
      FilterReject(s[1..], p, q, pnq);
      var fs := Filter(s, p);
      if p(s[0]) {
        assert fs == [s[0]] + Filter(s[1..], p);
        assert fs[0] == s[0] && fs[1..] == Filter(s[1..], p);
        assert Reject(fs, q) == (if q(s[0]) then [] else [s[0]]) + Reject(fs[1..], q);
      } else {
        assert fs == Filter(s[1..], p);
      }
      assert Filter(s, pnq) == (if pnq(s[0]) then [s[0]] else []) + Filter(s[1..], pnq);
    }
  }

  /** Filtering a sequence extended by one element extends the filtered sequence by
      that element exactly when it passes. */
  lemma {:induction false} FilterSnoc<T>(s: seq<T>, x: T, p: T -> bool)
    ensures Filter(s + [x], p) == Filter(s, p) + (if p(x) then [x] else [])
  {
    var t := s + [x];
    if s == [] {
      assert Filter(t, p) == (if p(x) then [x] else []) + Filter([], p);
    } else {
      FilterSnoc(s[1..], x, p);
      assert t[0] == s[0] && t[1..] == s[1..] + [x];
      var head := if p(s[0]) then [s[0]] else [];
      calc {
        Filter(t, p);
        head + Filter(s[1..] + [x], p);
        head + (Filter(s[1..], p) + (if p(x) then [x] else []));
        (head + Filter(s[1..], p)) + (if p(x) then [x] else []);
        Filter(s, p) + (if p(x) then [x] else []);
      }
    }
  }

  /** Rejecting from a sequence extended by one element extends the result by
      that element exactly when it fails. */
  lemma {:induction false} RejectSnoc<T>(s: seq<T>, x: T, p: T -> bool)
    ensures Reject(s + [x], p) == Reject(s, p) + (if p(x) then [] else [x])
  {
    var t := s + [x];
    if s == [] {
      assert Reject(t, p) == (if p(x) then [] else [x]) + Reject([], p);
    } else {
      RejectSnoc(s[1..], x, p);
      assert t[0] == s[0] && t[1..] == s[1..] + [x];
      var head := if p(s[0]) then [] else [s[0]];
      calc {
        Reject(t, p);
        head + Reject(s[1..] + [x], p);
        head + (Reject(s[1..], p) + (if p(x) then [] else [x]));
        (head + Reject(s[1..], p)) + (if p(x) then [] else [x]);
        Reject(s, p) + (if p(x) then [] else [x]);
      }
    }
  }

  /** Python `s[:k]`: the first `k` elements, or all of them when there are fewer. */
  function Take<T>(s: seq<T>, k: nat): (r: seq<T>)
    ensures |r| == if k <= |s| then k else |s|
    ensures forall i :: 0 <= i < |r| ==> r[i] == s[i]
  {
    if k <= |s| then s[..k] else s
  }

  /** Python `s[k:]`: everything after the first `k` elements. */
  function Drop<T>(s: seq<T>, k: nat): (r: seq<T>)
    ensures |r| == if k <= |s| then |s| - k else 0
    ensures forall i :: 0 <= i < |r| ==> r[i] == s[k + i]
  {
    if k <= |s| then s[k..] else []
  }

  /** `s[:k]` and `s[k:]` are complementary: together they are `s`, in order. */
  lemma TakeDropSplit<T>(s: seq<T>, k: nat)
    ensures Take(s, k) + Drop(s, k) == s
    ensures |Take(s, k)| + |Drop(s, k)| == |s|
  {
    if k > |s| {
      assert Take(s, k) == s && Drop(s, k) == [];
    } else {
      assert s[..k] + s[k..] == s;
    }
  }

  /** numpy `a[idxs] = v` for in-range non-negative indices. */
  function Scatter<T>(a: seq<T>, idxs: seq<nat>, v: T): (r: seq<T>)
    requires forall i :: 0 <= i < |idxs| ==> idxs[i] < |a|
    ensures |r| == |a|
    decreases |idxs|
  {
    if idxs == [] then a else Scatter(a[idxs[0] := v], idxs[1..], v)
  }

  /** After the scatter, exactly the named positions hold `v`; the rest are unchanged. */
  lemma {:induction false} ScatterAt<T>(a: seq<T>, idxs: seq<nat>, v: T, j: nat)
    requires forall i :: 0 <= i < |idxs| ==> idxs[i] < |a|
    requires j < |a|
    ensures Scatter(a, idxs, v)[j] == if j in idxs then v else a[j]
    decreases |idxs|
  {
    if idxs != [] {
      ScatterAt(a[idxs[0] := v], idxs[1..], v, j);
      assert j in idxs <==> j == idxs[0] || j in idxs[1..];
    }
  }

  /** Scattering one more index is one more update. */
  lemma ScatterSnoc<T>(a: seq<T>, idxs: seq<nat>, x: nat, v: T)
    requires forall i :: 0 <= i < |idxs| ==> idxs[i] < |a|
    requires x < |a|
    ensures Scatter(a, idxs + [x], v) == Scatter(a, idxs, v)[x := v]
  {
    var l := Scatter(a, idxs + [x], v);
    var r := Scatter(a, idxs, v)[x := v];
    forall j | 0 <= j < |a|
      ensures l[j] == r[j]
    {
      ScatterAt(a, idxs + [x], v, j);
      ScatterAt(a, idxs, v, j);
      assert j in idxs + [x] <==> j in idxs || j == x;
    }
  }

  /** `range(n)`. */
  function Range(n: nat): (r: seq<nat>)
    ensures |r| == n
    ensures forall i :: 0 <= i < n ==> r[i] == i
  {
    seq(n, i requires 0 <= i => i)
  }

  /** `{x: i for i, x in enumerate(s)}`: each element mapped to a position,
      written left to right, so a repeated element keeps its last position. */
  function LastPositions<T>(s: seq<T>): map<T, nat>
  {
    if s == [] then map[]
    else LastPositions(s[..|s| - 1])[s[|s| - 1] := |s| - 1]
  }

  /** The map knows exactly the elements of `s`, and gives each the position of
      its last occurrence. */
  lemma {:induction false} LastPositionsSpec<T>(s: seq<T>)
    ensures forall k :: k in LastPositions(s) <==> k in s
    ensures forall k :: k in LastPositions(s) ==>
              LastPositions(s)[k] < |s| && s[LastPositions(s)[k]] == k &&
              forall j :: LastPositions(s)[k] < j < |s| ==> s[j] != k
  {
    if s != [] {
      var init := s[..|s| - 1];
      LastPositionsSpec(init);
      var t := LastPositions(s);
      var last := s[|s| - 1];
      assert s == init + [last];
      forall k
        ensures k in t <==> k in s
      {
        assert k in s <==> k in init || k == last;
      }
      forall k | k in t
        ensures t[k] < |s| && s[t[k]] == k
        ensures forall j :: t[k] < j < |s| ==> s[j] != k
      {
        if k != last {
          assert t[k] == LastPositions(init)[k];
          assert forall j :: t[k] < j < |init| ==> init[j] == s[j];
        }
      }
    }
  }
}
