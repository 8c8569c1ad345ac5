/** Row deletion by an index list, the way np.delete(a, indices, 0) does it,
    and the reference definition it is proved against: keeping the elements
    whose flag is set, in their original order. */
module Seqs {

  /** `s` without the positions listed in `dels` (np.delete along axis 0). */
  function Delete<T>(s: seq<T>, dels: seq<nat>): (r: seq<T>)
    ensures |r| <= |s|
    ensures forall x :: x in r ==> x in s
  {
    if s == [] then []
    else
      var n := |s| - 1;
      Delete(s[..n], dels) + (if n in dels then [] else [s[n]])
  }

  /** The positions `i` with `keep[i]`, in increasing order. */
  function KeptIndices(keep: seq<bool>): (idx: seq<nat>)
    ensures forall j :: 0 <= j < |idx| ==> idx[j] < |keep| && keep[idx[j]]
    ensures forall j, k :: 0 <= j < k < |idx| ==> idx[j] < idx[k]
    ensures forall i :: 0 <= i < |keep| && keep[i] ==> i in idx
  {
    if keep == [] then []
    else
      var n := |keep| - 1;
      KeptIndices(keep[..n]) + (if keep[n] then [n] else [])
  }

  /** The elements of `s` whose flag is set, in their original order. */
  function KeepWhere<T>(s: seq<T>, keep: seq<bool>): (r: seq<T>)
    requires |keep| == |s|
    ensures |r| == |KeptIndices(keep)| <= |s|
    ensures forall x :: x in r ==> x in s
  {
    if s == [] then []
    else
      var n := |s| - 1;
      KeepWhere(s[..n], keep[..n]) + (if keep[n] then [s[n]] else [])
  }

  /** Element `j` of the kept sequence is the element of `s` at the `j`-th kept position. */
  lemma {:induction false} KeepWhereAt<T>(s: seq<T>, keep: seq<bool>, j: nat)
    requires |keep| == |s| && j < |KeepWhere(s, keep)|
    ensures KeptIndices(keep)[j] < |s| && KeepWhere(s, keep)[j] == s[KeptIndices(keep)[j]]
  {
    var n := |s| - 1;
    var front := KeepWhere(s[..n], keep[..n]);
    if j < |front| {
      KeepWhereAt(s[..n], keep[..n], j);
      assert KeptIndices(keep)[j] == KeptIndices(keep[..n])[j];
    }
  }

  /** When every flag is set nothing is dropped. */
  lemma {:induction false} KeepAll<T>(s: seq<T>, keep: seq<bool>)
    requires |keep| == |s|
    requires forall i :: 0 <= i < |keep| ==> keep[i]
    ensures KeepWhere(s, keep) == s
  {
    if s != [] {
      var n := |s| - 1;
      KeepAll(s[..n], keep[..n]);
      assert s[..n] + [s[n]] == s;
    }
  }

  /** Deleting exactly the unflagged positions of a sequence as long as the flags. */
  lemma {:induction false} DeleteExact<T>(s: seq<T>, dels: seq<nat>, keep: seq<bool>)
    requires |keep| == |s|
    requires forall i :: 0 <= i < |s| ==> (i in dels <==> !keep[i])
    ensures Delete(s, dels) == KeepWhere(s, keep)
  {
    if s != [] {
      var n := |s| - 1;
      DeleteExact(s[..n], dels, keep[..n]);
    }
  }

  /** Positions past the last listed index survive np.delete unchanged. */
  lemma {:induction false} DeleteSuffix<T>(p: seq<T>, q: seq<T>, dels: seq<nat>)
    requires forall i :: i in dels ==> i < |p|
    ensures Delete(p + q, dels) == Delete(p, dels) + q
    decreases |q|
  {
    if q == [] {
      assert p + q == p;
    } else {
      var m := |q| - 1;
      var front := q[..m];
      DeleteSuffix(p, front, dels);
      assert p + q == (p + front) + [q[m]];
      DeleteAppend(p + front, q[m], dels);
      assert front + [q[m]] == q;
    }
  }

  /** An element appended at an unlisted position survives np.delete. */
  lemma DeleteAppend<T>(s: seq<T>, x: T, dels: seq<nat>)
    requires |s| !in dels
    ensures Delete(s + [x], dels) == Delete(s, dels) + [x]
  {
  }

  /** np.delete with an index list that marks exactly the unflagged positions
      among the first |keep| elements keeps the flagged ones in order and leaves
      every element past the flags untouched. */
  lemma {:induction false} DeleteFlagged<T>(s: seq<T>, dels: seq<nat>, keep: seq<bool>)
    requires |keep| <= |s|
    requires forall i :: 0 <= i < |keep| ==> (i in dels <==> !keep[i])
    requires forall i :: i in dels ==> i < |keep|
    ensures Delete(s, dels) == KeepWhere(s[..|keep|], keep) + s[|keep|..]
  {
    var p, q := s[..|keep|], s[|keep|..];
    assert p + q == s;
    DeleteSuffix(p, q, dels);
    DeleteExact(p, dels, keep);
  }
}
