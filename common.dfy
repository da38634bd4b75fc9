/** Small building blocks shared by the ranking copies. */
module Common {

  datatype Option<T> = None | Some(value: T)

  /**
   * The index of the first element satisfying p, or -1 when there is none:
   * JavaScript's `findIndex`, and the position behind `find` and a SQL `fetch`
   * of the first matching row.
   */
  function FindFirst<T>(s: seq<T>, p: T -> bool): (r: int)
    ensures -1 <= r < |s|
    ensures r == -1 <==> forall k :: 0 <= k < |s| ==> !p(s[k])
    ensures r >= 0 ==> p(s[r]) && forall k :: 0 <= k < r ==> !p(s[k])
  {
    if |s| == 0 then -1
    else if p(s[0]) then 0
    else
      var r := FindFirst(s[1..], p);
      if r == -1 then -1 else r + 1
  }

  /** The weights of a list of weighted items, in order. */
  function WeightsOf<T>(items: seq<T>, weight: T -> real): (w: seq<real>)
    ensures |w| == |items| && forall i :: 0 <= i < |items| ==> w[i] == weight(items[i])
  {
    seq(|items|, i requires 0 <= i < |items| => weight(items[i]))
  }

  /** The set of ranks that appear in a result list. */
  function RankSet<T>(rows: seq<T>, rank: T -> int): set<int>
  {
    set k | 0 <= k < |rows| :: rank(rows[k])
  }

  /** Ranks that are positions plus one are distinct and are exactly 1..N. */
  lemma RanksAreOneToN<T>(rows: seq<T>, rank: T -> int)
    requires forall k :: 0 <= k < |rows| ==> rank(rows[k]) == k + 1
    ensures forall k, l :: 0 <= k < l < |rows| ==> rank(rows[k]) != rank(rows[l])
    ensures forall r :: r in RankSet(rows, rank) <==> 1 <= r <= |rows|
  {
    forall r | 1 <= r <= |rows|
      ensures r in RankSet(rows, rank)
    {
      assert rank(rows[r - 1]) == r;
    }
  }
}
