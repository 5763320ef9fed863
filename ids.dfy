/** Fresh identifiers: every list page numbers a new record one past the largest id in use. */
module Ids {
  import opened Seqs

  /** `Math.max(...ids, 0)`: the largest id, or 0 for an empty list. */
  function MaxOrZero(ids: seq<int>): (m: int)
    ensures m >= 0
    ensures forall i :: 0 <= i < |ids| ==> ids[i] <= m
    ensures m == 0 || m in ids
  {
    if ids == [] then 0
    else
      var rest := MaxOrZero(ids[1..]);
      if ids[0] > rest then ids[0] else rest
  }

  /** `Math.max(...ids, 0) + 1`: positive, above every id in use, and the least such
      value unless the ids are all non-positive. */
  function NextId(ids: seq<int>): (r: int)
    ensures r >= 1
    ensures forall i :: 0 <= i < |ids| ==> ids[i] < r
    ensures r == 1 || r - 1 in ids
  {
    MaxOrZero(ids) + 1
  }

  /** `Math.max(...ids) + 1` as two of the pages write it. On an empty list `Math.max()`
      is -Infinity, so no finite id comes out: that case is `None`. */
  function MaxPlusOneAsWritten(ids: seq<int>): (r: Option<int>)
    ensures r.None? <==> ids == []
    ensures r.Some? ==> (forall i :: 0 <= i < |ids| ==> ids[i] < r.value) && r.value - 1 in ids
  {
    if ids == [] then None
    else
      match MaxPlusOneAsWritten(ids[1..])
      case None => Some(ids[0] + 1)
      case Some(m) => Some(if ids[0] + 1 > m then ids[0] + 1 else m)
  }

  /** The first record added to an empty list gets no usable id. */
  lemma EmptyListGetsNoId()
    ensures MaxPlusOneAsWritten([]).None?
  {
  }

  /** Wherever some id is non-negative, the written expression and `NextId` agree; the
      corrected `NextId` differs only on the empty list (and on all-negative ids, which no
      page creates). */
  lemma AsWrittenAgreesWithNextId(ids: seq<int>)
    requires exists i :: 0 <= i < |ids| && ids[i] >= 0
    ensures MaxPlusOneAsWritten(ids) == Some(NextId(ids))
  {
  }
}
