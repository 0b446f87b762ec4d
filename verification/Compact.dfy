/** Packing the selected lanes of a row to the low end, and spreading them out again. */
module Compact {

  /** How many of the first `k` lanes are selected. */
  function Rank(mask: seq<bool>, k: nat): (r: nat)
    requires k <= |mask|
    ensures r <= k
  {
    if k == 0 then 0 else Rank(mask, k - 1) + if mask[k - 1] then 1 else 0
  }

  function Count(mask: seq<bool>): nat { Rank(mask, |mask|) }

  /** The selected elements among the first `k`, in lane order. */
  function Selected<T>(data: seq<T>, mask: seq<bool>, k: nat): (r: seq<T>)
    requires |data| == |mask| && k <= |mask|
    ensures |r| == Rank(mask, k)
  {
    if k == 0 then [] else Selected(data, mask, k - 1) + if mask[k - 1] then [data[k - 1]] else []
  }

  function Compressed<T>(data: seq<T>, mask: seq<bool>, zero: T): (r: seq<T>)
    requires |data| == |mask|
    ensures |r| == |data|
  {
    Selected(data, mask, |mask|) + seq(|data| - Count(mask), _ => zero)
  }

  function Expanded<T>(data: seq<T>, mask: seq<bool>, zero: T): (r: seq<T>)
    requires |data| == |mask|
    ensures |r| == |data|
  {
    seq(|data|, k requires 0 <= k < |data| => if mask[k] then data[Rank(mask, k)] else zero)
  }

  function Masked<T>(data: seq<T>, mask: seq<bool>, zero: T): seq<T>
    requires |data| == |mask|
  {
    seq(|data|, k requires 0 <= k < |data| => if mask[k] then data[k] else zero)
  }

  /** The low `count` of `n` lanes. */
  function LowLanes(n: nat, count: nat): seq<bool> {
    seq(n, k => k < count)
  }

  // ----- ranks

  lemma {:induction false} RankMonotone(mask: seq<bool>, i: nat, j: nat)
    requires i <= j <= |mask|
    ensures Rank(mask, i) <= Rank(mask, j)
    ensures i < j && mask[i] ==> Rank(mask, i) < Rank(mask, j)
    decreases j
  {
    if i < j {
      RankMonotone(mask, i, j - 1);
    }
  }

  /** The selected lane of a given rank. */
  lemma {:induction false} LaneOfRank(mask: seq<bool>, r: nat, k: nat) returns (lane: nat)
    requires k <= |mask| && r < Rank(mask, k)
    ensures lane < k && mask[lane] && Rank(mask, lane) == r
  {
    if mask[k - 1] && Rank(mask, k - 1) == r {
      lane := k - 1;
    } else {
      lane := LaneOfRank(mask, r, k - 1);
    }
  }

  lemma {:induction false} SelectedAt<T>(data: seq<T>, mask: seq<bool>, lane: nat, k: nat)
    requires |data| == |mask| && lane < k <= |mask| && mask[lane]
    ensures Rank(mask, lane) < Rank(mask, k)
    ensures Selected(data, mask, k)[Rank(mask, lane)] == data[lane]
  {
    RankMonotone(mask, lane, k);
    if lane < k - 1 {
      SelectedAt(data, mask, lane, k - 1);
    }
  }

  // ----- the two directions undo each other

  /** Compression is stable: selected lanes land at their ranks, so in their own order, and every packed
      position below the count comes from one of them. */
  lemma CompressIsStable<T>(data: seq<T>, mask: seq<bool>, zero: T, a: nat, b: nat)
    requires |data| == |mask| && a < b < |mask| && mask[a] && mask[b]
    ensures Rank(mask, a) < Rank(mask, b) < Count(mask)
    ensures Compressed(data, mask, zero)[Rank(mask, a)] == data[a] && Compressed(data, mask, zero)[Rank(mask, b)] == data[b]
  {
    RankMonotone(mask, a, b);
    RankMonotone(mask, b, |mask|);
    SelectedAt(data, mask, a, |mask|);
    SelectedAt(data, mask, b, |mask|);
  }

  lemma PackedComeFromSelected<T>(data: seq<T>, mask: seq<bool>, zero: T, i: nat) returns (lane: nat)
    requires |data| == |mask| && i < |mask|
    ensures i < Count(mask) ==> lane < |mask| && mask[lane] && Compressed(data, mask, zero)[i] == data[lane]
    ensures i >= Count(mask) ==> Compressed(data, mask, zero)[i] == zero
  {
    lane := 0;
    if i < Count(mask) {
      lane := LaneOfRank(mask, i, |mask|);
      SelectedAt(data, mask, lane, |mask|);
    }
  }

  /** An unselected lane of an expanded row is zero; a selected one holds the element of its rank. */
  lemma ExpandedLane<T>(data: seq<T>, mask: seq<bool>, zero: T, lane: nat)
    requires |data| == |mask| && lane < |mask|
    ensures !mask[lane] ==> Expanded(data, mask, zero)[lane] == zero
    ensures mask[lane] ==> |SelectedBelow(mask, lane)| < |data| && Expanded(data, mask, zero)[lane] == data[|SelectedBelow(mask, lane)|]
  {
    RankCounts(mask, lane);
  }

  /** The selected lanes below `lane`. */
  ghost function SelectedBelow(mask: seq<bool>, lane: nat): set<nat>
    requires lane <= |mask|
  {
    set k: nat | k < lane && mask[k]
  }

  lemma {:induction false} RankCounts(mask: seq<bool>, lane: nat)
    requires lane <= |mask|
    ensures Rank(mask, lane) == |SelectedBelow(mask, lane)|
  {
    if lane > 0 {
      RankCounts(mask, lane - 1);
      if mask[lane - 1] {
        assert SelectedBelow(mask, lane) == SelectedBelow(mask, lane - 1) + {lane - 1};
      } else {
        assert SelectedBelow(mask, lane) == SelectedBelow(mask, lane - 1);
      }
    }
  }

  /** Expanding a compressed row brings every selected element back to its lane. */
  lemma ExpandAfterCompress<T>(data: seq<T>, mask: seq<bool>, zero: T)
    requires |data| == |mask|
    ensures Expanded(Compressed(data, mask, zero), mask, zero) == Masked(data, mask, zero)
  {
    forall k | 0 <= k < |mask| && mask[k]
      ensures Compressed(data, mask, zero)[Rank(mask, k)] == data[k]
    {
      SelectedAt(data, mask, k, |mask|);
    }
  }

  lemma {:induction false} SelectedFromExpanded<T>(data: seq<T>, mask: seq<bool>, zero: T, k: nat)
    requires |data| == |mask| && k <= |mask|
    ensures Selected(Expanded(data, mask, zero), mask, k) == data[..Rank(mask, k)]
  {
    if k > 0 {
      SelectedFromExpanded(data, mask, zero, k - 1);
    }
  }

  /** Compressing an expanded row gives back the elements that were spread out, and clears the rest. */
  lemma CompressAfterExpand<T>(data: seq<T>, mask: seq<bool>, zero: T)
    requires |data| == |mask|
    ensures Compressed(Expanded(data, mask, zero), mask, zero) == Masked(data, LowLanes(|mask|, Count(mask)), zero)
  {
    SelectedFromExpanded(data, mask, zero, |mask|);
  }

  // ----- the lane loop

  /** One pass over the lanes with a packing cursor. */
  method CompactLanes<T>(expand: bool, data: seq<T>, mask: seq<bool>, zero: T) returns (out: seq<T>, valid: seq<bool>, count: nat)
    requires |data| == |mask|
    ensures count == Count(mask)
    ensures expand ==> out == Expanded(data, mask, zero) && valid == mask
    ensures !expand ==> out == Compressed(data, mask, zero) && valid == LowLanes(|mask|, Count(mask))
  {
    var n := |mask|;
    out := seq(n, _ => zero);
    valid := seq(n, _ => false);
    var cursor := 0;
    for lane := 0 to n
      invariant |out| == |valid| == n
      invariant cursor == Rank(mask, lane)
      invariant expand ==> forall k :: 0 <= k < n ==>
        (if k < lane && mask[k] then valid[k] && out[k] == data[Rank(mask, k)] else !valid[k] && out[k] == zero)
      invariant !expand ==> out[..cursor] == Selected(data, mask, lane)
      invariant !expand ==> forall k :: 0 <= k < n ==> valid[k] == (k < cursor) && (k >= cursor ==> out[k] == zero)
    {
      if mask[lane] {
        if expand {
          out := out[lane := data[cursor]];
          valid := valid[lane := true];
        } else {
          out := out[cursor := data[lane]];
          valid := valid[cursor := true];
        }
        cursor := cursor + 1;
      }
    }
    count := cursor;
    if !expand {
      assert out == out[..cursor] + seq(n - cursor, _ => zero);
    }
  }
}
