/**
  The bounded history of download-rate samples that feeds the sparkline.

  src/torfrog.cpp keeps it in a fixed array of 200 doubles plus a size
  (`DlHist`): below capacity a push appends, at capacity `memmove` shifts
  everything one slot left and the new sample goes into the last slot.
  src/TorFrog.cpp keeps it in a `std::deque<double>`: `push_back`, then
  `pop_front` when the size exceeds 200. Both keep the newest 200 samples in
  arrival order.
*/
module RateHistory {

  const Capacity: nat := 200

  /** `struct DlHist`: the backing array `v` and the number of live samples. */
  datatype DlHist = DlHist(v: seq<real>, size: int)

  predicate Valid(h: DlHist) {
    |h.v| == Capacity && 0 <= h.size <= Capacity
  }

  /** The live samples, oldest first. */
  function Contents(h: DlHist): (s: seq<real>)
    requires Valid(h)
    ensures |s| == h.size
  {
    h.v[..h.size]
  }

  /** `dl_hist_init`: no samples, every slot zeroed. */
  function Init(): (h: DlHist)
    ensures Valid(h)
    ensures h.size == 0 && Contents(h) == []
    ensures forall i :: 0 <= i < Capacity ==> h.v[i] == 0.0
  {
    DlHist(seq(Capacity, _ => 0.0), 0)
  }

  /** `dl_hist_push`. */
  function Push(h: DlHist, val: real): (h': DlHist)
    requires Valid(h)
    ensures Valid(h')
    ensures h.size < Capacity ==>
      && h'.size == h.size + 1
      && (forall i :: 0 <= i < h.size ==> h'.v[i] == h.v[i])
      && h'.v[h.size] == val
    ensures h.size == Capacity ==>
      && h'.size == Capacity
      && (forall i :: 0 <= i < Capacity - 1 ==> h'.v[i] == h.v[i + 1])
      && h'.v[Capacity - 1] == val
  {
    if h.size < Capacity then DlHist(h.v[h.size := val], h.size + 1)
    else DlHist(h.v[1..] + [val], h.size)
  }

  /**
    `dl_hist_push` on an array, as the source does it: write into the next
    free slot, or shift every slot one to the left (`memmove`) and write the
    new sample into the last slot.
  */
  method PushInPlace(h: DlHist, val: real) returns (h': DlHist)
    requires Valid(h)
    ensures h' == Push(h, val)
  {
    var a := new real[Capacity](i requires 0 <= i < Capacity => h.v[i]);
    var size := h.size;
    if size < Capacity {
      a[size] := val;
      size := size + 1;
    } else {
      var i := 0;
      while i < Capacity - 1
        invariant 0 <= i <= Capacity - 1
        invariant forall k :: 0 <= k < i ==> a[k] == h.v[k + 1]
        invariant forall k :: i <= k < Capacity ==> a[k] == h.v[k]
      {
        a[i] := a[i + 1];
        i := i + 1;
      }
      a[Capacity - 1] := val;
    }
    h' := DlHist(a[..], size);
  }

  /** The deque update of src/TorFrog.cpp: `push_back`, then `pop_front` past 200. */
  function DequePush(q: seq<real>, val: real): (q': seq<real>)
    requires |q| <= Capacity
    ensures |q'| <= Capacity
    ensures |q'| > 0 && q'[|q'| - 1] == val
    ensures |q| < Capacity ==> q' == q + [val]
    ensures |q| == Capacity ==> q' == q[1..] + [val]
  {
    var grown := q + [val];
    if |grown| > Capacity then grown[1..] else grown
  }

  /** The array history and the deque history hold the same samples after a push. */
  lemma PushMatchesDeque(h: DlHist, val: real)
    requires Valid(h)
    ensures Contents(Push(h, val)) == DequePush(Contents(h), val)
  {
  }

  /** The newest `Capacity` samples of a stream, oldest first. */
  function Window(s: seq<real>): (w: seq<real>)
    ensures |w| <= Capacity
    ensures |w| == if |s| < Capacity then |s| else Capacity
  {
    if |s| <= Capacity then s else s[|s| - Capacity..]
  }

  /** Feed samples in arrival order into the deque history. */
  function DequePushAll(q: seq<real>, xs: seq<real>): (r: seq<real>)
    requires |q| <= Capacity
    ensures |r| <= Capacity
    decreases |xs|
  {
    if |xs| == 0 then q else DequePush(DequePushAll(q, xs[..|xs| - 1]), xs[|xs| - 1])
  }

  /** Feed samples in arrival order into the array history. */
  function PushAll(h: DlHist, xs: seq<real>): (r: DlHist)
    requires Valid(h)
    ensures Valid(r)
    decreases |xs|
  {
    if |xs| == 0 then h else Push(PushAll(h, xs[..|xs| - 1]), xs[|xs| - 1])
  }

  /** One more sample moves the window by one. */
  lemma WindowStep(s: seq<real>, val: real)
    ensures DequePush(Window(s), val) == Window(s + [val])
  {
  }

  /** Starting empty, the deque history holds the newest 200 samples, oldest first. */
  lemma {:induction false} DequeHistoryIsWindow(xs: seq<real>)
    ensures DequePushAll([], xs) == Window(xs)
    decreases |xs|
  {
    if |xs| > 0 {
      var init := xs[..|xs| - 1];
      DequeHistoryIsWindow(init);
      WindowStep(init, xs[|xs| - 1]);
      assert init + [xs[|xs| - 1]] == xs;
    }
  }

  /** Starting from `dl_hist_init`, the array history holds the same samples as the deque. */
  lemma {:induction false} ArrayHistoryMatchesDeque(xs: seq<real>)
    ensures Contents(PushAll(Init(), xs)) == DequePushAll([], xs)
    decreases |xs|
  {
    if |xs| > 0 {
      ArrayHistoryMatchesDeque(xs[..|xs| - 1]);
      PushMatchesDeque(PushAll(Init(), xs[..|xs| - 1]), xs[|xs| - 1]);
    }
  }

  /**
    Fewer than 200 pushes evict nothing; the 201st push evicts exactly the
    first sample, leaving 200 with the second one oldest.
  */
  lemma EvictionExamples(xs: seq<real>)
    ensures |xs| <= Capacity ==> Contents(PushAll(Init(), xs)) == xs
    ensures |xs| == Capacity + 1 ==>
      var c := Contents(PushAll(Init(), xs));
      |c| == Capacity && c[0] == xs[1] && c == xs[1..]
  {
    ArrayHistoryMatchesDeque(xs);
    DequeHistoryIsWindow(xs);
  }
}
