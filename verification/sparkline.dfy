/**
  The download-trend sparkline: the newest samples of the rate history,
  each normalised by the largest sample in the whole history and mapped onto
  a ten-level ASCII ramp, right-aligned in a field of the requested width.

  Both builds run the same loop; src/torfrog.cpp reads the `DlHist` array,
  src/TorFrog.cpp reads the deque. `Render` is the loop over a sequence of
  samples; `RenderHistory` is the array version, proved equal to it.
*/
module Sparkline {
  import opened Text
  import RateHistory

  /** `levels`: index 0 is blank, index 9 the densest glyph. */
  const Levels: string := " .:-=+*#%@"

  /**
    The maximum computed before rendering: it starts at 0 and is raised by
    every larger sample.
  */
  function MaxSample(values: seq<real>): (m: real)
    ensures m >= 0.0
    ensures forall i :: 0 <= i < |values| ==> values[i] <= m
    ensures m > 0.0 ==> exists i :: 0 <= i < |values| && values[i] == m
  {
    if |values| == 0 then 0.0
    else
      var m := MaxSample(values[..|values| - 1]);
      if values[|values| - 1] > m then values[|values| - 1] else m
  }

  /** `floor(v / mx * 9)` clamped into [0, 9]. */
  function LevelIndex(v: real, mx: real): (k: nat)
    requires v > 0.0 && mx > 0.0
    ensures k <= 9
    ensures v <= mx ==> k as real <= v / mx * 9.0 < k as real + 1.0
    ensures k == 9 <==> v >= mx
  {
    var q := v / mx;
    RatioBelowOne(v, mx);
    var r := q * 9.0;
    var idx := r.Floor;
    var clamped: int := if idx < 0 then 0 else if idx > 9 then 9 else idx;
    clamped
  }

  lemma RatioBelowOne(v: real, mx: real)
    requires mx > 0.0
    ensures v / mx < 1.0 <==> v < mx
  {
  }

  /** The glyph of one sample: blank when the sample is not positive. */
  function Glyph(v: real, mx: real): (c: char)
    requires mx > 0.0
    ensures c in Levels
    ensures v <= 0.0 ==> c == ' '
    ensures 0.0 < v ==> c == Levels[LevelIndex(v, mx)]
    ensures v == mx ==> c == '@'
  {
    if v <= 0.0 then ' ' else Levels[LevelIndex(v, mx)]
  }

  function Min(a: int, b: int): int {
    if a < b then a else b
  }

  /** The glyphs of the last `n` samples, oldest first. */
  function TailGlyphs(values: seq<real>, n: nat, mx: real): (g: string)
    requires n <= |values| && mx > 0.0
    ensures |g| == n
    ensures forall j :: 0 <= j < n ==> g[j] == Glyph(values[|values| - n + j], mx)
  {
    seq(n, j requires 0 <= j < n => Glyph(values[|values| - n + j], mx))
  }

  /** `sparkline` over a sequence of samples, oldest first. */
  function Render(values: seq<real>, width: int): (r: string)
    ensures |values| == 0 || width <= 0 ==> r == ""
    ensures |values| > 0 && width > 0 ==> |r| == width
    ensures forall i :: 0 <= i < |r| ==> r[i] in Levels
    ensures |values| > 0 && width > 0 && MaxSample(values) <= 0.0 ==> r == Repeat(' ', width)
    ensures |values| > 0 && width > 0 && MaxSample(values) > 0.0 ==>
      && (forall i :: 0 <= i < width - |values| ==> r[i] == ' ')
      && (forall i :: 0 <= i < width && width - |values| <= i ==>
            r[i] == Glyph(values[|values| - width + i], MaxSample(values)))
  {
    if |values| == 0 || width <= 0 then ""
    else
      var mx := MaxSample(values);
      if mx <= 0.0 then Repeat(' ', width)
      else
        var n := Min(|values|, width);
        Repeat(' ', width - n) + TailGlyphs(values, n, mx)
  }

  /** The rightmost character is always the newest sample's glyph. */
  lemma NewestIsRightmost(values: seq<real>, width: int)
    requires |values| > 0 && width > 0 && MaxSample(values) > 0.0
    ensures Render(values, width)[width - 1] == Glyph(values[|values| - 1], MaxSample(values))
  {
  }

  /** A visible sample equal to the history's maximum is drawn with the densest glyph. */
  lemma MaximumIsDensest(values: seq<real>, width: int, k: nat)
    requires width > 0 && k < |values|
    requires values[k] == MaxSample(values) > 0.0
    requires |values| - k <= width
    ensures Render(values, width)[width - |values| + k] == '@'
  {
  }

  /** A history with no positive sample renders as blanks of the requested width. */
  lemma SilentHistoryIsBlank(values: seq<real>, width: int)
    requires |values| > 0 && width > 0
    requires forall i :: 0 <= i < |values| ==> values[i] <= 0.0
    ensures Render(values, width) == Repeat(' ', width)
  {
  }

  /**
    After the same stream of download-rate samples, the array history of
    src/torfrog.cpp and the deque history of src/TorFrog.cpp draw the same
    sparkline.
  */
  lemma BuildsDrawSameTrend(xs: seq<real>, width: int)
    ensures Render(RateHistory.Contents(RateHistory.PushAll(RateHistory.Init(), xs)), width)
         == Render(RateHistory.DequePushAll([], xs), width)
    ensures Render(RateHistory.DequePushAll([], xs), width) == Render(RateHistory.Window(xs), width)
  {
    RateHistory.ArrayHistoryMatchesDeque(xs);
    RateHistory.DequeHistoryIsWindow(xs);
  }

  /** One iteration of the rendering loop: the glyph index computed with C's truncating cast and clamps. */
  method SampleGlyph(v: real, mx: real) returns (c: char)
    requires mx > 0.0
    ensures c == Glyph(v, mx)
  {
    if v <= 0.0 {
      return ' ';
    }
    var idx := (v / mx * 9.0).Floor;
    if idx < 0 {
      idx := 0;
    }
    if idx > 9 {
      idx := 9;
    }
    c := Levels[idx];
  }

  /** The first loop of `sparkline`: the largest live sample, starting from 0. */
  method HistoryMax(h: RateHistory.DlHist) returns (mx: real)
    requires RateHistory.Valid(h)
    ensures mx == MaxSample(RateHistory.Contents(h))
  {
    mx := 0.0;
    var i := 0;
    while i < h.size
      invariant 0 <= i <= h.size
      invariant mx == MaxSample(h.v[..i])
    {
      assert h.v[..i + 1][..i] == h.v[..i];
      if h.v[i] > mx {
        mx := h.v[i];
      }
      i := i + 1;
    }
  }

  /** The second loop of `sparkline`: the glyphs of the newest `n` live samples. */
  method HistoryTail(h: RateHistory.DlHist, n: int, mx: real) returns (tail: string)
    requires RateHistory.Valid(h) && 0 <= n <= h.size && mx > 0.0
    ensures tail == TailGlyphs(RateHistory.Contents(h), n, mx)
  {
    ghost var values := RateHistory.Contents(h);
    var start := h.size - n;
    tail := "";
    var i := start;
    while i < h.size
      invariant start <= i <= h.size
      invariant |tail| == i - start
      invariant forall j :: 0 <= j < i - start ==> tail[j] == Glyph(values[start + j], mx)
    {
      var c := SampleGlyph(h.v[i], mx);
      tail := tail + [c];
      i := i + 1;
    }
  }

  /** `sparkline` of src/torfrog.cpp, looping over the `DlHist` array. */
  method RenderHistory(h: RateHistory.DlHist, width: int) returns (out: string)
    requires RateHistory.Valid(h)
    ensures out == Render(RateHistory.Contents(h), width)
  {
    if h.size <= 0 || width <= 0 {
      return "";
    }
    var mx := HistoryMax(h);
    if mx <= 0.0 {
      return Repeat(' ', width);
    }
    var n := if h.size < width then h.size else width;
    var tail := HistoryTail(h, n, mx);
    out := Repeat(' ', width - n) + tail;
  }
}
