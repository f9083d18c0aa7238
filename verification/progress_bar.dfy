/**
  The progress bars of the two builds.

  src/torfrog.cpp draws a whole-cell ASCII bar: at least 10 cells, the number
  of '#' cells being the filled fraction rounded to the nearest cell.
  src/TorFrog.cpp draws full block cells for the whole part and one of three
  shade glyphs for the fractional remainder. Glyphs are Unicode scalar values,
  so one cell is one `char`; the UTF-8 bytes that carry them are not modelled.
*/
module ProgressBar {
  import opened Text

  /** `clamp_double(v, lo, hi)` and `std::clamp`. */
  function Clamp(v: real, lo: real, hi: real): (r: real)
    requires lo <= hi
    ensures lo <= r <= hi
    ensures lo <= v <= hi ==> r == v
    ensures forall y: real :: lo <= y <= hi ==> Dist(r, v) <= Dist(y, v)
  {
    if v < lo then lo else if v > hi then hi else v
  }

  function Dist(a: real, b: real): real {
    if a <= b then b - a else a - b
  }

  // ---------------------------------------------------------------------
  // ASCII build (src/torfrog.cpp)
  // ---------------------------------------------------------------------

  /** Number of cells between the brackets: the requested width, at least 10. */
  function AsciiInner(width: int): (n: nat)
    ensures n >= 10 && n >= width
    ensures n == 10 || n == width
  {
    if width < 10 then 10 else width
  }

  /**
    Number of '#' cells: the clamped percentage times the inner width,
    rounded half up, clamped into [0, inner].
  */
  function AsciiFill(percent: real, width: int): (full: nat)
    ensures full <= AsciiInner(width)
    ensures
      var filled := Clamp(percent, 0.0, 100.0) / 100.0 * AsciiInner(width) as real;
      full as real - 0.5 <= filled < full as real + 0.5
    ensures percent <= 0.0 ==> full == 0
    ensures percent >= 100.0 ==> full == AsciiInner(width)
  {
    var inner := AsciiInner(width);
    var p := Clamp(percent, 0.0, 100.0);
    var filled := (p / 100.0) * inner as real;
    assert filled <= inner as real by {
      assert p / 100.0 <= 1.0;
    }
    var full := (filled + 0.5).Floor;
    var clamped: int := if full < 0 then 0 else if full > inner then inner else full;
    clamped
  }

  /** `progress_bar` of src/torfrog.cpp. */
  function AsciiBar(percent: real, width: int): (r: string)
    ensures |r| == AsciiInner(width) + 2
    ensures r[0] == '[' && r[|r| - 1] == ']'
    ensures forall i :: 1 <= i < |r| - 1 ==> r[i] == '#' || r[i] == ' '
    ensures forall i :: 1 <= i < |r| - 1 ==> (r[i] == '#' <==> i <= AsciiFill(percent, width))
    ensures forall i, j :: 1 <= i < j < |r| - 1 && r[j] == '#' ==> r[i] == '#'
  {
    var inner := AsciiInner(width);
    var full := AsciiFill(percent, width);
    "[" + Repeat('#', full) + Repeat(' ', inner - full) + "]"
  }

  /** The bar holds exactly `AsciiFill` '#' cells. */
  lemma AsciiBarCount(percent: real, width: int)
    ensures Count(AsciiBar(percent, width), '#') == AsciiFill(percent, width)
  {
    var inner := AsciiInner(width);
    var full := AsciiFill(percent, width);
    var hashes := Repeat('#', full);
    var blanks := Repeat(' ', inner - full);
    assert AsciiBar(percent, width) == "[" + hashes + blanks + "]";
    CountAppend("[" + hashes + blanks, "]", '#');
    CountAppend("[" + hashes, blanks, '#');
    CountAppend("[", hashes, '#');
    CountRepeat('#', '#', full);
    CountRepeat(' ', '#', inner - full);
    assert Count("[", '#') == 0 by {
      assert "["[..0] == [];
    }
    assert Count("]", '#') == 0 by {
      assert "]"[..0] == [];
    }
  }

  /** Worked examples of the ASCII bar: empty, full, half and the 37.5% case. */
  lemma AsciiBarExamples()
    ensures AsciiFill(0.0, 48) == 0
    ensures AsciiFill(100.0, 48) == 48
    ensures AsciiFill(50.0, 10) == 5
    ensures AsciiFill(37.5, 48) == 18
    ensures AsciiInner(4) == 10 && |AsciiBar(50.0, 4)| == 12
  {
  }

  // ---------------------------------------------------------------------
  // Unicode build (src/TorFrog.cpp)
  // ---------------------------------------------------------------------

  const FullBlock: char := '\U{2588}'
  /** `partials[1..3]`: light, medium and dark shade. */
  const Shades: seq<char> := ['\U{2591}', '\U{2592}', '\U{2593}']

  /**
    Shade level of the partial cell: the remainder times 4, rounded half up,
    capped at 3 (0 = no partial cell).
  */
  function PartialLevel(frac: real): (k: nat)
    requires 0.0 <= frac < 1.0
    ensures k <= 3
    ensures k == 0 <==> frac < 0.125
    ensures k == 1 <==> 0.125 <= frac < 0.375
    ensures k == 2 <==> 0.375 <= frac < 0.625
    ensures k == 3 <==> 0.625 <= frac
  {
    var idx := (frac * 4.0 + 0.5).Floor;
    if idx > 3 then 3 else idx
  }

  /** Filled cell count before the partial cell: `int(cells)`. */
  function UnicodeFull(percent: real, width: nat): (full: nat)
    ensures full <= width
    ensures
      var cells := Clamp(percent, 0.0, 100.0) / 100.0 * width as real;
      full as real <= cells < full as real + 1.0
  {
    var p := Clamp(percent, 0.0, 100.0);
    var cells := p / 100.0 * width as real;
    assert cells <= width as real by {
      assert p / 100.0 <= 1.0;
    }
    cells.Floor
  }

  /** Shade level of the partial cell; 0 when no partial cell is drawn. */
  function UnicodePartial(percent: real, width: nat): (k: nat)
    ensures k <= 3
    ensures UnicodeFull(percent, width) == width ==> k == 0
  {
    var full := UnicodeFull(percent, width);
    var cells := Clamp(percent, 0.0, 100.0) / 100.0 * width as real;
    if full < width then PartialLevel(cells - full as real) else 0
  }

  /** Filled cells, the partial one included. */
  function UnicodeFilled(percent: real, width: nat): (n: nat)
    ensures n <= width
  {
    UnicodeFull(percent, width) + (if UnicodePartial(percent, width) > 0 then 1 else 0)
  }

  /** `progress_bar` of src/TorFrog.cpp. */
  function UnicodeBar(percent: real, width: nat): (r: string)
    ensures |r| == width + 2
    ensures r[0] == '[' && r[width + 1] == ']'
    ensures forall i :: 1 <= i <= UnicodeFull(percent, width) ==> r[i] == FullBlock
    ensures UnicodePartial(percent, width) > 0 ==>
      r[UnicodeFull(percent, width) + 1] == Shades[UnicodePartial(percent, width) - 1]
    ensures forall i :: UnicodeFilled(percent, width) < i <= width ==> r[i] == ' '
  {
    var full := UnicodeFull(percent, width);
    var level := UnicodePartial(percent, width);
    var partial := if level > 0 then [Shades[level - 1]] else [];
    "[" + Repeat(FullBlock, full) + partial + Repeat(' ', width - UnicodeFilled(percent, width)) + "]"
  }

  /** At 0% no cell is filled; at 100% every cell is a full block, with no partial cell. */
  lemma UnicodeBarEdges(percent: real, width: nat)
    ensures percent <= 0.0 ==> UnicodeFilled(percent, width) == 0
    ensures percent >= 100.0 ==>
      UnicodeFull(percent, width) == width && UnicodePartial(percent, width) == 0
  {
  }

  /**
    The remainder decides the partial cell: below 1/8 of a cell nothing is
    drawn, below 3/8 the light shade, below 5/8 the medium shade, and from
    5/8 on the dark shade.
  */
  lemma UnicodePartialThresholds(percent: real, width: nat)
    requires UnicodeFull(percent, width) < width
    ensures
      var frac := Clamp(percent, 0.0, 100.0) / 100.0 * width as real - UnicodeFull(percent, width) as real;
      && (frac < 0.125 <==> UnicodePartial(percent, width) == 0)
      && (0.125 <= frac < 0.375 <==> UnicodePartial(percent, width) == 1)
      && (0.375 <= frac < 0.625 <==> UnicodePartial(percent, width) == 2)
      && (frac >= 0.625 <==> UnicodePartial(percent, width) == 3)
  {
  }

  // ---------------------------------------------------------------------
  // Glyph-set selection in the Unicode build
  // ---------------------------------------------------------------------

  /**
    The bar src/TorFrog.cpp draws, as written: `progress_bar` is called with
    the same arguments whether or not `--ascii` was given.
  */
  function AsWrittenModeBar(ascii: bool, percent: real, width: nat): (r: string)
    ensures |r| == width + 2
    ensures !ascii ==> r == UnicodeBar(percent, width)
  {
    UnicodeBar(percent, width)
  }

  /** With `--ascii` the as-written bar still draws block glyphs. */
  lemma AsWrittenAsciiModeDrawsBlocks()
    ensures !IsAscii(AsWrittenModeBar(true, 50.0, 10))
    ensures AsWrittenModeBar(true, 50.0, 10)[1] == FullBlock
  {
  }

  /** The as-written bar does not depend on the `--ascii` flag at all. */
  lemma AsWrittenIgnoresAsciiFlag(percent: real, width: nat)
    ensures AsWrittenModeBar(true, percent, width) == AsWrittenModeBar(false, percent, width)
  {
  }

  /**
    Whenever at least one cell is filled, the as-written bar drawn under
    `--ascii` holds a character outside ASCII.
  */
  lemma AsWrittenAsciiModeNotAscii(percent: real, width: nat)
    ensures UnicodeFilled(percent, width) > 0 ==> !IsAscii(AsWrittenModeBar(true, percent, width))
  {
    var r := AsWrittenModeBar(true, percent, width);
    if UnicodeFilled(percent, width) > 0 {
      if UnicodeFull(percent, width) > 0 {
        assert r[1] == FullBlock;
      } else {
        var k := UnicodePartial(percent, width);
        assert r[1] == Shades[k - 1];
        assert Shades[k - 1] as int >= 128;
      }
    }
  }

  /**
    The bar with the ASCII fallback the Unicode build announces: whole-cell
    '#' bar when `--ascii` is given, block bar otherwise.
  */
  function ModeBar(ascii: bool, percent: real, width: nat): (r: string)
    ensures ascii ==> IsAscii(r)
    ensures width >= 10 ==> |r| == width + 2
    ensures !ascii ==> r == UnicodeBar(percent, width)
  {
    if ascii then AsciiBar(percent, width) else UnicodeBar(percent, width)
  }
}
