/**
  Spinner frame selection from the tick counter. The counter is a `size_t`
  incremented once per rendered frame; its wrap-around after 2^64 ticks is
  not modelled.
*/
module Spinner {

  /** The dash/slash rotation used in ASCII mode. */
  const AsciiFrames: seq<string> := ["-", "\\", "|", "/"]

  /** The braille rotation of the Unicode build. */
  const BrailleFrames: seq<string> := [
    "\U{280B}", "\U{2819}", "\U{2839}", "\U{2838}", "\U{283C}",
    "\U{2834}", "\U{2826}", "\U{2827}", "\U{2807}", "\U{280F}"
  ]

  /** Bitwise AND of two naturals, bit by bit from the least significant. */
  function BitAnd(a: nat, b: nat): (r: nat)
    ensures r <= a && r <= b
    decreases a
  {
    if a == 0 || b == 0 then 0
    else 2 * BitAnd(a / 2, b / 2) + (if a % 2 == 1 && b % 2 == 1 then 1 else 0)
  }

  /** Masking the two low bits (`n & 3`) is taking the remainder modulo 4. */
  lemma BitAndThreeIsMod4(n: nat)
    ensures BitAnd(n, 3) == n % 4
  {
  }

  /** `spinner_frame` of src/torfrog.cpp: always the ASCII rotation. */
  function AsciiBuildFrame(n: nat): (s: string)
    ensures s in AsciiFrames
  {
    BitAndThreeIsMod4(n);
    AsciiFrames[BitAnd(n, 3)]
  }

  /** `spinner_frame` of src/TorFrog.cpp: the rotation depends on the ASCII mode flag. */
  function UnicodeBuildFrame(ascii: bool, n: nat): (s: string)
    ensures ascii ==> s in AsciiFrames
    ensures !ascii ==> s in BrailleFrames
    ensures |s| == 1
  {
    if ascii then AsciiFrames[n % 4] else BrailleFrames[n % 10]
  }

  function Period(ascii: bool): nat {
    if ascii then 4 else 10
  }

  /** The frame depends only on the counter modulo the rotation's length. */
  lemma FrameIsPeriodic(ascii: bool, n: nat, m: nat)
    requires n % Period(ascii) == m % Period(ascii)
    ensures UnicodeBuildFrame(ascii, n) == UnicodeBuildFrame(ascii, m)
  {
  }

  /** Consecutive counters show consecutive frames of the rotation, wrapping around. */
  lemma FrameAdvances(ascii: bool, n: nat)
    ensures ascii ==> UnicodeBuildFrame(ascii, n + 1) == AsciiFrames[(n % 4 + 1) % 4]
    ensures !ascii ==> UnicodeBuildFrame(ascii, n + 1) == BrailleFrames[(n % 10 + 1) % 10]
  {
  }

  /** The ASCII build's `n & 3` picks the same frame as the Unicode build in ASCII mode. */
  lemma BuildsAgreeInAsciiMode(n: nat)
    ensures AsciiBuildFrame(n) == UnicodeBuildFrame(true, n)
  {
    BitAndThreeIsMod4(n);
  }
}
