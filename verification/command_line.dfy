/**
  The command-line values the dashboard depends on: the rate-limit argument
  parser `parse_kibps`, the `--bar-width` floor, the separator-rule width
  derived from it, and the magnet-link test on the first argument.
*/
module CommandLine {
  import opened Decimal

  // ---------------------------------------------------------------------
  // parse_kibps (both builds)
  // ---------------------------------------------------------------------

  /** The unit suffixes `parse_kibps` strips; none is a digit, so no digit of the number is cut off. */
  predicate IsRateSuffix(c: char)
    ensures IsRateSuffix(c) ==> !IsDigit(c) && !IsSpace(c) && c != '-' && c != '+'
  {
    c == 'k' || c == 'K' || c == 'm' || c == 'M' || c == 'g' || c == 'G'
  }

  /** Extra factors of 1024 a suffix adds on top of KiB: 0 for k, 1 for m, 2 for g. */
  function SuffixPower(c: char): (p: nat)
    ensures (c == 'm' || c == 'M') <==> p == 1
    ensures (c == 'g' || c == 'G') <==> p == 2
    ensures !(c == 'm' || c == 'M' || c == 'g' || c == 'G') <==> p == 0
  {
    if c == 'm' || c == 'M' then 1 else if c == 'g' || c == 'G' then 2 else 0
  }

  /** 1024 raised to the power `k`. */
  function KibiPower(k: nat): (p: nat)
    ensures p >= 1
    ensures k > 0 ==> p >= 1024 && p % 1024 == 0
  {
    if k == 0 then 1 else 1024 * KibiPower(k - 1)
  }

  /** `for (i = 0; i < pow2; ++i) kib *= 1024;` */
  function TimesKibi(kib: int, pow2: nat): (r: int)
    ensures r == kib * KibiPower(pow2)
    ensures kib >= 0 ==> r >= 0
  {
    if pow2 == 0 then kib
    else
      var prev := TimesKibi(kib, pow2 - 1);
      assert 1024 * (kib * KibiPower(pow2 - 1)) == kib * (1024 * KibiPower(pow2 - 1));
      1024 * prev
  }

  /**
    `parse_kibps`: a rate argument in KiB/s (suffix k/K), MiB/s (m/M) or
    GiB/s (g/G), unsuffixed meaning KiB/s, converted to bytes per second.
    The empty string and negative values mean 0 (unlimited).
  */
  function ParseKibps(s: string): (bps: int)
    ensures bps >= 0
    ensures bps % 1024 == 0
    ensures s == "" ==> bps == 0
  {
    if |s| == 0 then 0
    else
      var suf := s[|s| - 1];
      var num := if IsRateSuffix(suf) then s[..|s| - 1] else s;
      var pow2 := if IsRateSuffix(suf) then SuffixPower(suf) else 0;
      var val := StrToLL(num);
      var kib := if val < 0 then 0 else val;
      TimesKibi(kib, pow2) * 1024
  }

  /** An unsuffixed number is read as KiB/s. */
  lemma ParseKibpsPlain(n: nat)
    ensures ParseKibps(NatToString(n)) == n * 1024
  {
    var d := NatToString(n);
    StrToLLOfRendered(n, "");
    assert d + "" == d;
    assert !IsRateSuffix(d[|d| - 1]);
  }

  /** A suffixed number is read with the suffix's extra factors of 1024. */
  lemma ParseKibpsSuffixed(n: nat, c: char)
    requires IsRateSuffix(c)
    ensures ParseKibps(NatToString(n) + [c]) == TimesKibi(n, SuffixPower(c)) * 1024
  {
    var d := NatToString(n);
    StrToLLOfRendered(n, "");
    assert d + "" == d;
    assert (d + [c])[..|d|] == d;
  }

  /** A plain number is KiB/s; k, m and g scale it by 1024, 1024^2 and 1024^3. */
  lemma ParseKibpsUnits(n: nat)
    ensures ParseKibps(NatToString(n)) == n * 1024
    ensures ParseKibps(NatToString(n) + "k") == n * 1024
    ensures ParseKibps(NatToString(n) + "K") == n * 1024
    ensures ParseKibps(NatToString(n) + "m") == n * 1024 * 1024
    ensures ParseKibps(NatToString(n) + "M") == n * 1024 * 1024
    ensures ParseKibps(NatToString(n) + "g") == n * 1024 * 1024 * 1024
    ensures ParseKibps(NatToString(n) + "G") == n * 1024 * 1024 * 1024
  {
    assert TimesKibi(n, 1) == 1024 * n;
    assert TimesKibi(n, 2) == 1024 * (1024 * n);
    ParseKibpsPlain(n);
    ParseKibpsSuffixed(n, 'k');
    ParseKibpsSuffixed(n, 'K');
    ParseKibpsSuffixed(n, 'm');
    ParseKibpsSuffixed(n, 'M');
    ParseKibpsSuffixed(n, 'g');
    ParseKibpsSuffixed(n, 'G');
  }

  /** A negative rate is clamped to 0 whatever its suffix. */
  lemma ParseKibpsNegative(n: nat, suffix: string)
    requires suffix == "" || (|suffix| == 1 && IsRateSuffix(suffix[0]))
    ensures ParseKibps("-" + NatToString(n) + suffix) == 0
  {
    var d := NatToString(n);
    var s := "-" + d + suffix;
    if suffix == "" {
      assert s == "-" + d + "";
      StrToLLOfNegated(n, "");
      assert !IsRateSuffix(s[|s| - 1]);
    } else {
      assert s[..|s| - 1] == "-" + d + "";
      StrToLLOfNegated(n, "");
    }
  }

  // ---------------------------------------------------------------------
  // --bar-width and the separator rule
  // ---------------------------------------------------------------------

  /** `--bar-width` in src/torfrog.cpp: `atoi`, then raised to 10 when below. */
  function AsciiBuildBarWidth(arg: string): (w: int)
    ensures w >= 10
    ensures StrToLL(arg) >= 10 ==> w == StrToLL(arg)
    ensures StrToLL(arg) < 10 ==> w == 10
  {
    var bw := StrToLL(arg);
    if bw < 10 then 10 else bw
  }

  /** `--bar-width` in src/TorFrog.cpp: `std::max(10, atoi(arg))`. */
  function UnicodeBuildBarWidth(arg: string): (w: int)
    ensures w >= 10 && w >= StrToLL(arg)
    ensures w == 10 || w == StrToLL(arg)
  {
    var bw := StrToLL(arg);
    if 10 < bw then bw else 10
  }

  /** Both builds read the same bar width from the same argument. */
  lemma BarWidthBuildsAgree(arg: string)
    ensures AsciiBuildBarWidth(arg) == UnicodeBuildBarWidth(arg)
  {
  }

  /** Length of the '=' rule in src/torfrog.cpp: at least 60, at least the bar width plus 18. */
  function AsciiBuildRuleWidth(barWidth: int): (w: int)
    ensures w >= 60 && w >= barWidth + 18
    ensures w == 60 || w == barWidth + 18
  {
    var lineW := barWidth + 18;
    if lineW < 60 then 60 else lineW
  }

  /** Length of the '=' rule in src/TorFrog.cpp: `std::max(60, bar_width + 12)`. */
  function UnicodeBuildRuleWidth(barWidth: int): (w: int)
    ensures w >= 60 && w >= barWidth + 12
    ensures w == 60 || w == barWidth + 12
  {
    if 60 < barWidth + 12 then barWidth + 12 else 60
  }

  // ---------------------------------------------------------------------
  // is_magnet (both builds)
  // ---------------------------------------------------------------------

  predicate OccursAt(s: string, pat: string, i: nat) {
    i + |pat| <= |s| && s[i..i + |pat|] == pat
  }

  datatype Position = NotFound | Found(index: nat)

  /**
    `s.rfind(pat, pos)`: the last position not after `pos` where `pat`
    occurs in `s`, scanning down from `pos`.
  */
  function RFind(s: string, pat: string, pos: nat): (r: Position)
    ensures r.Found? ==> r.index <= pos && OccursAt(s, pat, r.index)
    ensures r.Found? ==> forall j: nat :: r.index < j <= pos ==> !OccursAt(s, pat, j)
    ensures r.NotFound? ==> forall j: nat :: j <= pos ==> !OccursAt(s, pat, j)
    decreases pos
  {
    if OccursAt(s, pat, pos) then Found(pos)
    else if pos == 0 then NotFound
    else RFind(s, pat, pos - 1)
  }

  const MagnetPrefix: string := "magnet:?"

  /** `is_magnet`: `rfind("magnet:?", 0) == 0`. */
  function IsMagnet(s: string): (b: bool)
    ensures b <==> MagnetPrefix <= s
  {
    RFind(s, MagnetPrefix, 0) == Found(0)
  }
}
