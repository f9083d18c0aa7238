/**
  One render tick of the dashboard: the history update, the spinner step and
  the assembly of the ten-line status block, for each build.

  The block is the text written to standard output in one go; the screen
  clear and cursor-homing sequences written before it are terminal plumbing
  and not part of it. What the frame needs from outside the model is a
  parameter: the version string, the fixed-point rendering of doubles
  (`%.1f`, `std::fixed << std::setprecision`) and the absolute form of the
  save path.
*/
module Frame {
  import opened Text
  import Decimal
  import Humanize
  import ProgressBar
  import Spinner
  import Sparkline
  import RateHistory
  import CommandLine
  import Telemetry

  /** The configuration resolved from the command line before the loop starts. */
  datatype Config = Config(
    color: bool,
    clear: bool,
    ascii: bool,
    barWidth: int,
    savePath: string,
    sequential: bool,
    dlLimit: int,
    ulLimit: int)

  /** `--bar-width` is at least 10 after parsing; limits are never negative. */
  predicate ValidConfig(cfg: Config) {
    cfg.barWidth >= 10 && cfg.dlLimit >= 0 && cfg.ulLimit >= 0
  }

  /** Collaborators outside the model. */
  datatype Environment = Environment(
    version: string,
    fixed: (real, nat) -> string,
    absoluteSavePath: string)

  const Esc: char := '\U{1B}'
  const Reset: string := "\U{1B}[0m"
  const Bold: string := "\U{1B}[1m"
  const Dim: string := "\U{1B}[2m"
  const Green: string := "\U{1B}[32m"
  const Yellow: string := "\U{1B}[33m"
  const Blue: string := "\U{1B}[34m"
  const Magenta: string := "\U{1B}[35m"
  const Cyan: string := "\U{1B}[36m"
  const White: string := "\U{1B}[37m"

  /** Width of the sparkline field (`spark_w`). */
  const SparkWidth: int := 30

  /** `C(code)`: the colour code when colours are on, nothing otherwise. */
  function C(cfg: Config, code: string): (s: string)
    ensures !cfg.color ==> s == ""
    ensures cfg.color ==> s == code
  {
    if cfg.color then code else ""
  }

  /**
    `human_rate` as printed: digits, a blank and the unit. Below 1024 B/s the
    rate is printed whole in B/s; below 1024 KB/s it is printed in KB/s with
    one decimal; every unit ends in "/s".
  */
  function RateText(env: Environment, bps: real): (t: string)
    ensures bps < 1024.0 ==> t == env.fixed(bps, 0) + " B/s"
    ensures 1024.0 <= bps < 1048576.0 ==> t == env.fixed(bps / 1024.0, 1) + " KB/s"
    ensures |t| >= 2 && t[|t| - 2..] == "/s"
  {
    var h := Humanize.HumanRate(bps);
    env.fixed(h.mantissa, h.decimals) + " " + Humanize.RateUnits[h.unit]
  }

  /**
    `human_size` as printed: below 1024 bytes the count is printed whole in
    B, below 1024 KB it is printed in KB with one decimal.
  */
  function SizeText(env: Environment, b: int): (t: string)
    ensures b < 1024 ==> t == env.fixed(b as real, 0) + " B"
    ensures 1024 <= b < 1048576 ==> t == env.fixed(b as real / 1024.0, 1) + " KB"
  {
    var h := Humanize.HumanSize(b);
    env.fixed(h.mantissa, h.decimals) + " " + Humanize.SizeUnits[h.unit]
  }

  /** A configured rate limit, or "unlimited" for 0. */
  function LimitText(env: Environment, limit: int): (t: string)
    ensures t == "unlimited" <==> limit == 0
    ensures limit != 0 ==> t == RateText(env, limit as real)
  {
    if limit != 0 then RateText(env, limit as real) else "unlimited"
  }

  /** A plain `--max-down`/`--max-up` argument below 1024 is shown back in KB/s with one decimal. */
  lemma LimitShowsPlainArgument(env: Environment, n: nat)
    requires 0 < n < 1024
    ensures LimitText(env, CommandLine.ParseKibps(Decimal.NatToString(n))) == env.fixed(n as real, 1) + " KB/s"
  {
    CommandLine.ParseKibpsPlain(n);
    assert (n * 1024) as real / 1024.0 == n as real;
  }

  /** The trailing empty line of the block-stream (`--no-clear`) mode. */
  function StreamGap(cfg: Config): (gap: seq<string>)
    ensures |gap| == 0 <==> cfg.clear
    ensures |gap| <= 1
    ensures forall i :: 0 <= i < |gap| ==> gap[i] == ""
  {
    if cfg.clear then [] else [""]
  }

  // ---------------------------------------------------------------------
  // Lines of the status block
  // ---------------------------------------------------------------------

  /** Text wrapped in one colour code and a reset: `C(code) << text << C(C_RESET)`. */
  function Tinted(cfg: Config, code: string, text: string): (l: string)
    requires |code| > 0 && code[0] == Esc
    ensures cfg.color ==> |l| > 0 && l[0] == Esc
    ensures !cfg.color ==> l == text
  {
    C(cfg, code) + text + C(cfg, Reset)
  }

  /** The title line: spinner and program name in bold green, then the plain tail. */
  function TitleLine(cfg: Config, spinner: string, tail: string): (l: string)
    ensures cfg.color ==> |l| > 0 && l[0] == Esc
    ensures !cfg.color ==> l == spinner + " TorFrog" + tail
  {
    C(cfg, Bold) + C(cfg, Green) + spinner + " TorFrog" + C(cfg, Reset) + tail
  }

  /** The progress line: percentage, bar and ETA. */
  function ProgressLine(cfg: Config, percent: string, bar: string, eta: string): (l: string)
    ensures cfg.color ==> |l| > 0 && l[0] == Esc
    ensures !cfg.color ==> l == "Progress: " + percent + "% " + bar + "  " + eta
  {
    Tinted(cfg, Yellow, "Progress: " + percent + "% ")
    + Tinted(cfg, White, bar)
    + "  " + Tinted(cfg, White, eta)
  }

  /** The rates line: download rate, upload rate and peer count. */
  function RatesLine(cfg: Config, down: string, up: string, peers: string): (l: string)
    ensures cfg.color ==> |l| > 0 && l[0] == Esc
    ensures !cfg.color ==> l == "DL: " + down + "    UP: " + up + "    Peers: " + peers
  {
    Tinted(cfg, Green, "DL: " + down)
    + "    " + Tinted(cfg, Magenta, "UP: " + up)
    + "    " + Tinted(cfg, Cyan, "Peers: " + peers)
  }

  /** The completed/total line of src/TorFrog.cpp, each size in blue. */
  function UnicodeDoneLine(cfg: Config, done: string, wanted: string): (l: string)
    ensures cfg.color ==> |l| > 0 && l[0] == Esc
    ensures !cfg.color ==> l == "Done: " + done + " / " + wanted
  {
    Tinted(cfg, Blue, "Done: " + done) + " / " + Tinted(cfg, Blue, wanted)
  }

  /** The mode line of src/TorFrog.cpp: sequential flag in white, then the limits. */
  function UnicodeModeLine(cfg: Config, sequential: bool, down: string, up: string): (l: string)
    ensures cfg.color ==> |l| > 0 && l[0] == Esc
    ensures !cfg.color ==> l == "Seq: " + OnOff(sequential) + "    Limits: DL " + down + ", UP " + up
  {
    Tinted(cfg, White, "Seq: " + OnOff(sequential))
    + "    Limits: DL " + down + ", UP " + up + C(cfg, Reset)
  }

  /** The sequential flag as the mode line prints it. */
  function OnOff(b: bool): (s: string)
    ensures s == "ON" <==> b
    ensures s == "ON" || s == "OFF"
  {
    if b then "ON" else "OFF"
  }

  // ---------------------------------------------------------------------
  // The block, from its already rendered fields
  // ---------------------------------------------------------------------

  /** The values a block shows, each already rendered as text. */
  datatype Fields = Fields(
    spinner: string,
    tail: string,
    save: string,
    rule: string,
    percent: string,
    bar: string,
    eta: string,
    down: string,
    up: string,
    peers: string,
    trend: string,
    done: string,
    wanted: string,
    sequential: bool,
    dlLimit: string,
    ulLimit: string,
    name: string)

  predicate CleanFields(f: Fields) {
    && Esc !in f.spinner && Esc !in f.tail && Esc !in f.save && Esc !in f.rule
    && Esc !in f.percent && Esc !in f.bar && Esc !in f.eta
    && Esc !in f.down && Esc !in f.up && Esc !in f.peers && Esc !in f.trend
    && Esc !in f.done && Esc !in f.wanted && Esc !in f.dlLimit && Esc !in f.ulLimit
    && Esc !in f.name
  }

  /** The ten lines of src/TorFrog.cpp's block. */
  function UnicodeLines(cfg: Config, f: Fields): (lines: seq<string>)
    ensures |lines| == 10
    ensures !cfg.color ==>
      lines ==
      [ f.spinner + " TorFrog" + f.tail,
        "Save: " + f.save,
        f.rule,
        "Progress: " + f.percent + "% " + f.bar + "  " + f.eta,
        "DL: " + f.down + "    UP: " + f.up + "    Peers: " + f.peers,
        "DL trend: " + f.trend,
        "Done: " + f.done + " / " + f.wanted,
        "Seq: " + OnOff(f.sequential) + "    Limits: DL " + f.dlLimit + ", UP " + f.ulLimit,
        f.rule,
        "Name: " + f.name ]
  {
    [ TitleLine(cfg, f.spinner, f.tail),
      Tinted(cfg, Dim, "Save: " + f.save),
      Tinted(cfg, Green, f.rule),
      ProgressLine(cfg, f.percent, f.bar, f.eta),
      RatesLine(cfg, f.down, f.up, f.peers),
      Tinted(cfg, Dim, "DL trend: " + f.trend),
      UnicodeDoneLine(cfg, f.done, f.wanted),
      UnicodeModeLine(cfg, f.sequential, f.dlLimit, f.ulLimit),
      Tinted(cfg, Cyan, f.rule),
      Tinted(cfg, Dim, "Name: " + f.name) ]
  }

  /** The ten lines of src/torfrog.cpp's block. */
  function AsciiLines(cfg: Config, f: Fields): (lines: seq<string>)
    ensures |lines| == 10
    ensures !cfg.color ==>
      lines ==
      [ f.spinner + " TorFrog" + f.tail,
        "Save: " + f.save,
        f.rule,
        "Progress: " + f.percent + "% " + f.bar + "  " + f.eta,
        "DL: " + f.down + "    UP: " + f.up + "    Peers: " + f.peers,
        "DL trend: " + f.trend,
        "Done: " + f.done + " / " + f.wanted,
        "Seq: " + OnOff(f.sequential) + "   Limits: DL " + f.dlLimit + "  UP " + f.ulLimit,
        f.rule,
        "Name: " + f.name ]
  {
    [ TitleLine(cfg, f.spinner, f.tail),
      Tinted(cfg, Dim, "Save: " + f.save),
      Tinted(cfg, Green, f.rule),
      ProgressLine(cfg, f.percent, f.bar, f.eta),
      RatesLine(cfg, f.down, f.up, f.peers),
      Tinted(cfg, Dim, "DL trend: " + f.trend),
      Tinted(cfg, Dim, "Done: " + f.done + " / " + f.wanted),
      Tinted(cfg, Dim, "Seq: " + OnOff(f.sequential) + "   Limits: DL " + f.dlLimit + "  UP " + f.ulLimit),
      Tinted(cfg, Cyan, f.rule),
      Tinted(cfg, Dim, "Name: " + f.name) ]
  }

  /** With colours on, every line of either block opens with an escape sequence. */
  lemma ColourOnOpensEveryLine(cfg: Config, f: Fields)
    requires cfg.color
    ensures forall i :: 0 <= i < 10 ==> |UnicodeLines(cfg, f)[i]| > 0 && UnicodeLines(cfg, f)[i][0] == Esc
    ensures forall i :: 0 <= i < 10 ==> |AsciiLines(cfg, f)[i]| > 0 && AsciiLines(cfg, f)[i][0] == Esc
  {
  }

  /** With colours off, the Unicode build's lines add no escape character to clean fields. */
  lemma UnicodeColourOffAddsNoEscape(cfg: Config, f: Fields)
    requires !cfg.color && CleanFields(f)
    ensures NoEscape(UnicodeLines(cfg, f))
    ensures UnicodeLines(cfg, f)[2] == UnicodeLines(cfg, f)[8] == f.rule
  {
    SharedLinesPlain(cfg, f);
    assert Esc !in "Done: " + f.done + " / " + f.wanted;
    assert Esc !in "Seq: " + OnOff(f.sequential) + "    Limits: DL " + f.dlLimit + ", UP " + f.ulLimit;
  }

  /** With colours off, the ASCII build's lines add no escape character to clean fields. */
  lemma AsciiColourOffAddsNoEscape(cfg: Config, f: Fields)
    requires !cfg.color && CleanFields(f)
    ensures NoEscape(AsciiLines(cfg, f))
    ensures AsciiLines(cfg, f)[2] == AsciiLines(cfg, f)[8] == f.rule
  {
    SharedLinesPlain(cfg, f);
    assert Esc !in "Done: " + f.done + " / " + f.wanted;
    assert Esc !in "Seq: " + OnOff(f.sequential) + "   Limits: DL " + f.dlLimit + "  UP " + f.ulLimit;
  }

  /** The lines both builds share carry no escape character when colours are off. */
  lemma SharedLinesPlain(cfg: Config, f: Fields)
    requires !cfg.color && CleanFields(f)
    ensures Esc !in TitleLine(cfg, f.spinner, f.tail)
    ensures Esc !in Tinted(cfg, Dim, "Save: " + f.save)
    ensures Esc !in Tinted(cfg, Green, f.rule) && Esc !in Tinted(cfg, Cyan, f.rule)
    ensures Esc !in ProgressLine(cfg, f.percent, f.bar, f.eta)
    ensures Esc !in RatesLine(cfg, f.down, f.up, f.peers)
    ensures Esc !in Tinted(cfg, Dim, "DL trend: " + f.trend)
    ensures Esc !in Tinted(cfg, Dim, "Name: " + f.name)
  {
  }

  // ---------------------------------------------------------------------
  // Unicode build (src/TorFrog.cpp)
  // ---------------------------------------------------------------------

  /**
    The fields src/TorFrog.cpp renders for the history and spinner counter
    after the update. The bar is drawn by `progress_bar` whatever the glyph
    set: `--ascii` does not reach it.
  */
  function UnicodeFields(cfg: Config, env: Environment, st: Telemetry.Status, hist: seq<real>, spin: nat): (f: Fields)
    requires ValidConfig(cfg)
    ensures |f.spinner| == 1
    ensures |f.rule| >= 60 && |f.rule| >= cfg.barWidth + 12
    ensures forall i :: 0 <= i < |f.rule| ==> f.rule[i] == '='
    ensures |f.bar| == cfg.barWidth + 2 && f.bar[0] == '[' && f.bar[|f.bar| - 1] == ']'
    ensures f.eta == Humanize.EtaPlaceholder <==> !(st.downloadRate > 0.0 && st.totalWanted > st.totalDone)
    ensures |hist| > 0 ==> |f.trend| == SparkWidth
    ensures f.dlLimit == "unlimited" <==> cfg.dlLimit == 0
    ensures f.ulLimit == "unlimited" <==> cfg.ulLimit == 0
    ensures f.save == env.absoluteSavePath && f.name == st.name
    ensures cfg.ascii && ProgressBar.UnicodeFilled(Telemetry.ProgressPercent(st.progressPpm), cfg.barWidth) > 0 ==>
      !IsAscii(f.bar)
  {
    Telemetry.EtaPlaceholderIff(st);
    var prog := Telemetry.ProgressPercent(st.progressPpm);
    ProgressBar.AsWrittenAsciiModeNotAscii(prog, cfg.barWidth);
    var rule := Repeat('=', CommandLine.UnicodeBuildRuleWidth(cfg.barWidth));
    Fields(
      Spinner.UnicodeBuildFrame(cfg.ascii, spin),
      " " + env.version + " \U{2014} mini BitTorrent client",
      env.absoluteSavePath,
      rule,
      env.fixed(prog, 1),
      ProgressBar.AsWrittenModeBar(cfg.ascii, prog, cfg.barWidth),
      Humanize.FormatEta(Telemetry.StatusEta(st)),
      RateText(env, st.downloadRate),
      RateText(env, st.uploadRate),
      Decimal.IntToString(st.numPeers),
      Sparkline.Render(hist, SparkWidth),
      SizeText(env, st.totalDone),
      SizeText(env, st.totalWanted),
      cfg.sequential,
      LimitText(env, cfg.dlLimit),
      LimitText(env, cfg.ulLimit),
      st.name)
  }

  /** The status block of src/TorFrog.cpp. */
  function UnicodeBuildFrame(cfg: Config, env: Environment, st: Telemetry.Status, hist: seq<real>, spin: nat): (lines: seq<string>)
    requires ValidConfig(cfg)
    ensures |lines| == if cfg.clear then 10 else 11
  {
    UnicodeLines(cfg, UnicodeFields(cfg, env, st, hist, spin)) + StreamGap(cfg)
  }

  /**
    The block src/TorFrog.cpp evidently means to draw: the same as
    `UnicodeBuildFrame` except that under `--ascii` the progress line carries
    the whole-cell '#' bar instead of block glyphs.
  */
  function CorrectedUnicodeBuildFrame(cfg: Config, env: Environment, st: Telemetry.Status, hist: seq<real>, spin: nat): (lines: seq<string>)
    requires ValidConfig(cfg)
    ensures |lines| == |UnicodeBuildFrame(cfg, env, st, hist, spin)|
    ensures forall i :: 0 <= i < |lines| && i != 3 ==> lines[i] == UnicodeBuildFrame(cfg, env, st, hist, spin)[i]
    ensures !cfg.ascii ==> lines == UnicodeBuildFrame(cfg, env, st, hist, spin)
  {
    var f := UnicodeFields(cfg, env, st, hist, spin);
    var prog := Telemetry.ProgressPercent(st.progressPpm);
    var g := f.(bar := ProgressBar.ModeBar(cfg.ascii, prog, cfg.barWidth));
    assert UnicodeBuildFrame(cfg, env, st, hist, spin) == UnicodeLines(cfg, f) + StreamGap(cfg);
    BarOnlyInProgressLine(cfg, f, g.bar);
    assert !cfg.ascii ==> g == f by {
      if !cfg.ascii {
        assert f.bar == ProgressBar.AsWrittenModeBar(false, prog, cfg.barWidth);
      }
    }
    UnicodeLines(cfg, g) + StreamGap(cfg)
  }

  /** Replacing the bar changes no line of the block but the progress line. */
  lemma BarOnlyInProgressLine(cfg: Config, f: Fields, bar: string)
    ensures forall i :: 0 <= i < 10 && i != 3 ==> UnicodeLines(cfg, f.(bar := bar))[i] == UnicodeLines(cfg, f)[i]
    ensures forall i :: 0 <= i < 10 + |StreamGap(cfg)| && i != 3 ==>
      (UnicodeLines(cfg, f.(bar := bar)) + StreamGap(cfg))[i] == (UnicodeLines(cfg, f) + StreamGap(cfg))[i]
  {
  }

  /** What persists from one render tick to the next. */
  datatype UnicodeState = UnicodeState(hist: seq<real>, spin: nat)

  predicate ValidUnicodeState(s: UnicodeState) {
    |s.hist| <= RateHistory.Capacity
  }

  /**
    One render tick of src/TorFrog.cpp: advance the spinner, push the
    download rate into the deque history, and draw the block.
  */
  function UnicodeTick(cfg: Config, env: Environment, s: UnicodeState, st: Telemetry.Status): (r: (UnicodeState, seq<string>))
    requires ValidConfig(cfg) && ValidUnicodeState(s)
    ensures ValidUnicodeState(r.0)
    ensures r.0.spin == s.spin + 1
    ensures r.0.hist == RateHistory.DequePush(s.hist, st.downloadRate)
    ensures |r.1| == if cfg.clear then 10 else 11
  {
    var s' := UnicodeState(RateHistory.DequePush(s.hist, st.downloadRate), s.spin + 1);
    (s', UnicodeBuildFrame(cfg, env, st, s'.hist, s'.spin))
  }

  // ---------------------------------------------------------------------
  // ASCII build (src/torfrog.cpp)
  // ---------------------------------------------------------------------

  /** The fields src/torfrog.cpp renders for the history and spinner counter after the update. */
  function AsciiFields(cfg: Config, env: Environment, st: Telemetry.Status, h: RateHistory.DlHist, spin: nat): (f: Fields)
    requires ValidConfig(cfg) && RateHistory.Valid(h)
    ensures f.spinner in Spinner.AsciiFrames
    ensures |f.rule| >= 60 && |f.rule| >= cfg.barWidth + 18
    ensures forall i :: 0 <= i < |f.rule| ==> f.rule[i] == '='
    ensures |f.bar| == cfg.barWidth + 2 && IsAscii(f.bar)
    ensures f.eta == Humanize.EtaPlaceholder <==> !(st.downloadRate > 0.0 && st.totalWanted > st.totalDone)
    ensures |RateHistory.Contents(h)| > 0 ==> |f.trend| == SparkWidth
    ensures f.dlLimit == "unlimited" <==> cfg.dlLimit == 0
    ensures f.ulLimit == "unlimited" <==> cfg.ulLimit == 0
    ensures f.save == cfg.savePath && f.name == st.name
  {
    Telemetry.EtaPlaceholderIff(st);
    var prog := Telemetry.ProgressPercent(st.progressPpm);
    var rule := Repeat('=', CommandLine.AsciiBuildRuleWidth(cfg.barWidth));
    var bar := ProgressBar.AsciiBar(prog, cfg.barWidth);
    assert IsAscii(bar) by {
      assert bar == ProgressBar.ModeBar(true, prog, cfg.barWidth);
    }
    Fields(
      Spinner.AsciiBuildFrame(spin),
      " " + env.version,
      cfg.savePath,
      rule,
      env.fixed(prog, 1),
      bar,
      Humanize.FormatEta(Telemetry.StatusEta(st)),
      RateText(env, st.downloadRate),
      RateText(env, st.uploadRate),
      Decimal.IntToString(st.numPeers),
      Sparkline.Render(RateHistory.Contents(h), SparkWidth),
      SizeText(env, st.totalDone),
      SizeText(env, st.totalWanted),
      cfg.sequential,
      LimitText(env, cfg.dlLimit),
      LimitText(env, cfg.ulLimit),
      st.name)
  }

  /** The status block of src/torfrog.cpp. */
  function AsciiBuildFrame(cfg: Config, env: Environment, st: Telemetry.Status, h: RateHistory.DlHist, spin: nat): (lines: seq<string>)
    requires ValidConfig(cfg) && RateHistory.Valid(h)
    ensures |lines| == if cfg.clear then 10 else 11
  {
    AsciiLines(cfg, AsciiFields(cfg, env, st, h, spin)) + StreamGap(cfg)
  }

  /** What persists from one render tick to the next in src/torfrog.cpp. */
  datatype AsciiState = AsciiState(hist: RateHistory.DlHist, spin: nat)

  /**
    One render tick of src/torfrog.cpp: advance the spinner, push the
    download rate into the array history, and draw the block.
  */
  function AsciiTick(cfg: Config, env: Environment, s: AsciiState, st: Telemetry.Status): (r: (AsciiState, seq<string>))
    requires ValidConfig(cfg) && RateHistory.Valid(s.hist)
    ensures RateHistory.Valid(r.0.hist)
    ensures r.0.spin == s.spin + 1
    ensures RateHistory.Contents(r.0.hist) == RateHistory.DequePush(RateHistory.Contents(s.hist), st.downloadRate)
    ensures |r.1| == if cfg.clear then 10 else 11
  {
    RateHistory.PushMatchesDeque(s.hist, st.downloadRate);
    var s' := AsciiState(RateHistory.Push(s.hist, st.downloadRate), s.spin + 1);
    (s', AsciiBuildFrame(cfg, env, st, s'.hist, s'.spin))
  }

  /** Text from outside the model carries no escape character. */
  ghost predicate CleanEnvironment(env: Environment) {
    && Esc !in env.version
    && Esc !in env.absoluteSavePath
    && forall x: real, d: nat :: Esc !in env.fixed(x, d)
  }

  predicate NoEscape(lines: seq<string>) {
    forall i :: 0 <= i < |lines| ==> Esc !in lines[i]
  }

  lemma DigitsHaveNoEscape(s: string)
    requires Decimal.AllDigits(s)
    ensures Esc !in s
  {
  }

  lemma IntTextHasNoEscape(x: int)
    ensures Esc !in Decimal.IntToString(x)
  {
    var s := Decimal.IntToString(x);
    if x >= 0 {
      DigitsHaveNoEscape(s);
    } else {
      DigitsHaveNoEscape(s[1..]);
      assert s == [s[0]] + s[1..];
    }
  }

  lemma EtaTextHasNoEscape(d: Humanize.Double)
    ensures Esc !in Humanize.FormatEta(d)
  {
  }

  lemma SparklineHasNoEscape(values: seq<real>, width: int)
    ensures Esc !in Sparkline.Render(values, width)
  {
    var r := Sparkline.Render(values, width);
    assert Esc !in Sparkline.Levels;
    forall i | 0 <= i < |r|
      ensures r[i] != Esc
    {
      assert r[i] in Sparkline.Levels;
    }
  }

  lemma BarsHaveNoEscape(ascii: bool, percent: real, width: nat)
    ensures Esc !in ProgressBar.AsciiBar(percent, width)
    ensures Esc !in ProgressBar.ModeBar(ascii, percent, width)
    ensures Esc !in ProgressBar.AsWrittenModeBar(ascii, percent, width)
  {
  }

  lemma SpinnerHasNoEscape(ascii: bool, n: nat)
    ensures Esc !in Spinner.UnicodeBuildFrame(ascii, n)
    ensures Esc !in Spinner.AsciiBuildFrame(n)
  {
  }

  /** Every field the Unicode build renders is free of escape characters in a clean environment. */
  lemma UnicodeFieldsClean(cfg: Config, env: Environment, st: Telemetry.Status, hist: seq<real>, spin: nat)
    requires ValidConfig(cfg)
    requires CleanEnvironment(env) && Esc !in st.name
    ensures CleanFields(UnicodeFields(cfg, env, st, hist, spin))
  {
    var prog := Telemetry.ProgressPercent(st.progressPpm);
    SpinnerHasNoEscape(cfg.ascii, spin);
    TitleTailHasNoEscape(env.version);
    RuleHasNoEscape(CommandLine.UnicodeBuildRuleWidth(cfg.barWidth));
    assert Esc !in env.fixed(prog, 1);
    BarsHaveNoEscape(cfg.ascii, prog, cfg.barWidth);
    EtaTextHasNoEscape(Telemetry.StatusEta(st));
    RateTextHasNoEscape(env, st.downloadRate);
    RateTextHasNoEscape(env, st.uploadRate);
    IntTextHasNoEscape(st.numPeers);
    SparklineHasNoEscape(hist, SparkWidth);
    SizeTextHasNoEscape(env, st.totalDone);
    SizeTextHasNoEscape(env, st.totalWanted);
    LimitTextHasNoEscape(env, cfg.dlLimit);
    LimitTextHasNoEscape(env, cfg.ulLimit);
  }

  /** With colours off, the Unicode build's block holds no escape character at all. */
  lemma UnicodeFrameColourOff(cfg: Config, env: Environment, st: Telemetry.Status, hist: seq<real>, spin: nat)
    requires ValidConfig(cfg) && !cfg.color
    requires CleanEnvironment(env) && Esc !in st.name
    ensures NoEscape(UnicodeBuildFrame(cfg, env, st, hist, spin))
  {
    var f := UnicodeFields(cfg, env, st, hist, spin);
    UnicodeFieldsClean(cfg, env, st, hist, spin);
    UnicodeColourOffAddsNoEscape(cfg, f);
    StreamGapAddsNoEscape(cfg, UnicodeLines(cfg, f));
  }

  /** Every field the ASCII build renders is free of escape characters in a clean environment. */
  lemma AsciiFieldsClean(cfg: Config, env: Environment, st: Telemetry.Status, h: RateHistory.DlHist, spin: nat)
    requires ValidConfig(cfg) && RateHistory.Valid(h)
    requires CleanEnvironment(env) && Esc !in st.name && Esc !in cfg.savePath
    ensures CleanFields(AsciiFields(cfg, env, st, h, spin))
  {
    var prog := Telemetry.ProgressPercent(st.progressPpm);
    SpinnerHasNoEscape(cfg.ascii, spin);
    RuleHasNoEscape(CommandLine.AsciiBuildRuleWidth(cfg.barWidth));
    assert Esc !in env.fixed(prog, 1);
    BarsHaveNoEscape(cfg.ascii, prog, cfg.barWidth);
    EtaTextHasNoEscape(Telemetry.StatusEta(st));
    RateTextHasNoEscape(env, st.downloadRate);
    RateTextHasNoEscape(env, st.uploadRate);
    IntTextHasNoEscape(st.numPeers);
    SparklineHasNoEscape(RateHistory.Contents(h), SparkWidth);
    SizeTextHasNoEscape(env, st.totalDone);
    SizeTextHasNoEscape(env, st.totalWanted);
    LimitTextHasNoEscape(env, cfg.dlLimit);
    LimitTextHasNoEscape(env, cfg.ulLimit);
  }

  /** With colours off, the ASCII build's block holds no escape character at all. */
  lemma AsciiFrameColourOff(cfg: Config, env: Environment, st: Telemetry.Status, h: RateHistory.DlHist, spin: nat)
    requires ValidConfig(cfg) && RateHistory.Valid(h) && !cfg.color
    requires CleanEnvironment(env) && Esc !in st.name && Esc !in cfg.savePath
    ensures NoEscape(AsciiBuildFrame(cfg, env, st, h, spin))
  {
    var f := AsciiFields(cfg, env, st, h, spin);
    AsciiFieldsClean(cfg, env, st, h, spin);
    AsciiColourOffAddsNoEscape(cfg, f);
    StreamGapAddsNoEscape(cfg, AsciiLines(cfg, f));
  }

  /** The block-stream blank line adds no escape character. */
  lemma StreamGapAddsNoEscape(cfg: Config, lines: seq<string>)
    requires NoEscape(lines)
    ensures NoEscape(lines + StreamGap(cfg))
  {
  }

  lemma TitleTailHasNoEscape(version: string)
    requires Esc !in version
    ensures Esc !in " " + version + " \U{2014} mini BitTorrent client"
  {
  }

  lemma RuleHasNoEscape(n: nat)
    ensures Esc !in Repeat('=', n)
  {
  }

  lemma RateTextHasNoEscape(env: Environment, bps: real)
    requires CleanEnvironment(env)
    ensures Esc !in RateText(env, bps)
  {
  }

  lemma SizeTextHasNoEscape(env: Environment, b: int)
    requires CleanEnvironment(env)
    ensures Esc !in SizeText(env, b)
  {
  }

  lemma LimitTextHasNoEscape(env: Environment, limit: int)
    requires CleanEnvironment(env)
    ensures Esc !in LimitText(env, limit)
  {
  }

  /**
    Worked example: 37.5% done at 1,572,864 B/s with a 48-cell
    bar shows 18 '#' cells and "1.5 MB/s" in the ASCII build.
  */
  lemma AsciiFrameExample(env: Environment)
    ensures ProgressBar.AsciiFill(Telemetry.ProgressPercent(375000), 48) == 18
    ensures Count(ProgressBar.AsciiBar(Telemetry.ProgressPercent(375000), 48), '#') == 18
    ensures RateText(env, 1572864.0) == env.fixed(1.5, 1) + " MB/s"
  {
    assert Telemetry.ProgressPercent(375000) == 37.5;
    ProgressBar.AsciiBarCount(37.5, 48);
    Humanize.HumanRateExample();
  }
}
