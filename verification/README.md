# TorFrog telemetry core in Dafny

TorFrog is a small terminal BitTorrent client. Its dashboard polls the
torrent engine and redraws a ten-line status block: a spinner and title, the
save path, a `=` rule, a progress bar with percentage and ETA, the
download/upload rates and peer count, a sparkline of the recent download
rate, the completed/total sizes, the sequential flag and rate limits, a
second rule, and the torrent name.

The repository has two near-identical builds of this dashboard:

- `src/torfrog.cpp` is the ASCII build. It has a whole-cell `#` bar, a
  dash/slash spinner, a fixed 200-slot history array (`DlHist`), and builds
  the frame in one string.
- `src/TorFrog.cpp` is the Unicode build. It has a block bar with shaded
  partial cells, a braille spinner that falls back to ASCII in `--ascii`
  mode, a `std::deque` history, and stream output.

This project models both builds and proves properties of the model:

- the unit scaling of `human_rate` and `human_size`;
- `format_eta`;
- both progress bars;
- both spinners;
- both rate histories;
- the sparkline;
- `parse_kibps`;
- the `--bar-width` floor and the separator width;
- `is_magnet`;
- the per-tick progress, remaining-bytes and ETA derivation;
- the assembly of both status blocks, including the guarantee that no escape
  character appears when colours are off.

Modules, one per file:

| module | file | contents |
|---|---|---|
| `Decimal` | decimal.dfy | integer rendering (`%ld`, `%lld`) and `strtoll`/`atoi` reading |
| `Text` | text.dfy | `std::string(k, c)`, occurrence counting, the ASCII predicate |
| `Humanize` | humanize.dfy | `human_rate`, `human_size`, `format_eta` |
| `ProgressBar` | progress_bar.dfy | `clamp_double`, both `progress_bar`s, the `--ascii` bar selection |
| `Spinner` | spinner.dfy | both `spinner_frame`s |
| `RateHistory` | rate_history.dfy | `DlHist` and its `memmove` push, the deque push, the 200-sample window |
| `Sparkline` | sparkline.dfy | `sparkline` over a sequence and over the `DlHist` array |
| `CommandLine` | command_line.dfy | `parse_kibps`, bar width, separator width, `is_magnet` |
| `Telemetry` | telemetry.dfy | progress percentage, remaining bytes, ETA seconds |
| `Frame` | frame.dfy | the lines of each block, one render tick, colour-off output |

Modelling choices:

- **Doubles are `real`.** `(int)x` and `long(x)` of a non-negative value are
  `.Floor`. `format_eta` takes a `Double` that can also be NaN or ±infinity.
- **Glyphs are Unicode scalar values.** A block, shade or braille glyph is one
  `char`, so a bar cell is one character.
- **Digits of doubles are a parameter.** The `%.1f` / `std::fixed` rendering of
  a double is the frame builder's `fixed` parameter. A humanized quantity is
  modelled as its mantissa, its unit index and its number of decimals.
- **Integers are unbounded.** Integer printing is exact. `strtoll` and
  `atoi` are modelled by the same reader: its white-space skip, optional sign
  and digit run are modelled, its saturation at the 64-bit limits and the
  `int` width of `atoi` are not (see Left out).
- **Outside values are parameters.** The version string and
  `fs::absolute(save_path)` are fields of an `Environment` value.

Where the code's own comments and help text promise more than the code does,
the model follows the code:

- Only the ASCII build raises the bar's cell count to 10. The Unicode
  `progress_bar` uses `width` as given, and relies on `--bar-width` parsing
  to keep it at 10 or more.
- The comment on src/TorFrog.cpp:121 promises an ASCII fallback in
  `progress_bar`, and the help text (src/TorFrog.cpp:17 and :188) describes
  `--ascii` as "no Unicode blocks". The function never reads `g_ascii`, and
  the frame (src/TorFrog.cpp:324) calls it with the same arguments in either
  mode. `Frame.UnicodeBuildFrame` draws this as-written bar; the intended
  bar is `Frame.CorrectedUnicodeBuildFrame`. See Findings.

## Model

| member | source | states |
|---|---|---|
| Decimal.NatToString | src/torfrog.cpp:134-138 | a natural is rendered as a non-empty digit string with no leading zero |
| Decimal.IntToString | src/torfrog.cpp:134-138 | a signed integer is rendered as digits, with a leading '-' exactly when it is negative; the digits read back as the absolute value |
| Decimal.DigitsValueOfNatToString | src/torfrog.cpp:134-138 | reading the rendered digits back gives the number |
| Decimal.DigitRun | src/torfrog.cpp:373 | the digit run `strtoll` consumes is all digits and stops at the first non-digit |
| Decimal.SpaceRun | src/torfrog.cpp:373 | the white-space run `strtoll` skips: every character before it is white space and the one after it is not |
| Decimal.StrToLL | src/torfrog.cpp:373 | text that is all white space, or whose first non-space character is neither a digit nor a sign, reads as 0; a negative result needs a '-' right after the white space |
| Decimal.StrToLLOfRendered | src/torfrog.cpp:373 | `strtoll` of a rendered natural, followed by a non-digit or nothing, returns that natural |
| Decimal.StrToLLOfNegated | src/torfrog.cpp:373 | `strtoll` of '-' and a rendered natural returns its negation |
| Decimal.StrToLLSkipsSpace | src/torfrog.cpp:373 | any leading run of C white space (blank, tab, newline, vertical tab, form feed, carriage return) does not change the value `strtoll` reads |
| Decimal.DigitRunOfDigits | src/torfrog.cpp:373 | the digit run of a digit string followed by a non-digit is the whole digit string |
| Text.Repeat | src/torfrog.cpp:506 | `std::string(k, c)` is exactly k copies of c |
| Humanize.ScaleSteps | src/torfrog.cpp:155 | the scaling loop stops within the cap; mantissa × 1024^steps equals the input; the mantissa is below 1024 unless the cap was hit, and at least 1 after any division |
| Humanize.UnitFitsUnique | src/torfrog.cpp:155 | at most one unit index satisfies the reference definition of the chosen unit |
| Humanize.ScaleStepsFits | src/torfrog.cpp:155 | the loop's unit is the unit of the reference definition |
| Humanize.Humanized | src/TorFrog.cpp:100-109 | the scaled quantity denotes the input, its unit fits, and it has 0 decimals exactly in the base unit |
| Humanize.HumanRate | src/torfrog.cpp:152-161 | the rate's unit is one of B/s..GB/s, it is the fitting unit with cap 3, mantissa × unit equals the rate, and decimals are 0 only for B/s |
| Humanize.HumanSize | src/torfrog.cpp:163-172 | the size's unit is one of B..TB, it is the fitting unit with cap 4, mantissa × unit equals the byte count, and decimals are 0 only for B |
| Humanize.HumanRateExample | src/torfrog.cpp:152-161 | 1,572,864 B/s is 1.5 in unit MB/s with one decimal |
| Humanize.RoundHalfUp | src/torfrog.cpp:176 | `(long)(x + 0.5)` is the nearest whole number to a positive x, halves rounded up |
| Humanize.SplitSeconds | src/torfrog.cpp:177-178 | whole seconds split into hours, minutes < 60 and seconds < 60 that add back to the total |
| Humanize.EtaClock | src/torfrog.cpp:174-178 | no clock exactly when the input is not a positive finite number; otherwise the clock's total is within half a second of the input |
| Humanize.ClockText | src/torfrog.cpp:180-181 | the text starts with "ETA " and ends with 's'; it has an 'h' exactly when the hour count is non-zero; it has no '-', so it is never the placeholder |
| Humanize.FormatEta | src/torfrog.cpp:174-183 | the placeholder "ETA --:--" exactly when the input is not a positive finite number; otherwise the clock text of the rounded time |
| Humanize.EtaHourShown | src/torfrog.cpp:180-181 | the text has an hour part exactly when the input rounds to at least 3600 seconds |
| Humanize.FormatEtaPlaceholderExamples | src/TorFrog.cpp:112 | 0, -5, NaN and +inf give the placeholder "ETA --:--" |
| Humanize.FormatEtaHourExample | src/TorFrog.cpp:113-118 | 3661 seconds give "ETA 1h 1m 1s" |
| Humanize.FormatEtaRoundingExamples | src/TorFrog.cpp:113-118 | 90 and 89.5 seconds both give "ETA 1m 30s" |
| ProgressBar.Clamp | src/torfrog.cpp:128-132 | the result lies in [lo, hi], equals v when v is in range, and is the point of [lo, hi] nearest to v |
| ProgressBar.AsciiInner | src/torfrog.cpp:191-192 | the inner width is the requested width raised to at least 10 |
| ProgressBar.AsciiFill | src/torfrog.cpp:189-196 | the '#' count is at most the inner width and within half a cell of the exact filled amount; 0 at or below 0%, full at or above 100% |
| ProgressBar.AsciiBar | src/torfrog.cpp:189-205 | the bar is inner + 2 characters between brackets; cell i is '#' exactly for i ≤ the fill count, else ' '; no ' ' precedes a '#' |
| ProgressBar.AsciiBarCount | src/torfrog.cpp:198-204 | the bar holds exactly the fill count of '#' characters |
| ProgressBar.AsciiBarExamples | src/torfrog.cpp:189-205 | 0% and 100% of 48 cells fill 0 and 48; 50% of 10 fills 5; 37.5% of 48 fills 18; width 4 gives 12 characters |
| ProgressBar.PartialLevel | src/TorFrog.cpp:136-138 | the shade level is 0, 1, 2 or 3 as the remainder is below 1/8, below 3/8, below 5/8, or from 5/8 on |
| ProgressBar.UnicodeFull | src/TorFrog.cpp:122-125 | the full-block count is the whole part of the exact cell count, at most the width |
| ProgressBar.UnicodePartial | src/TorFrog.cpp:135-139 | the partial shade level is at most 3 and is 0 when every cell is full |
| ProgressBar.UnicodeFilled | src/TorFrog.cpp:135-141 | full and partial cells together never exceed the width |
| ProgressBar.UnicodeBar | src/TorFrog.cpp:122-144 | the bar is width + 2 characters between brackets: full blocks first, then the shade at the next cell when there is one, then blanks |
| ProgressBar.UnicodeBarEdges | src/TorFrog.cpp:122-144 | at 0% no cell is filled; at 100% every cell is a full block, with no partial cell |
| ProgressBar.UnicodePartialThresholds | src/TorFrog.cpp:135-139 | the shade level follows the remainder: none exactly below 1/8, light exactly in [1/8, 3/8), medium exactly in [3/8, 5/8), dark exactly from 5/8 on |
| ProgressBar.AsWrittenModeBar | src/TorFrog.cpp:121-144 | the bar the Unicode build draws, with or without `--ascii`: width + 2 long, and the block bar when `--ascii` is off |
| ProgressBar.AsWrittenAsciiModeDrawsBlocks | src/TorFrog.cpp:121-144 | with `--ascii`, 50% of 10 cells draws a full block, a non-ASCII character |
| ProgressBar.AsWrittenIgnoresAsciiFlag | src/TorFrog.cpp:121-144 | the as-written bar is the same with and without `--ascii`, for every percentage and width |
| ProgressBar.AsWrittenAsciiModeNotAscii | src/TorFrog.cpp:121-144 | whenever at least one cell is filled, the as-written bar under `--ascii` holds a non-ASCII character |
| ProgressBar.ModeBar | src/TorFrog.cpp:121 | with `--ascii` the bar is pure ASCII; otherwise it is the block bar; for widths ≥ 10 it is width + 2 long |
| Spinner.BitAnd | src/torfrog.cpp:209 | bitwise AND of naturals is at most each operand |
| Spinner.BitAndThreeIsMod4 | src/torfrog.cpp:209 | `n & 3` equals `n % 4` |
| Spinner.AsciiBuildFrame | src/torfrog.cpp:207-210 | the ASCII build's frame is one of the four dash/slash frames |
| Spinner.UnicodeBuildFrame | src/TorFrog.cpp:147-155 | a one-character frame from the dash/slash rotation in ASCII mode, from the braille rotation otherwise |
| Spinner.FrameIsPeriodic | src/TorFrog.cpp:147-155 | counters equal modulo 4 (ASCII) or 10 (braille) show the same frame |
| Spinner.FrameAdvances | src/TorFrog.cpp:147-155 | the next counter shows the next frame of the rotation, wrapping around |
| Spinner.BuildsAgreeInAsciiMode | src/torfrog.cpp:207-210 | the ASCII build's `n & 3` frame equals the Unicode build's ASCII-mode `n % 4` frame |
| RateHistory.Init | src/torfrog.cpp:223-226 | the initial history is valid and empty, with every slot zero |
| RateHistory.Push | src/torfrog.cpp:228-235 | below capacity the sample is appended and earlier slots are kept; at capacity every slot moves one left and the sample fills the last slot |
| RateHistory.PushInPlace | src/torfrog.cpp:228-235 | the in-place array update with the `memmove` loop yields the same history as `Push` |
| RateHistory.DequePush | src/TorFrog.cpp:320-321 | the deque never exceeds 200 and ends with the new sample; below 200 the sample is appended; at 200 the oldest is dropped |
| RateHistory.PushMatchesDeque | src/torfrog.cpp:228-235 | the array push and the deque push leave the same live samples |
| RateHistory.WindowStep | src/TorFrog.cpp:320-321 | pushing one sample onto the newest-200 window of a stream gives the newest-200 window of the longer stream |
| RateHistory.DequeHistoryIsWindow | src/TorFrog.cpp:320-321 | from empty, the deque holds exactly the newest 200 samples, oldest first |
| RateHistory.ArrayHistoryMatchesDeque | src/torfrog.cpp:216-235 | from `dl_hist_init`, the array history holds the same samples as the deque after any stream |
| RateHistory.EvictionExamples | src/torfrog.cpp:228-235 | up to 200 pushes keep every sample; the 201st evicts exactly the first |
| Sparkline.MaxSample | src/torfrog.cpp:239-240 | the maximum is at least 0 and at least every sample, and when positive it is one of the samples |
| Sparkline.LevelIndex | src/torfrog.cpp:253-255 | the level is at most 9, is the floor of ratio × 9 for samples up to the maximum, and is 9 exactly at or above the maximum |
| Sparkline.Glyph | src/torfrog.cpp:251-256 | the glyph is on the ten-level ramp; blank for a non-positive sample, '@' for the maximum |
| Sparkline.SampleGlyph | src/torfrog.cpp:250-256 | one loop iteration, with its truncating cast and clamps, yields the sample's glyph |
| Sparkline.HistoryMax | src/torfrog.cpp:239-240 | the first loop over the array yields the maximum of the live samples |
| Sparkline.HistoryTail | src/torfrog.cpp:246-257 | the second loop over the array yields the glyphs of the newest n live samples |
| Sparkline.Render | src/TorFrog.cpp:158-174 | empty for no samples or width ≤ 0; otherwise exactly width characters, each on the ramp: all blank when no sample is positive, else blank padding followed by the glyphs of the newest samples, right-aligned |
| Sparkline.NewestIsRightmost | src/TorFrog.cpp:165-173 | the last character is the newest sample's glyph |
| Sparkline.MaximumIsDensest | src/torfrog.cpp:253-256 | a visible sample equal to the maximum is drawn as '@' |
| Sparkline.SilentHistoryIsBlank | src/torfrog.cpp:241 | a history with no positive sample renders as width blanks |
| Sparkline.RenderHistory | src/torfrog.cpp:237-260 | the array loop over `DlHist` renders exactly `Render` of the live samples |
| Sparkline.BuildsDrawSameTrend | src/TorFrog.cpp:320-322 | after the same stream of samples, the array history and the deque history draw the same sparkline, namely that of the newest 200 samples |
| CommandLine.IsRateSuffix | src/torfrog.cpp:366-368 | the unit suffixes are k/K, m/M and g/G; none is a digit, white space or a sign, so stripping one never cuts the number |
| CommandLine.KibiPower | src/torfrog.cpp:376 | 1024^k, at least 1, and a multiple of 1024 (at least 1024) once k > 0 |
| CommandLine.SuffixPower | src/torfrog.cpp:368-371 | m/M adds one factor of 1024, g/G adds two, any other character (k/K included) adds none |
| CommandLine.TimesKibi | src/torfrog.cpp:376 | multiplying by 1024 pow2 times gives kib × 1024^pow2, non-negative for non-negative kib |
| CommandLine.ParseKibps | src/torfrog.cpp:363-378 | the parsed rate is non-negative, a whole number of KiB/s, and 0 for the empty string |
| CommandLine.ParseKibpsPlain | src/torfrog.cpp:363-378 | an unsuffixed number n parses to n·1024 |
| CommandLine.ParseKibpsSuffixed | src/torfrog.cpp:366-377 | n followed by a suffix parses to n times the suffix's factor of 1024, times 1024 |
| CommandLine.ParseKibpsUnits | src/torfrog.cpp:363-378 | n and nk/nK give n·1024; nm/nM give n·1024²; ng/nG give n·1024³ |
| CommandLine.ParseKibpsNegative | src/TorFrog.cpp:224-225 | a negative number, with or without a suffix, parses to 0 |
| CommandLine.AsciiBuildBarWidth | src/torfrog.cpp:391-394 | the bar width is the parsed value, or 10 when that is below 10 |
| CommandLine.UnicodeBuildBarWidth | src/TorFrog.cpp:238 | the bar width is the larger of 10 and the parsed value |
| CommandLine.BarWidthBuildsAgree | src/torfrog.cpp:391-394 | both builds read the same bar width from the same argument |
| CommandLine.AsciiBuildRuleWidth | src/torfrog.cpp:504-506 | the ASCII build's rule is the larger of 60 and bar width + 18 |
| CommandLine.UnicodeBuildRuleWidth | src/TorFrog.cpp:332 | the Unicode build's rule is the larger of 60 and bar width + 12 |
| CommandLine.RFind | src/torfrog.cpp:101 | `rfind(pat, pos)` finds the last occurrence at or before pos, or reports none when there is none |
| CommandLine.IsMagnet | src/torfrog.cpp:100-102 | an argument is a magnet link exactly when it starts with "magnet:?" |
| Telemetry.ProgressPercent | src/torfrog.cpp:489 | the percentage is ppm / 10000, within [0, 100] for ppm within [0, 10^6] |
| Telemetry.Remaining | src/torfrog.cpp:490 | remaining bytes are wanted − done when that is positive, else 0 |
| Telemetry.EtaSeconds | src/torfrog.cpp:491-494 | the ETA is positive exactly when the rate and remaining bytes are both positive, and then ETA × rate = remaining; otherwise it is -1 |
| Telemetry.StatusEta | src/TorFrog.cpp:316-317 | the ETA of a status snapshot is always finite |
| Telemetry.EtaPlaceholderIff | src/TorFrog.cpp:315-317 | the dashboard shows "ETA --:--" exactly when the rate is not positive or nothing is left |
| Telemetry.EtaShowsRemainingTime | src/TorFrog.cpp:315-317 | with a positive rate and bytes left, the time shown is within half a second of remaining / rate |
| Frame.C | src/torfrog.cpp:109 | `C(code)` is the code when colours are on and empty when they are off |
| Frame.Tinted | src/torfrog.cpp:109 | a coloured segment opens with an escape character when colours are on, and is the bare text when they are off |
| Frame.RateText | src/torfrog.cpp:152-161 | a rate below 1024 B/s prints whole in " B/s"; below 1024 KB/s it prints with one decimal in " KB/s"; every rate text ends in "/s" |
| Frame.SizeText | src/torfrog.cpp:163-172 | a count below 1024 prints whole in " B"; below 1024 KB it prints with one decimal in " KB" |
| Frame.LimitText | src/torfrog.cpp:567-569 | a limit prints as "unlimited" exactly when it is 0, and as its rate text otherwise |
| Frame.LimitShowsPlainArgument | src/torfrog.cpp:363-378 | a plain limit argument n with 0 < n < 1024 is shown back as n with one decimal in KB/s |
| Frame.TitleLine | src/TorFrog.cpp:329-330 | with colours on the title opens with an escape; with colours off it is spinner, " TorFrog" and the tail |
| Frame.ProgressLine | src/TorFrog.cpp:333-334 | with colours off the progress line is "Progress: ", percentage, "% ", bar, two blanks and ETA |
| Frame.RatesLine | src/TorFrog.cpp:335-337 | with colours off the rates line is "DL: ", "    UP: " and "    Peers: " with their values |
| Frame.UnicodeDoneLine | src/TorFrog.cpp:339-340 | with colours off the completed line is "Done: done / wanted" |
| Frame.OnOff | src/torfrog.cpp:565 | the sequential flag prints as "ON" exactly when it is set, otherwise "OFF" |
| Frame.UnicodeModeLine | src/TorFrog.cpp:341-343 | with colours off the mode line is "Seq: ON/OFF    Limits: DL …, UP …" |
| Frame.UnicodeLines | src/TorFrog.cpp:328-345 | the Unicode block has ten lines; with colours off they are, in order, the title, "Save: ", the rule, the progress line, the rates line, "DL trend: ", "Done: done / wanted", "Seq: …    Limits: DL …, UP …", the rule again and "Name: " |
| Frame.AsciiLines | src/torfrog.cpp:511-578 | the ASCII block has ten lines; with colours off they are, in order, the title, "Save: ", the rule, the progress line, the rates line, "DL trend: ", "Done: done / wanted", "Seq: …   Limits: DL …  UP …", the rule again and "Name: " |
| Frame.ColourOnOpensEveryLine | src/torfrog.cpp:511-578 | with colours on, every line of either block opens with an escape character |
| Frame.SharedLinesPlain | src/torfrog.cpp:511-548 | with colours off, the lines both builds share carry no escape character when their fields carry none |
| Frame.UnicodeColourOffAddsNoEscape | src/TorFrog.cpp:328-345 | with colours off, the Unicode lines carry no escape character, and both rules are the bare '=' run |
| Frame.AsciiColourOffAddsNoEscape | src/torfrog.cpp:511-578 | with colours off, the ASCII lines carry no escape character, and both rules are the bare '=' run |
| Frame.UnicodeFields | src/TorFrog.cpp:312-345 | a one-character spinner; a rule of only '=' at least 60 and bar width + 12 long; a bracketed bar of width + 2; the ETA placeholder exactly when the rate is not positive or nothing is left; a full-width trend once a sample exists; "unlimited" exactly for a zero limit; the absolute save path and the torrent name; under `--ascii` the bar is not pure ASCII as soon as a cell is filled |
| Frame.AsciiFields | src/torfrog.cpp:484-578 | a dash/slash spinner frame; a rule of only '=' at least 60 and bar width + 18 long; a pure-ASCII bar of width + 2; the ETA placeholder exactly when the rate is not positive or nothing is left; a full-width trend once a sample exists; "unlimited" exactly for a zero limit; the save path as given and the torrent name |
| Frame.UnicodeBuildFrame | src/TorFrog.cpp:322-347 | the block is ten lines, plus an empty line in block-stream mode |
| Frame.BarOnlyInProgressLine | src/TorFrog.cpp:333-334 | the bar appears only in the progress line: replacing it leaves the other nine lines unchanged |
| Frame.CorrectedUnicodeBuildFrame | src/TorFrog.cpp:121 | the block with the promised ASCII fallback differs from the as-written block only in the progress line, and not at all without `--ascii` |
| Frame.UnicodeTick | src/TorFrog.cpp:313-347 | a tick advances the spinner by one, pushes the download rate with the deque rule, and draws 10 or 11 lines |
| Frame.AsciiBuildFrame | src/torfrog.cpp:511-580 | the block is ten lines, plus an empty line in block-stream mode |
| Frame.AsciiTick | src/torfrog.cpp:484-582 | a tick advances the spinner by one, pushes the download rate into the array history (same samples as the deque rule), and draws 10 or 11 lines |
| Frame.DigitsHaveNoEscape | src/torfrog.cpp:134-138 | a digit string has no escape character |
| Frame.IntTextHasNoEscape | src/torfrog.cpp:134-138 | a rendered integer has no escape character |
| Frame.EtaTextHasNoEscape | src/torfrog.cpp:174-183 | the ETA text has no escape character |
| Frame.SparklineHasNoEscape | src/torfrog.cpp:237-260 | the sparkline has no escape character |
| Frame.BarsHaveNoEscape | src/TorFrog.cpp:122-144 | neither bar has an escape character |
| Frame.SpinnerHasNoEscape | src/TorFrog.cpp:147-155 | no spinner frame has an escape character |
| Frame.UnicodeFieldsClean | src/TorFrog.cpp:328-345 | every field of the Unicode block is escape-free when the version, save path, digits and name are |
| Frame.AsciiFieldsClean | src/torfrog.cpp:511-578 | every field of the ASCII block is escape-free when the version, save path, digits and name are |
| Frame.UnicodeFrameColourOff | src/TorFrog.cpp:82 | with `--no-color`, no line of the Unicode block contains an escape character, provided the version, the fixed-point digits, the absolute save path and the torrent name hold none (the name and path are printed raw) |
| Frame.AsciiFrameColourOff | src/torfrog.cpp:109 | with `--no-color`, no line of the ASCII block contains an escape character, provided the version, the fixed-point digits, the save path and the torrent name hold none (the name and path are printed raw) |
| Frame.StreamGap | src/torfrog.cpp:582 | block-stream mode (`--no-clear`) adds exactly one empty line; the clearing mode adds none |
| Frame.StreamGapAddsNoEscape | src/torfrog.cpp:582 | the blank line of block-stream mode adds no escape character |
| Frame.AsciiFrameExample | src/torfrog.cpp:489-538 | 375000 ppm on a 48-cell bar draws 18 '#' cells, and 1,572,864 B/s is printed as the 1-decimal rendering of 1.5 followed by " MB/s" |

## Left out

- The poll loop is not modelled: alert draining, `post_torrent_updates`, the 80 ms sleep, and the 120 ms / 150 ms redraw interval. These are timing and engine calls. A render tick is modelled once the interval has elapsed.
- The libtorrent session, torrent loading, trackers, `save_resume_data` and the exit messages are not modelled. They are engine I/O.
- Signal handling (`g_stop`) is not modelled.
- Writing to standard output is not modelled. This includes the clear-screen, cursor-homing and cursor-hiding sequences written around the block.
- Windows virtual-terminal mode and the creation of the save directory are not modelled. They are platform and filesystem calls.
- The `(int)` cast of the rate limits into the engine's settings (src/torfrog.cpp:419-420) is not modelled. It is engine configuration; the dashboard shows the 64-bit values.
- Help, version and unknown-option output are not modelled.
- Dispatch of the argument loop is not modelled. Only the values it computes are: `parse_kibps`, the bar width and the ASCII flag.
- The digits of `%.1f`, `%.0f` and `std::setprecision` are the `fixed` parameter. Floating-point rendering is not modelled.
- `fs::absolute` is the `absoluteSavePath` parameter. The version string is the `version` parameter.
- UTF-8 byte sequences are not modelled. Glyphs are characters.
- Decimal.StrToLL: the overflow saturation of `strtoll` at the 64-bit limits is not modelled. The integer is unbounded.
- CommandLine.ParseKibps: 64-bit overflow of `kib *= 1024` and of `* 1024` is not modelled.
- Frame.LimitText: the `int64` → `double` conversion of a limit is exact here.
- Spinner.UnicodeBuildFrame: the wrap-around of the `size_t` counter after 2^64 ticks is not modelled.
- ProgressBar.UnicodeBar: a negative `width` is not modelled. The width is a `nat`, and callers always pass at least 10.
- Humanize.HumanSize: an `int64` byte count is converted to `double` exactly. Rounding of counts above 2^53 is not modelled.
- Frame.UnicodeBuildFrame and Frame.AsciiBuildFrame state only the line count. How the Unicode block differs from the corrected one is stated by Frame.CorrectedUnicodeBuildFrame; what the lines contain is stated by Frame.UnicodeLines, Frame.AsciiLines, the field builders and the colour lemmas.
- Humanize.RoundHalfUp: `(long)(seconds + 0.5)` has no defined result once the value reaches 2^63. The model rounds every positive input, so ETAs beyond about 292 billion years are not modelled as the C++ behaves.
- CommandLine.AsciiBuildBarWidth and CommandLine.UnicodeBuildBarWidth: `atoi` returns an `int`; arguments outside the 32-bit range are not modelled.

## Findings

| source | as written | input that shows it | evidently intended | confidence | as-written member | corrected member |
|---|---|---|---|---|---|---|
| src/TorFrog.cpp:121-144 | `progress_bar` always draws full-block and shade glyphs. `g_ascii` is never consulted, although the comment on line 121 promises an ASCII fallback and `--ascii` is documented as "no Unicode blocks" | `--ascii` with 50% progress and bar width 10: cell 1 is U+2588 FULL BLOCK, not '#' | in ASCII mode, a bar made only of ASCII characters ('#' cells) | high, not executed | ProgressBar.AsWrittenModeBar | ProgressBar.ModeBar |

The dashboard model keeps the code's behaviour: `Frame.UnicodeBuildFrame`
draws `ProgressBar.AsWrittenModeBar`, and `ProgressBar.AsWrittenIgnoresAsciiFlag`
and `ProgressBar.AsWrittenAsciiModeNotAscii` show that `--ascii` changes
nothing in it. The corrected bar `ProgressBar.ModeBar` is pure ASCII under
`--ascii`; `Frame.CorrectedUnicodeBuildFrame` is the block drawn with it.
The correction covers only the bar: the title line still prints an em dash
(src/TorFrog.cpp:330) under `--ascii`, in both blocks.
