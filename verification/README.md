# Host widgets of the devdash dashboard, modelled in Dafny

devdash builds a terminal dashboard from a configuration file. This project models the host-metrics part of it, `HostWidget.CreateWidgets` in `internal/remote_host_widget.go`.

- **Dispatch.** A configured widget name is normalised: the first "lh" anywhere in it becomes "rh". The result must be one of twelve `rh.*` identifiers.
- **Building.** The matching builder resolves the widget's options. It then asks the host's metrics service for its figures. If every answer is a value, it returns a render job: the terminal-UI call to make later, holding the figures already fetched. The first error from the service ends the builder with that error and no job.
- **Uptime text.** The uptime box shows the uptime as text such as "1d 1h 1m 1s", produced by `formatSeconds`.

## Modules

- `Wrappers`: `Option` and `Result`.
- `Strings`: the subset of Go's `strings` package the widgets use. It covers `Replace(s, old, new, 1)`, `Split` on a one-character separator, `TrimSpace` with the Unicode white-space set, `ToUpper` on ASCII, and decimal numerals.
- `Duration`: `formatSeconds`.
  - `Elapsed` is a reference definition with a single day-stripping pass.
  - `FormatSeconds` mirrors `formatSeconds` as written: both loops, then the character loop.
  - `ReadSeconds` is an independent reader of the produced text. The round-trip lemma `ElapsedRoundTrip` relates it to `Elapsed`.
- `Catalogue`: the twelve widget kinds, their identifiers, the "lh"→"rh" rewrite and the identifier switch.
- `WidgetOptions`: how a builder reads its options.
  - Plain options (title, unit, command) are presence-based.
  - List options (metrics, headers) take effect only when non-empty. They are then trimmed and split on commas.
- `Service`: the metrics service as an oracle.
  - A `Host` value holds the answer to every call, as a `Result`. Answers that depend on arguments are functions of those arguments.
  - `Call` names one service call. Each builder reports the calls it made, in order.
- `Builders`: the render-job datatype, the twelve builders, the switch (`Build`) and `CreateWidgets`.

Three behaviours of the code are easy to miss:

- **When a list option takes effect.** A list option overrides its default whenever its raw value is non-empty. So a value of only spaces gives one empty token, and the tokens are not trimmed.
- **Error text.** A service error is returned unchanged.
- **The alias rewrite.** It applies to the first "lh" anywhere in the name. `Catalogue.AcceptedNames` shows that only the leading alias can reach an identifier.

## Model

| member | source | states |
|---|---|---|
| Strings.IndexOf | internal/remote_host_widget.go:48 | finds a position exactly when the pattern occurs, the position is an occurrence, and no earlier position is one |
| Strings.ReplaceFirst | internal/remote_host_widget.go:48 | the first occurrence of the pattern is replaced and everything around it kept; a text without the pattern is unchanged |
| Strings.ReplaceFirstLeading | internal/remote_host_widget.go:48 | replacing the first occurrence of a pattern that starts the text swaps that prefix and keeps the rest |
| Strings.ReplaceFirstAbsent | internal/remote_host_widget.go:48 | a text without the pattern is left unchanged |
| Strings.Split | internal/remote_host_widget.go:297 | Go's split gives at least one piece, no piece holds the separator, and joining the pieces with it gives the input back |
| Strings.SplitJoin | internal/remote_host_widget.go:297 | splitting the join of a non-empty, separator-free list gives the list back |
| Strings.TrimSpace | internal/remote_host_widget.go:297 | the result has no white space at either end and is a slice of the input with only white space outside it |
| Strings.TrimSpaceIdempotent | internal/remote_host_widget.go:297 | trimming twice is trimming once |
| Strings.ToUpper | internal/remote_host_widget.go:253 | the length is kept; each 'a'..'z' becomes the same letter in 'A'..'Z'; every other character is kept; no lower-case ASCII letter is left |
| Strings.ToUpperIdempotent | internal/remote_host_widget.go:253 | upper-casing twice is the same as upper-casing once |
| Strings.NatToString | internal/remote_host_widget.go:236 | the `%d` numeral is non-empty and all digits |
| Strings.NatToStringValue | internal/remote_host_widget.go:236 | the `%d` numeral denotes the number and has no leading zero |
| Duration.WholeSeconds | internal/remote_host_widget.go:222 | the truncated duration is a multiple of a second, at most the input and within a second of it |
| Duration.StripDays | internal/remote_host_widget.go:223-227 | days times 24h plus the remainder is the input; the remainder is at most 24h, and positive once a day was taken |
| Duration.StripDaysUnique | internal/remote_host_widget.go:223-231 | those three properties determine the day count and the remainder |
| Duration.StripDaysClosedForm | internal/remote_host_widget.go:224-227 | the loop strips (t-1) div 24h days from a positive t, so an exact multiple of 24h keeps a full day as remainder |
| Duration.SecondPassStripsNothing | internal/remote_host_widget.go:228-231 | the second loop finds nothing to strip |
| Duration.StripDayLoop | internal/remote_host_widget.go:224-231 | one `for dur.Hours() > 24.0` loop keeps days times 24h plus the remainder, and stops with a remainder of at most 24h that is positive once a day was taken |
| Duration.SpacedDurationString | internal/remote_host_widget.go:233-243 | the spaced `Duration.String` is "Zs", "Ym Zs" or "Xh Ym Zs" |
| Duration.InsertSpacesLength | internal/remote_host_widget.go:238-243 | the character loop adds one character per hour or minute marker |
| Duration.MarkersFollowedBySpace | internal/remote_host_widget.go:238-243 | every 'h' and 'm' of the output is followed by a space |
| Duration.InsertedSpacesFollowMarkers | internal/remote_host_widget.go:238-243 | on space-free input, every space of the output follows an 'h' or 'm' |
| Duration.DropInsertedSpaces | internal/remote_host_widget.go:238-243 | removing the spaces again gives the input, so all other characters are kept in order |
| Duration.AppendSpaced | internal/remote_host_widget.go:234-243 | the loop appends the spaced text to the day prefix |
| Duration.FormatSeconds | internal/remote_host_widget.go:221-245 | `formatSeconds` as written, with both loops, produces the reference text `Elapsed` |
| Duration.ReadDurationString | internal/remote_host_widget.go:233 | `Duration.String` of whole seconds reads back as those seconds |
| Duration.ElapsedRoundTrip | internal/remote_host_widget.go:221-245 | the uptime text is lossless: read back, it gives the whole seconds of the input |
| Duration.DayPrefixIffDays | internal/remote_host_widget.go:234-237 | the text has a day count exactly when at least one day was stripped |
| Duration.ElapsedZero | internal/remote_host_widget.go:221-245 | zero is "0s" |
| Duration.ElapsedDayHourMinuteSecond | internal/remote_host_widget.go:221-245 | 90061 s and a fraction is "1d 1h 1m 1s" |
| Duration.ElapsedTwoDays | internal/remote_host_widget.go:222-245 | exactly 48 h is "1d 24h 0m 0s" |
| Catalogue.NameShape | internal/remote_host_widget.go:13-26 | every identifier is "rh." followed by text without an 'h' |
| Catalogue.NameInjective | internal/remote_host_widget.go:13-26 | the twelve identifiers are distinct |
| Catalogue.NameHasNoLocalMarker | internal/remote_host_widget.go:13-26 | no identifier contains "lh" |
| Catalogue.Lookup | internal/remote_host_widget.go:49-76 | the switch picks the kind with exactly that identifier, and misses only when no kind has it |
| Catalogue.Parse | internal/remote_host_widget.go:48-76 | a name selects a kind exactly when its rewritten form is that kind's identifier |
| Catalogue.Normalize | internal/remote_host_widget.go:47-48 | the rewrite keeps the length, keeps a name without "lh", and can only turn an 'l' into an 'r' (the first "lh" anywhere becomes "rh", by `Strings.ReplaceFirst`) |
| Catalogue.NormalizeUnchangedIff | internal/remote_host_widget.go:48 | the rewrite leaves a name unchanged exactly when it contains no "lh" |
| Catalogue.NormalizeLocal | internal/remote_host_widget.go:47-48 | a leading "lh" becomes "rh" and nothing else changes |
| Catalogue.AcceptedNames | internal/remote_host_widget.go:47-76 | a name selects a kind exactly when it is the kind's "rh" identifier or its "lh" alias |
| WidgetOptions.ListOr | internal/remote_host_widget.go:295-299 | a non-empty list option gives a non-empty, comma-free token list that re-joins to the trimmed value; otherwise the default |
| WidgetOptions.ListOrTokens | internal/remote_host_widget.go:295-299 | the tokens are determined by the trimmed value |
| WidgetOptions.TrimSpaceAround | internal/remote_host_widget.go:297 | trimming removes exactly the white space around a trimmed core |
| WidgetOptions.TokensAreNotTrimmed | internal/remote_host_widget.go:297 | " A, B " gives the tokens "A" and " B" |
| WidgetOptions.BlankListGivesEmptyToken | internal/remote_host_widget.go:295-299 | any non-empty value made only of white space still overrides, with one empty token |
| Builders.BuildBoxLoad | internal/remote_host_widget.go:80-96 | makes exactly the Load call; fails exactly when it fails, with its error unchanged; otherwise a text box showing the load |
| Builders.BuildBoxProcesses | internal/remote_host_widget.go:98-114 | makes exactly the Processes call; fails exactly when it fails, with its error unchanged; otherwise a text box showing the count |
| Builders.BuildBoxUptime | internal/remote_host_widget.go:116-132 | makes exactly the Uptime call; fails exactly when it fails, with its error unchanged; otherwise a text box showing `Elapsed` of the uptime, the text `formatSeconds` produces (see `Duration.FormatSeconds`) |
| Builders.BuildBoxCpuRate | internal/remote_host_widget.go:134-150 | makes exactly the CPU-rate call; fails exactly when it fails, with its error unchanged; otherwise a text box showing the rate as a percentage |
| Builders.BuildBoxMemRate | internal/remote_host_widget.go:152-168 | makes exactly the memory-rate call; fails exactly when it fails, with its error unchanged; otherwise a text box showing the rate as a percentage |
| Builders.BuildBoxSwapRate | internal/remote_host_widget.go:170-186 | makes exactly the swap-rate call; fails exactly when it fails, with its error unchanged; otherwise a text box showing the rate as a percentage |
| Builders.BuildBoxNetIo | internal/remote_host_widget.go:247-268 | makes exactly one net I/O call, in the unit option else "kb"; fails exactly when it fails, with its error; otherwise shows its answer |
| Builders.BuildBoxDiskIo | internal/remote_host_widget.go:270-291 | makes exactly one disk I/O call, in the unit option else "kb"; fails exactly when it fails, with its error; otherwise shows its answer |
| Builders.BuildTableDisk | internal/remote_host_widget.go:330-352 | makes exactly one disk call for the `df` columns, in the unit option else "gb"; fails exactly when it fails, with its error; otherwise a table of its rows |
| Builders.Build | internal/remote_host_widget.go:49-73 | every kind's builder makes one to three calls, fails only with a service error, and renders with the kind's sink call and the unchanged options |
| Builders.BuildBarRates | internal/remote_host_widget.go:188-219 | asks for swap, then CPU, then memory, with no call after the first error; succeeds exactly when all three answer; bars are CPU, memory, swap, truncated |
| Builders.BuildBarMemory | internal/remote_host_widget.go:293-328 | one memory call with the resolved metrics and unit; labels are the headers option split on commas, else the resolved metrics; succeeds exactly when the call does and shows its figures |
| Builders.BuildTable | internal/remote_host_widget.go:354-385 | runs the command option, else `df`; headers are none with a command, the `df` columns without one, and the headers option when given |
| Builders.CreateWidgets | internal/remote_host_widget.go:44-78 | a name spelling a kind builds that kind; any other name fails with an error naming it, making no call |
| Builders.BuildStopsAtFirstError | internal/remote_host_widget.go:80-385 | every call before the last got a value; the build fails exactly when the last call failed, and then with that call's error; one call per builder, up to three for the rates bar |
| Builders.BuildTitle | internal/remote_host_widget.go:80-385 | a job uses the kind's sink call, carries the options unchanged, and takes the title option when its key is present, even empty, else the default for the resolved unit |
| Builders.AliasRouting | internal/remote_host_widget.go:47-73 | a kind's "lh" alias and its "rh" identifier build the same widget |
| Builders.UnknownNameFails | internal/remote_host_widget.go:74-75 | an unknown name makes no call and fails with "can't find the widget " followed by the name as configured |
| Builders.UptimeBoxReadsBack | internal/remote_host_widget.go:116-132 | the uptime box's text reads back as the uptime's whole seconds |
| Builders.BoxesShowFetchedFigure | internal/remote_host_widget.go:80-186 | the load, process and rate boxes show exactly the fetched figure |
| Builders.UnitResolution | internal/remote_host_widget.go:247-352 | the I/O boxes ask in the unit option, else "kb", and show the answer; the disk table asks for the `df` columns in the unit option, else "gb" |
| Builders.DefaultUnitTitles | internal/remote_host_widget.go:247-352 | without options the titles are " Net I/O (KB) ", " Disk I/O (KB) ", " Memory (KB) " and " Disks " |
| Builders.CpuRateWithoutOptions | internal/remote_host_widget.go:134-150 | "rh.box_cpu_rate" without options gives a " CPU usage " box showing the fetched rate after one CPU call |
| Builders.MemoryBarIndependentLists | internal/remote_host_widget.go:293-306 | the headers and metrics options are resolved independently |
| Builders.CustomCommandClearsHeaders | internal/remote_host_widget.go:360-367 | a command without a headers option runs with no headers |

## Left out

- `NewHostWidget` and everything in `platform.Host` (SSH and remote shell I/O) are not part of this model. The service is the `Service.Host` oracle.
- The terminal UI (`Tui.AddTextBox`, `AddBarChart`, `AddTable`) and its failures are left out. A render job is data, and rendering errors are never produced.
- The assignment `ms.tui = tui` is left out: it only hands the UI to the render closures.
- The `Widget` type and the option-key constants are defined outside `internal/remote_host_widget.go`. They are not part of this model. The keys are taken to be "title", "unit", "metrics", "headers" and "command".
- `Builders.BuildBoxCpuRate`, `Builders.BuildBoxMemRate`, `Builders.BuildBoxSwapRate`: the box content is `Percent(rate)`. `strconv.FormatFloat(rate, 'f', 2, 64) + " %"` is not modelled, because floating-point formatting is out of scope.
- `Builders.TruncateRate`: rates are real numbers, and Go's `int(f)` is modelled as truncation toward zero. NaN, infinities and out-of-range values are left out.
- `Duration.FormatSeconds`: the input is a non-negative count of nanoseconds without a 64-bit bound. Negative durations and int64 overflow are left out. The loop test `dur.Hours() > 24.0` is modelled as the exact integer comparison `t > 24h`.
- `Duration.DurationString`: Go's `time.Duration.String` is modelled only for whole seconds, which is all `formatSeconds` passes it.
- The unit of the service's uptime value is left out. It reaches `formatSeconds` as nanoseconds, as `time.Duration(uptime)` does.
- `Strings.ToUpper`: only ASCII letters are mapped.
