# Grid Engine helpers: three text codecs

This project models, in Dafny, the three self-contained text codecs of a Go
helper library for Univa Grid Engine, and proves what they do:

- **The messages log** (`pkg/log/log.go`). Covered:
  - the five severity levels and the emit filter of `printMessage`. The filter is the profiling toggle for `P`, then the threshold ladder for `I`, `W` and `E`.
  - the line format `stamp|%17s component|host|code|msg`.
  - `ParseLine`, which needs exactly five `|` fields, maps the level code and trims the component, host and message.
  - `ParseLevel`, which accepts a level's word or initial in all lower or all upper case.
  - `ParseFile`, which folds `ParseLine` over the lines of a file.

  The logger `GELog` is a class. Its `file` field is the text written so far, and `PrintMessage` appends to it. The package globals `LogLevelFilter` and `Profiling` are passed in as a `Settings` value.
- **The accounting line decoder** (`pkg/accounting/accounting.go`). Covered:
  - `ParseLine`: split the line at `:`, then run the escape step on every chunk in place, in an array.
  - The chunks are then assigned in order to the 53 fields of an `Entry`. Each is decoded by its kind: string, `int`, `int64`, float or time.
  - Decoding stops at the shorter of the two lists.
  - The time columns go through `parseTime` with its milliseconds-or-seconds rule.
  - The reflection over the struct is replaced by an explicit table of the fields' names and kinds, `Accounting.Schema`, in declaration order.
- **The user-list parser** (`userList.go`, `ParseUserList`). Covered:
  - the strict five-line `keyword value` layout;
  - each keyword exactly once on its own line;
  - the two integer fields;
  - the comma-separated entry list.

The Go library functions these codecs call are modelled in modules of their own: `strings.Split` and `bytes.Split` (with `strings.Index` and `bytes.Index`, on which they are built), `strings.TrimSpace`, `bytes.Replace`, `strconv.ParseInt`, `strconv.Atoi` and `time.Unix`. `strings.Join` and `strconv.FormatInt`, which the codecs do not call, are modelled as the inverses that the round-trip lemmas use. `Wrappers` holds `Option` and `Result`. The `*_scenarios.dfy` files restate the package's tests over the model, plus a few edge cases.

Integer conversion is modelled exactly as Go does it on a 64-bit platform:
- a syntax error gives 0;
- a decimal beyond the `int64` range saturates to the bound, with `ErrRange`;
- a digit run followed by other characters also saturates, but only when the leading digit run alone exceeds 2^64 − 1. Go reads the digits from the left and reports overflow only once the value passes that bound, so `"9300000000000000000x"` is a syntax error and gives 0.

So the accounting decoder turns `"NONE"` or `"62331.676"` into 0. A bare decimal beyond the `int64` range turns into the bound, and so does a digit run beyond 2^64 − 1 with anything after it.

Behaviour of the code worth knowing:
- The component column is `%17s`: it is right-aligned (padded on the left), and it is never truncated.
- `ParseLevel` is not case-insensitive. `"Warning"` is refused.
- `ParseLine` does not fail on a bad timestamp. The entry is still filled in and the timestamp error is returned, unless the level code is bad, in which case the level error wins.
- `ParseFile` overwrites `last` on every non-empty line. It reports the error of the final non-empty line only, so an earlier bad line is forgotten (`GridLog.ErrorForgotten`).
- The escape step calls `bytes.Replace` with a count of 0, which replaces nothing. Chunks come back unchanged.
- `msEpochTime` multiplies the leftover milliseconds by 1000, not by 1000000.

## Model

| member | source | states |
|---|---|---|
| GoStrings.Index | pkg/accounting/accounting.go:113 | The result is -1 or a position at which the whole separator fits in the text |
| GoStrings.IndexSpec | pkg/log/log.go:201 | `Index` is the first position at which the separator occurs, and it is -1 exactly when the separator does not occur |
| GoStrings.Split | pkg/log/log.go:201 | A split with a non-empty separator has at least one piece |
| GoStrings.SplitJoin | pkg/log/log.go:201 | Splitting separator-free pieces joined by a one-element separator gives the pieces back |
| GoStrings.JoinSplit | userList.go:79 | Joining the pieces of a split with the separator gives back the input |
| GoStrings.SplitPartsFree | userList.go:79 | No piece of a split contains the separator |
| GoStrings.SplitCount | pkg/accounting/accounting.go:113 | A split at one element gives one piece more than the number of times that element occurs |
| GoStrings.SplitConcat | pkg/accounting/accounting.go:113 | Splitting `a + [c] + b` at `c` gives the pieces of `a` followed by the pieces of `b` |
| GoStrings.SplitOccurrences | userList.go:51-72 | For a separator that cannot overlap itself, a split gives one piece more than the number of occurrences |
| GoStrings.OccurrencesTwo | userList.go:51-54 | Two occurrences at different positions are both counted |
| GoStrings.Replace | pkg/accounting/accounting.go:116 | With a negative count every occurrence is replaced: the result is the text split at the target and joined with the replacement; with a count of 0 the text comes back unchanged |
| GoStrings.TrimLeftSpec | pkg/log/log.go:206 | Leading trimming keeps a suffix, drops only white space, and stops at the first other character |
| GoStrings.TrimRightSpec | pkg/log/log.go:207 | Trailing trimming keeps a prefix, drops only white space, and stops at the last other character |
| GoStrings.TrimSpace | pkg/log/log.go:206-207 | A non-empty result neither starts nor ends with white space |
| GoStrings.TrimSpaceSlice | pkg/log/log.go:206-207 | The result is the slice of the text that starts after its leading white space, and only white space follows it in the text |
| GoStrings.TrimSpacePadded | pkg/log/log.go:206 | White space added at either end trims away |
| GoStrings.TrimSpaceIdempotent | userList.go:55 | Trimming twice is trimming once |
| GoStrconv.ParseUint | pkg/accounting/accounting.go:138 | The value lies in [0, MaxUint64]; conversion succeeds exactly on a non-empty digit string up to MaxUint64, with its value; a syntax error gives 0 |
| GoStrconv.ParseInt | pkg/accounting/accounting.go:138 | The value always lies in the int64 range, and a syntax error gives 0 |
| GoStrconv.ParseIntSpec | pkg/accounting/accounting.go:137-142 | Conversion succeeds exactly on decimal literals in the int64 range, with their value; a decimal beyond the range saturates to the bound on its side with ErrRange |
| GoStrconv.Atoi | pkg/accounting/accounting.go:141 | The value lies in the int64 range, and conversion succeeds exactly on the int64 decimals, with their value |
| GoStrconv.ParseFormatInt | userList.go:73-78 | Every int64 survives `FormatInt` followed by `ParseInt` |
| GoTime.Unix | pkg/accounting/accounting.go:85-93 | The result's nanoseconds lie in [0, 1e9), and it denotes the same instant as the seconds and nanoseconds it is given |
| GoTime.Rem | pkg/accounting/accounting.go:91 | Go's `%` takes the sign of the dividend and completes Go's truncating `/` |
| GridLog.LevelOfCode | pkg/log/log.go:208-221 | The fourth field, compared untrimmed, names a level exactly when it is one of the five codes, and then that level's code |
| GridLog.LevelOfCodeOfLevel | pkg/log/log.go:208-221 | Every level's code maps back to the level |
| GridLog.ShouldEmit | pkg/log/log.go:101-121 | With profiling off no `P` message passes, and a threshold of Info or Profile drops no other message |
| GridLog.ShouldEmitLevel | pkg/log/log.go:101-121 | A `P` message passes exactly when profiling is on. Any other level passes exactly when the threshold is Profile or the level is at least the threshold in Info < Warning < Error < Critical |
| GridLog.ShouldEmitOtherCode | pkg/log/log.go:106-121 | A code that is none of the five is never dropped |
| GridLog.PadLeft | pkg/log/log.go:124 | `%17s` right-aligns in a field of at least 17 characters. It pads with spaces only and never truncates |
| GridLog.FormatRecord | pkg/log/log.go:124 | A record starts with the stamp and a bar and ends with the message; `RecordFields` gives its five fields |
| GridLog.FormatLine | pkg/log/log.go:124 | The written text ends with a line feed, and it holds no other line feed when no field does |
| GridLog.Emitted | pkg/log/log.go:100-125 | A level code is written ⟺ profiling is on for `P`, or, for any other level, the threshold is Profile or the level is at least the threshold; a code that is none of the five is always written; what is written is the formatted line |
| GridLog.SplitFive | pkg/log/log.go:201-204 | Five fields free of the bar separator, joined by it, split back into those five fields |
| GridLog.RecordFields | pkg/log/log.go:124 | A written line splits into its five fields, and the padded component trims to the trimmed component |
| GridLog.ParseLine | pkg/log/log.go:200-224 | Wrong field count ⟺ the split does not give 5 parts, and then the entry is zero. Otherwise: the time is the parsed field 0; component and host are trimmed fields 1 and 2; bad level ⟺ field 3 is not a code; bad timestamp ⟺ valid code and field 0 unparseable; without a bad level, the code and the trimmed field 4 are kept; with a bad level, the level is Info and the message empty |
| GridLog.ParseFormatRecord | pkg/log/log.go:200-224 | A written line without its line feed parses back to the written timestamp, the trimmed component, host and message, and the written code, when no field holds the bar separator |
| GridLog.ParseFormatLevel | pkg/log/log.go:200-224 | A line written at a level parses back with no error to that level and the trimmed fields, when the timestamp parses |
| GridLog.ParseLevel | pkg/log/log.go:278-295 | Accepted ⟺ the text is one of a level's four spellings (word or initial, all lower or all upper case), and then that level is returned; otherwise Info and an error |
| GridLog.CodeIsUpperInitial | pkg/log/log.go:279-292 | A level's code is the upper-case initial of its word |
| GridLog.ParseFile | pkg/log/log.go:229-246 | The loop returns the entries of the non-empty lines that parse, in file order, and as its error the error of the final non-empty line |
| GridLog.Successes | pkg/log/log.go:236-245 | The entries collected from some lines are at most one per line |
| GridLog.LastError | pkg/log/log.go:236-245 | Without a non-empty line there is no error |
| GridLog.SuccessesAppend | pkg/log/log.go:236-243 | The entries of consecutive stretches of lines are the entries of each stretch, in order |
| GridLog.SkipEmpty | pkg/log/log.go:237-239 | An empty line adds no entry and leaves the error alone |
| GridLog.LastErrorIsFinalLine | pkg/log/log.go:240 | The error is that of the final non-empty line, whatever the earlier lines gave |
| GridLog.LastErrorAllEmpty | pkg/log/log.go:230-245 | A file with no non-empty line gives no entry and no error |
| GridLog.LastErrorAppend | pkg/log/log.go:240 | Lines that contain a non-empty line decide the error alone, whatever lines come before them |
| GridLog.WrittenJoin | pkg/log/log.go:124 | The log file is the written lines joined by line feeds, with an empty text after the final line feed |
| GridLog.SplitWritten | pkg/log/log.go:236 | Splitting a written file on line feeds gives the written lines and one empty line at the end |
| GridLog.RecordParses | pkg/log/log.go:200-224 | A written record's line is non-empty and parses to the expected entry with no error |
| GridLog.ReadBack | pkg/log/log.go:229-246 | What the logger writes parses back to one entry per written line, in order, with no error, when the timestamps parse and no field holds the bar separator or a line feed |
| GridLog.ErrorForgotten | pkg/log/log.go:236-245 | A bad first line followed by written lines leaves the entries of those lines and no error |
| GridLog.GELog.constructor | pkg/log/log.go:80-86 | A new logger has its component and host name and an empty file |
| GridLog.GELog.PrintMessage | pkg/log/log.go:100-125 | The file grows by the formatted line exactly when the filter passes the code, and is otherwise unchanged |
| GridLog.GELog.LogC | pkg/log/log.go:128-170 | The `…C` methods write at their level for the given component |
| GridLog.GELog.Log | pkg/log/log.go:133-175 | The level methods write at their level for the logger's own component |
| GridLogScenarios.SampleFields | pkg/log/log_test.go:78 | The sample line splits into its five fields |
| GridLogScenarios.SampleTrims | pkg/log/log_test.go:82-87 | The padded component trims to `worker`; `u1010` and the message are already trimmed |
| GridLogScenarios.ParseSampleLine | pkg/log/log_test.go:77-92 | The sample line is an Info entry of component `worker` on host `u1010`, with the message kept and no error |
| GridLogScenarios.ParseShortLine | pkg/log/log.go:201-204 | The three-field line `a`, `b`, `c` gives the zero entry and the wrong-field-count error |
| GridLogScenarios.ParseSampleLevels | pkg/log/log_test.go:94-106 | `I`, `warning`, `C`, `profile` and `ERROR` parse to their levels |
| GridLogScenarios.ParseMixedCaseLevel | pkg/log/log.go:282 | `Warning` is refused with Info |
| GridLogScenarios.PairEmitted | pkg/log/log.go:100-125 | Two calls at one level write both lines or neither |
| GridLogScenarios.WrittenConcat | pkg/log/log.go:124 | Writing two runs of lines one after the other writes their texts one after the other |
| GridLogScenarios.WritePair | pkg/log/log_test.go:44-45 | One level's two calls append that level's pair text |
| GridLogScenarios.FilterPairs | pkg/log/log_test.go:41-53 | With threshold Error, the Info and Warning pairs write nothing, and the Error, Critical and Profile pairs write the six surviving lines |
| GridLogScenarios.WriteFilterTest | pkg/log/log_test.go:40-53 | The ten calls of the filter test append exactly the six surviving lines |
| GridLogScenarios.ReadSurvivors | pkg/log/log_test.go:59-70 | The six lines parse back with no error to six entries, with the expected levels, components and messages in order |
| GridLogScenarios.LevelFilter | pkg/log/log_test.go:40-75 | On a fresh logger, the filter test followed by ParseFile gives six entries and no error |
| Accounting.SchemaSize | pkg/accounting/accounting.go:29-83 | The field table has the 53 fields of Entry |
| Accounting.SEpochTime | pkg/accounting/accounting.go:85-87 | A seconds count is an instant with no nanoseconds |
| Accounting.MsEpochTime | pkg/accounting/accounting.go:89-93 | The nanoseconds lie in [0, 1e9), and the instant is `ms * 1000000` nanoseconds less 999000 for each leftover millisecond `ms % 1000` |
| Accounting.MsEpochTimeParts | pkg/accounting/accounting.go:89-93 | A millisecond count gives whole seconds `ms / 1000` and nanoseconds `(ms % 1000) * 1000`, which stay below one millisecond |
| Accounting.ParseTime | pkg/accounting/accounting.go:95-107 | The nanoseconds stay below one millisecond and are non-zero only for a column above the milliseconds threshold |
| Accounting.ParseTimeCases | pkg/accounting/accounting.go:95-107 | Not an int64 decimal gives the epoch; above 631152000000 is milliseconds; otherwise seconds |
| Accounting.Unescape | pkg/accounting/accounting.go:114-117 | The escape step leaves every chunk unchanged |
| Accounting.DecodeColumn | pkg/accounting/accounting.go:134-152 | Every decoded value has the kind of its field |
| Accounting.IntColumn | pkg/accounting/accounting.go:137-142 | An integer column holds the value of an int64 decimal and the bound for a decimal beyond the range |
| Accounting.NonDecimalColumn | pkg/accounting/accounting.go:137-142 | Non-decimal text of at most 20 bytes in an integer column gives 0 |
| Accounting.Decode | pkg/accounting/accounting.go:118-153 | The decoded entry has 53 values, each of its field's kind |
| Accounting.ParseLine | pkg/accounting/accounting.go:111-155 | The two loops, over the chunk array and over the fields, produce exactly the specified entry, and the error is always nil |
| Accounting.Chunks | pkg/accounting/accounting.go:113 | A line has at least one chunk, no chunk holds a `:`, and the chunks joined with `:` give the line back |
| Accounting.ChunkCount | pkg/accounting/accounting.go:113 | A line has one chunk more than it has `:` bytes |
| Accounting.AppendColumns | pkg/accounting/accounting.go:132 | Appending columns never changes the fields decoded from the existing ones |
| Accounting.ExtraColumnsIgnored | pkg/accounting/accounting.go:132 | Columns beyond the 53rd are ignored |
| Accounting.ShortLine | pkg/accounting/accounting.go:132 | Fields without a column keep their zero value |
| Accounting.DecodeJoin | pkg/accounting/accounting.go:113-153 | A line of `:`-free columns decodes each field from its own column, or to zero where there is none |
| AccountingScenarios.NumberColumn | pkg/accounting/accounting.go:137-142 | The printed form of an int64 in an integer column decodes to that integer |
| AccountingScenarios.WallclockColumn | pkg/accounting/accounting_test.go:23 | `62331.676` in the int64 column ru_wallclock decodes to 0 |
| AccountingScenarios.MillisColumn | pkg/accounting/accounting.go:102-104 | A time column above the threshold is read as milliseconds |
| AccountingScenarios.SubmissionColumn | pkg/accounting/accounting_test.go:23 | `1448376371581` is 1448376371 s and 581000 ns |
| AccountingScenarios.SampleKinds | pkg/accounting/accounting.go:29-83 | The kinds of the fields the sample test looks at |
| AccountingScenarios.SampleLine | pkg/accounting/accounting_test.go:25-65 | A 53-column line with the sample's texts decodes to: Qname, Hostname, GroupID and SubmitHost as written; PosixPriority 0; Failed 100; ExitStatus 137; ru_wallclock 0; Slots 1; TaskNumber 0; the submission time in milliseconds; Category verbatim |
| UserLists.ParseUserList | userList.go:45-81 | On success, there is at least one entry and both numbers are int64 values |
| UserLists.KeywordSplit | userList.go:51-72 | A line splits into two pieces on its keyword ⟺ the keyword occurs in it once, and the second piece is the text after it |
| UserLists.KeywordsOverlapFree | userList.go:51-72 | None of the five keywords can overlap itself |
| UserLists.LineCount | userList.go:47-50 | Lines = newlines + 1; the line-count error ⟺ the number of newlines is not 4, and then it carries the line count |
| UserLists.TrailingNewline | userList.go:47-50 | An accepted text followed by a newline is refused as six lines |
| UserLists.LineSplits | userList.go:51-72 | On five lines, each keyword split has two pieces ⟺ the keyword occurs once, the second being the text after it |
| UserLists.KeywordChecks | userList.go:51-72 | On five lines, the error names the keyword of line i ⟺ the earlier lines hold their keywords once and line i does not |
| UserLists.NumbersAfterKeywords | userList.go:51-78 | A number error only comes from a text whose five lines all hold their keywords once |
| UserLists.NumberChecks | userList.go:73-78 | fshare is converted before oticket. A failed number carries its text, and an out-of-range decimal fails with ErrRange |
| UserLists.Accepted | userList.go:45-81 | Success ⟺ five lines each holding their keyword once, and both number fields are int64 decimals |
| UserLists.AcceptedFields | userList.go:55-79 | On success: name and type are the trimmed text after their keywords; the numbers are their fields' values; the entries are at least one, comma-free, and join back to the trimmed entries text |
| UserLists.EntryPieces | userList.go:79 | The pieces of a comma-separated list hold no comma and join back to it |
| UserLists.LabelledField | userList.go:51-79 | A keyword line written with padding holds its keyword once, and the field read from it is the value |
| UserLists.FormatLines | userList.go:39-44 | A printed user list is five lines, one per keyword |
| UserLists.ParseFormat | userList.go:39-45 | Every user list whose values are printable survives printing and parsing back |
| UserListScenarios.SampleFormat | userList_test.go:24-28 | The test's ACL text is the printed form of the sample list |
| UserListScenarios.ParseSample | userList_test.go:23-58 | The sample parses to name `exclude`, type `ACL`, fshare 13, oticket 77 and entries `daniel`, `root`, `%wheel` |
| UserListScenarios.ParseSampleNewline | userList.go:47-50 | The sample with a trailing newline is refused as six lines |
| UserListScenarios.ParseRepeatedName | userList.go:51-54 | With `name username` as its first line, the sample is refused at the name line |

## Left out

- `CreateChannel` (`pkg/log/log.go:251-275`) is not modelled. It is a goroutine over a file-tailing library, with a recover-based shutdown, and its substance is concurrency and a foreign package.
- The clock and the timestamp layout are not modelled. The writer is given the already formatted timestamp, and the parsers are given a `time.Parse` stand-in (`GridLog.TimeParser`). So the model does not capture calendar validation or formatting a parsed time back.
- `os.Hostname` and `fmt.Sprintf` are not modelled. The host name and the formatted message are given strings.
- File I/O is not modelled. `ParseFile` takes the file's contents (the `ioutil.ReadAll` error is not modelled), and the log file is the text written to it.
- `GridLog.GELog.LogC` and `GridLog.GELog.Log` stand for the ten level wrappers (`InfoC` … `ProfileC` and `Info` … `Profile`). `CreateProfile` is left out, because it only formats a duration into a Profile message.
- `LogEntry` (`pkg/log/log.go:184-186`) is not modelled. It passes a `LogLevel` where a code string is expected, and it uses the message as a format string.
- Float columns (CPU, MEM, IO, IOW, WallClock) keep their raw text instead of a `float64`, because floating-point parsing is not modelled. The empty text stands for 0.0.
- `Accounting.ParseLine` returns the entry as a sequence of values in field order, not as a struct with named fields. `Accounting.Schema` gives each position its name.
- `GoStrconv.Atoi` is `ParseInt` in the 64-bit range. The model assumes a 64-bit platform, where `int` is `int64`.
- Log lines and user lists are modelled as sequences of Unicode code points, which assumes valid UTF-8. Go's handling of invalid bytes is not captured: `%17s` counts each bad byte as one rune, `strings.TrimSpace` keeps such bytes, and `strings.Split` splits on the raw bytes. The accounting decoder works on bytes and is not affected.
- `Accounting.NonDecimalColumn` covers only texts of at most 20 bytes. A longer non-decimal can saturate instead, and `GoStrconv.ParseInt` gives that case exactly.
- `UserLists.ParseFormat` needs values without a line feed, without white space at either end and without their keyword. The text is otherwise not a faithful printed form.
- Only the `ErrSyntax`/`ErrRange` kind of a Go `NumError` is kept, with the text it failed on. The function name in the error is not. The other error values are modelled as `ParseError` and `LineError` constructors rather than message strings.
- `GetUserLists` (`userList.go:85-124`) is not modelled, because it reads the environment and runs `qconf`.
- qstatf.go is not part of this model. It runs an external tool and decodes its XML.
- The vendored `tail_windows.go` is not part of this model.
