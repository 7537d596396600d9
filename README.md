# BLD_TEST_EXTRACT in Dafny

BLD_TEST_EXTRACT is a small .NET console service. It polls a source
directory for laboratory analyser result files (`*.upl`) and reads each one
with seven fixed regular expressions:

- the request barcode;
- the send and result time stamps;
- the name of an antibody screening test and its result;
- the name of a blood group test and its result.

For each test found it appends one CSV line to a result ledger, or one
`NA,NA` line when no test is found, and then moves the file to an archive
directory. Its settings come from `config.ini`: a default file is written
when none exists, and the file is read line by line.

This project models that core, from `Program.cs`, in five modules.

- `Text`: character classes (`\w`, `\d`, `.` with and without
  `RegexOptions.Singleline`), literals at a position, and the forward and
  backward searches the matchers use.
- `Patterns`: the seven patterns of `RegexPatterns`, each given twice.
  - As a relation: `MatchesAt` says at which start and with which
    quantifier stops the pattern matches. `Before` orders the stops in the
    order the backtracking engine tries them. `IsFirstMatch` is the match
    `Regex.Match` reports.
  - As a matcher: `Attempt` tries one start, and `Scan` tries the starts
    left to right. `RegexMatch` is proved to report exactly `IsFirstMatch`,
    with its groups.
- `Extraction`: `GetMatch`, the "NA" fallbacks, the records one file yields,
  and their comma-joined CSV text. It also proves that such a line splits
  back into its fields.
- `Ledger`: `ProcessFile` and `EnsureCsvHeader` as methods of a class
  `ResultStore`. The class holds whether the ledger exists, the strings
  appended to it, and the source and archive directories as maps from file name to
  contents. Where an I/O call throws is a parameter (`Fault`). The methods
  are proved against the functions `Apply` and `Process`, and the lemmas
  about those functions state what the source promises.
- `Config`: `LoadConfig` as a method that fills a class `AppConfig` line by
  line, with its loop in `ApplyLines`. It is proved against the fold
  `ApplyAll` over the lines. The string
  operations a line goes through are modelled explicitly: `StartsWith`,
  `Split('=')[1]`, `Trim`, `Replace("./", "")`, `Path.Combine` and
  `int.Parse`.

The blood group pattern `Result\^MO31X\^.*?\|(.*?)\^(.+?)\^` keeps any `|`
that falls inside its first capture. The lazy first group stops at the
first `^` after the first `|`, so `Result^MO31X^x|A|B^y^` yields `A|B|y`:
the first group is `A|B` and the second is `y`.
`Extraction.BloodgroupScenario` proves this value.

## Model

| member | source | states |
|---|---|---|
| Patterns.RegexMatchFirst | Program.cs:168 | Regex.Match fails exactly when the pattern matches nowhere. Otherwise it reports the leftmost start and, at that start, the stops the backtracking engine tries first, with the groups of that match |
| Patterns.RegexMatch | Program.cs:168 | a reported match has one group more than the pattern has captures, and starts inside the input |
| Patterns.FirstMatchUnique | Program.cs:168 | the first match is unique, so Regex.Match is a function of its input |
| Patterns.ScanFirst | Program.cs:168 | trying the starts left to right and stopping at the first success finds the first match, or shows there is none |
| Patterns.Scan | Program.cs:168 | the scan returns the first start from which an attempt succeeds, and every attempt before it failed; None means all attempts failed |
| Patterns.AttemptFirst | Program.cs:18-24 | at any start, each pattern's matcher returns the stops the engine reports there, or nothing exactly when the pattern cannot match there |
| Patterns.AttemptAtZeroFirst | Program.cs:168 | a match the matcher finds at the start of the input is the first match |
| Patterns.BarcodeFirst | Program.cs:18 | `P\|1\|\|(.*?)\|` at a start: the shortest lazy capture up to the next bar, or no match |
| Patterns.BarcodeBodyFirst | Program.cs:18 | the capture found ends at the earliest bar any match can use |
| Patterns.SendTimeFirst | Program.cs:19 | `H\|.*\|\|(\d{14})` at a start: the greedy `.*` takes the last `\|\|` followed by fourteen digits |
| Patterns.SendTimeBodyFirst | Program.cs:19 | the stop found is the latest that any match can use |
| Patterns.ResultTimeFirst | Program.cs:20 | `O\|1\|\|.*?\|.*?\|.*?\|(\d{14})` at a start: the three lazy stops are the lexicographically first that any match can use |
| Patterns.ResultTimeBodyFirst | Program.cs:20 | the stops found form a match, and they are lexicographically no later than those of any other match |
| Patterns.ResultTimeMinimal | Program.cs:20 | for any stops a match can use, the matcher succeeds with stops that are no later |
| Patterns.TestTypeAbFirst | Program.cs:21 | `Result\^(\w+)\^Ab\.screening` at a start: the word run and the marker, or no match |
| Patterns.TestTypeBodyFirst | Program.cs:21 | a `(\w+)` followed by `^` has only one possible extent: the whole run of word characters |
| Patterns.ResultAbFirst | Program.cs:22 | `Result\^CN15B\^.*?\|\^\^(.+?)\^` at a start: the first `\|^^`, then the shortest non-empty capture up to a caret |
| Patterns.ResultAbBodyFirst | Program.cs:22 | the stops found form a match, and they are lexicographically no later than those of any other match |
| Patterns.ResultAbMinimal | Program.cs:22 | for any stops a match can use, the matcher succeeds with stops that are no later |
| Patterns.TestTypeBgFirst | Program.cs:23 | `Result\^(\w+)\^Bloodgr` at a start: the word run and the marker, or no match |
| Patterns.ResultBloodgroupFirst | Program.cs:24 | `Result\^MO31X\^.*?\|(.*?)\^(.+?)\^` at a start: the first bar, the first caret after it, and the first caret after a non-empty second capture |
| Patterns.ResultBloodgroupBodyFirst | Program.cs:24 | the stops found form a match, and they are lexicographically no later than those of any other match |
| Patterns.ResultBloodgroupMinimal | Program.cs:24 | for any stops a match can use, the matcher succeeds with stops that are no later |
| Patterns.ResultBloodgroupSecondSound | Program.cs:24 | the second capture `(.+?)` is non-empty, made of dots, and closed by a caret |
| Patterns.Groups | Program.cs:169 | the groups of a match: time stamps are fourteen digits, test names are non-empty word runs, the antibody result and the second blood group capture are non-empty |
| Extraction.GetMatch | Program.cs:166-170 | a non-empty result comes from a match of the pattern somewhere in the text |
| Extraction.GetMatchSpec | Program.cs:166-170 | GetMatch is "" when the pattern matches nowhere, and otherwise the first capture of the first match under Singleline |
| Extraction.TestNameEmptyIffNoMatch | Program.cs:114-125 | a test name is "" exactly when its pattern does not match, and otherwise it is a non-empty word |
| Extraction.StampShape | Program.cs:100-101 | the send and result times are "" exactly when their pattern does not match, and otherwise fourteen digits |
| Extraction.AbResult | Program.cs:117-118 | the antibody screening result is never empty |
| Extraction.AbResultIsCapture | Program.cs:117-118 | the "NA" fallback is taken exactly when ResultAbScreening does not match; otherwise the result is the capture of the first match |
| Extraction.BloodgroupResult | Program.cs:127-132 | the blood group result is never empty |
| Extraction.BloodgroupResultSpec | Program.cs:127-132 | "NA" when the pattern does not match (without Singleline); otherwise both captures of the first match, joined by `\|` |
| Extraction.BloodgroupResultFirst | Program.cs:127-131 | for a first match at the start with stops b, q, e, the result is the text between the bar and the caret, a `\|`, then the text up to the closing caret |
| Extraction.BloodgroupResultAt | Program.cs:127-131 | the same, for a match the matcher finds at the start |
| Extraction.SampleAttempt | Program.cs:24 | on `Result^MO31X^x\|A\|B^y^` the pattern stops at the first bar (14), the first caret after it (18) and the closing caret (20) |
| Extraction.BloodgroupScenario | Program.cs:127-131 | for `Result^MO31X^x\|A\|B^y^` the result is `A\|B\|y` |
| Extraction.BarcodeSpansLines | Program.cs:168 | under Singleline a capture can hold a line break: the barcode of `P\|1\|\|` + newline + `A\|` is newline + `A`, so its ledger record spans two lines of the CSV file |
| Extraction.Scrape | Program.cs:99-101 | the fields read out of a file: time stamps are "" or fourteen digits, test names are "" or a word, and both test results are non-empty |
| Extraction.Records | Program.cs:113-142 | a file yields one or two records |
| Extraction.Line | Program.cs:119 | a record's CSV text starts with its file name and a comma |
| Extraction.RecordsShape | Program.cs:113-142 | a file yields one or two records: two exactly when both test names are found. The antibody screening record comes first and the blood group record last, and the single `NA,NA` record appears when neither is found |
| Extraction.RecordsCommonPrefix | Program.cs:105-111 | every record of a file carries its file name, barcode, send time and result time |
| Extraction.SplitJoin | Program.cs:119 | splitting a joined line gives back its fields when none holds the separator |
| Extraction.LineRoundTrip | Program.cs:119 | the text appended for a record splits back into its six fields when none holds a comma |
| Extraction.LineColumns | Program.cs:119 | a ledger line splits into 6 plus the number of commas inside its fields, so it has six columns exactly when no field holds a comma |
| Ledger.Apply | Program.cs:103-145 | after the file was read: an existing ledger only grows, the file leaves the source directory or stays, and it leaves only into the archive under its name with its contents |
| Ledger.Process | Program.cs:95-153 | a missing file changes nothing, an existing ledger only grows, and at most the processed file leaves the source directory |
| Ledger.ReadFailureChangesNothing | Program.cs:97 | a file that is missing or cannot be read changes nothing |
| Ledger.HeaderOnlyWhenAbsent | Program.cs:156-162 | the header is written only when the ledger is absent, and is then its first line. An existing ledger is only appended to, with the lines of a prefix of the records |
| Ledger.ApplyKeepsLedger | Program.cs:103-142 | a ledger that starts with the header keeps it, and the ledger only grows |
| Ledger.MoveOnlyAfterAllLines | Program.cs:144-145 | the file leaves the source directory only after all its lines were appended, and then lands in the archive unchanged |
| Ledger.FaultKeepsFile | Program.cs:95-153 | a throw in the header write, an append or the move, or an archive that already holds the name, leaves the source and archive directories unchanged |
| Ledger.AppendFaultStops | Program.cs:113-142 | when the k-th append throws, exactly the first k lines are appended |
| Ledger.ApplyAppendFails | Program.cs:113-142 | when the k-th append throws, the only change is the header (if it was absent) followed by the first k lines |
| Ledger.ApplyHeaderFails | Program.cs:103 | a throwing header write changes nothing |
| Ledger.ApplyAllAppended | Program.cs:144-145 | once every line is appended, the file moves unless the move throws or the archive already holds the name |
| Ledger.NoFaultOutcome | Program.cs:97-145 | without a throw, the ledger is the header (ensured) followed by the file's lines, and the file moves to the archive |
| Ledger.FileLines | Program.cs:113-142 | the strings appended for a file are one or two: the CSV texts of its records, in order |
| Ledger.Appended | Program.cs:113-142 | fewer appends complete than were attempted exactly when an append throws, and never more |
| Ledger.ResultStore.EnsureCsvHeader | Program.cs:156-162 | the ledger is created with the header line when absent, and left alone when present; a throwing write changes nothing |
| Ledger.ResultStore.AppendLine | Program.cs:120 | File.AppendAllText creates the ledger if needed and adds the line at its end |
| Ledger.ResultStore.AppendNext | Program.cs:120 | one append of a record's line; it throws, changing nothing, exactly when the fault names it |
| Ledger.ResultStore.WriteTestLines | Program.cs:113-142 | the ledger gains the lines of the file's records up to the first throwing append, and `ok` says that none threw |
| Ledger.ResultStore.ProcessFile | Program.cs:89-154 | the new store is `Process` of the old one: read the file, ensure the header, append the lines, move the file; the first throw skips the rest |
| Config.Field1 | Program.cs:189 | `line.Split('=')[1]` throws exactly when the line has no '=' |
| Config.Trim | Program.cs:189 | the result is no longer than the input and has no white space at either end |
| Config.TrimSpec | Program.cs:189 | Trim removes exactly the leading and trailing white space |
| Config.TrimIdempotent | Program.cs:189 | trimming twice changes nothing more |
| Config.RemoveDotSlash | Program.cs:190 | `Replace("./", "")` never lengthens the path |
| Config.RemoveDotSlashKeeps | Program.cs:190 | `Replace("./", "")` keeps a path exactly when it holds no "./" |
| Config.RemoveDotSlashSinglePass | Program.cs:190 | the replacement is one pass: "..//" becomes "./" and is not reduced further |
| Config.Combine | Program.cs:190 | an empty relative part yields the base directory; a base that ends with the separator is followed directly by the relative part |
| Config.ParseInt | Program.cs:189 | int.Parse yields only 32-bit values, and only from non-empty text |
| Config.ParseShow | Program.cs:189 | int.Parse reads back every 32-bit number as int.ToString writes it |
| Config.ParseIntExamples | Program.cs:189 | leading zeros and a plus sign are accepted; a bare sign and "" throw |
| Config.ParseIntOverflow | Program.cs:189 | the 32-bit edges: "2147483648" throws, "-2147483648" reads as int.MinValue |
| Config.Parsed | Program.cs:189-193 | a value read from a line needs an '='; the polling interval reads as a 32-bit number and the other keys as paths |
| Config.ApplyLine | Program.cs:188-193 | one line keeps the polling interval a 32-bit value |
| Config.ApplyAll | Program.cs:186-194 | after any number of lines the polling interval is a 32-bit value, as the `int` property holds |
| Config.KeysExclusive | Program.cs:189-193 | a line starts with at most one key, so it sets at most one setting |
| Config.ParsedSome | Program.cs:189-193 | a line starting with a key throws exactly when it has no '=', or, for the polling interval, no 32-bit integer after it |
| Config.StepSpec | Program.cs:189-193 | one check throws exactly when the line starts with its key and cannot be read; otherwise it changes that key's setting alone |
| Config.ApplyLineSpec | Program.cs:189-193 | a line throws exactly when it is not LineOk; otherwise it changes only the setting of the key it starts with, to the value it holds |
| Config.ApplyAllOk | Program.cs:186-201 | LoadConfig succeeds exactly when every line can be read |
| Config.ApplyAllStops | Program.cs:186-201 | the first line that throws ends the loop: later lines change nothing |
| Config.UnmentionedKeepsInitial | Program.cs:174-194 | a setting that no line mentions keeps the value of a fresh AppConfig |
| Config.LastLineWins | Program.cs:187-194 | after a successful load, the last line that starts with a key decides that setting |
| Config.DirectoryLine | Program.cs:190-193 | a line "KEY=./name" sets the directory to name under the base directory |
| Config.PollingLine | Program.cs:189 | "POLLING_INTERVAL_SECONDS=60" sets the interval to 60 |
| Config.SetsKey | Program.cs:189-193 | a line that starts with key k and holds v for it sets k to v and nothing else |
| Config.DefaultConfig | Program.cs:179-186 | the default config.ini loads without error: interval 60, and SOURCE_DIR, ARCHIVE_DIR, LOG_DIR and BLD_RESULT.csv under the base directory |
| Config.AbsentConfigDefaults | Program.cs:179-186 | with config.ini missing and the default written, the lines read back give the default settings |
| Config.AppConfig.constructor | Program.cs:174 | a fresh AppConfig has interval 0 and no paths |
| Config.Store | Program.cs:189-193 | storing a value changes exactly the property of its key |
| Config.CheckKey | Program.cs:189-193 | one check of the loop body, as `Step`: it throws, storing nothing, exactly when the line starts with the key and cannot be read |
| Config.ApplyConfigLine | Program.cs:188-193 | the loop body is `ApplyLine`: it throws exactly when that yields None, which leaves the AppConfig as before the line |
| Config.ApplyLines | Program.cs:186-195 | the foreach loop over the lines on a fresh AppConfig: the settings and `ok` are those of `ApplyAll` |
| Config.LoadConfig | Program.cs:172-202 | a fresh AppConfig. When reading or writing throws, `false` with nothing set; otherwise `ok` and the settings are those of `ApplyAll` over the lines, stopping at the first line that throws |

## Left out

- `Main`, the timer, `DoWork` (Program.cs:32-87) and `CheckDirectories`: the
  console loop, the polling schedule and the directory listing are left out.
  `ProcessFile` is modelled for one file name at a time.
- `Log` and every use of `DateTime.Now` (timing, log file names) are left
  out; logging has no effect on the modelled state.
- Concurrent timer callbacks that overlap are not modelled.
- The file system is two maps (source and archive, from file name to
  contents). The ledger is the list of strings appended to it, each
  followed by `Environment.NewLine`, which is not modelled as text.
- Ledger.FileLines: one or two strings are appended per file, but not one
  or two physical lines. A capture taken under Singleline can hold '\n' or
  '\r' (`Extraction.BarcodeSpansLines`), and the model does not split the
  ledger into the physical lines of BLD_RESULT.csv.
- Extraction.LineRoundTrip: the round trip is stated for the appended
  string. Reading it back from BLD_RESULT.csv line by line also needs
  fields without line breaks, which the model does not state. `Path.GetFileName`
  and `Path.Combine(ArchiveDir, fileName)` are the map keys.
- Where an I/O call throws is the parameter `Fault`, one point per call.
  The exception handler only logs, so the first throw ends `ProcessFile`,
  and one fault per call covers every run. `File.Move` onto an existing
  archive name throws, which is modelled as "no move".
- `ProcessFile` reads the fields before `EnsureCsvHeader`. The model scrapes
  them after it. Both are pure and a regular expression cannot throw here,
  so the order does not matter. Regex match timeouts are left out.
- Patterns.RegexMatchFirst: the general .NET regular expression engine is
  not modelled. Only the seven fixed patterns are, each with its own
  matcher. `\w` and `\d` are the ASCII classes `[A-Za-z0-9_]` and `[0-9]`,
  not the Unicode categories .NET uses.
- Config.Combine: `Path.Combine` with '/' as the only separator. Windows
  separators, drive letters, and invalid path characters (which throw) are
  not modelled.
- Config.ParseInt: int.Parse under the invariant culture. Culture-specific
  signs, and trailing NUL characters (which .NET accepts), are not modelled.
- `line.StartsWith(key)` is culture-sensitive in .NET. The model compares
  ordinally, character by character, which agrees for these ASCII keys
  except for ignorable characters.
- `File.ReadAllLines` is not modelled as text. A present `config.ini` is
  given as its lines, and the default file as its six lines.
- The writing of the default file is modelled only by whether it throws.
- A load that fails leaves the settings that earlier lines set in the
  AppConfig (`LoadConfig` states them). The program then exits, so nothing
  uses them.
- The database the program is meant to feed is not part of this code.
