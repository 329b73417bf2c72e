# Mental-health check: scorer, classifier and history, modelled in Dafny

The system scores a ten-item questionnaire. A small C++ executable
(`logic.cpp`) checks the ten answers given on its command line, adds them
up with items 5 and 9 reverse-scored, and prints the total. A Flask service
(`api/index.py`) runs that executable for each submission, turns whatever
the process did into a total or an error, classifies the total into one of
three tiers (`Baik`, `Perlu Perhatian Ringan`, `Disarankan Konsultasi`), and
stores a history row. The stored rows can be listed newest first, cleared,
and exported as CSV oldest first.

Modules, one per component:

- `Text.dfy` (`Text`): Option, Python whitespace and `str.strip()`, the
  decimal text of integers, and a parser standing in for `std::stoi` and `int()`.
- `Scorer.dfy` (`Scorer`): `hitung_skor` as a loop with its invariants,
  `main` as a method, and a function giving `main`'s exit code, stdout and stderr.
- `Classifier.dfy` (`Classifier`): `classify`.
- `Gateway.dfy` (`Gateway`): the mapping from a process outcome to a
  total or to one of the service's error kinds.
- `Records.dfy` (`Records`): a history row, and the two orders by timestamp.
- `Csv.dfy` (`Csv`): `clean_csv_field`, the row and document joins, and a
  reader for the format. The lemmas show that reading the export back gives
  every field of every record.
- `History.dfy` (`History`): the table as a class, with `Insert`,
  `ListAll`, `Clear` and `ExportCsv`.
- `Api.dfy` (`Api`): `calculate_and_save`. It also holds the end-to-end
  lemmas for running `logic.cpp` itself as the scorer.

Abstractions:

- Running the executable is a function parameter `run` from a command line
  to a `ProcessOutcome`. The outcome is an exit with a code and two streams,
  a timeout, or a failure to launch.
- The clock is a parameter `now`. A timestamp is an integer instant, and its
  text form (`strftime`) is a function parameter `fmt`.
- Whether the database accepts a commit is a parameter `writable`. A refused
  write leaves the table unchanged.

Behaviour of the code worth knowing:

- An out-of-range total from the scorer is an error. It is never clamped and
  never stored (api/index.py:87-89).
- Ids follow SQLite's rule for an `INTEGER PRIMARY KEY` without
  `AUTOINCREMENT`: a new id is one more than the largest id in the table, or 1
  when the table is empty. Ids are therefore reused after a clear. While rows
  exist, they are unique and increasing.
- `clean_csv_field(None)` is the empty string, unquoted, and not `""`.
  The service itself always stores strings for name and note: `''` when the
  field is absent.
- A `name` or `note` that is present but not a string (JSON `null`) makes
  `.strip()` raise. The generic handler then answers with an internal error
  after scoring has succeeded, and nothing is stored.

## Model

| member | source | states |
|---|---|---|
| `Text.Strip` | api/index.py:83 | the result has no whitespace at either end and is no longer than the input |
| `Text.StripPadded` | api/index.py:83 | strip removes exactly the surrounding whitespace: any whitespace around an unpadded string comes off and nothing else does |
| `Text.Show` | logic.cpp:65 | the decimal text of an integer is non-empty and has no whitespace at its ends, no comma, no quote and no newline |
| `Text.ParseDecimal` | api/index.py:84 | the text is accepted exactly when it is one or more digits after an optional `+` or `-`, and anything else fails; the value is the digits read in base 10, negated after `-`, so `+7` and `007` read as 7 |
| `Text.ParseShow` | api/index.py:84 | `int()` reads back exactly what `str()` or `cout <<` writes, for every integer |
| `Text.Stoi` | logic.cpp:45 | `stoi` succeeds only with a value within the 32-bit `int` range, and that value is the decimal parse of the argument |
| `Text.StoiShow` | logic.cpp:45 | `stoi` reads back every decimal integer that fits in an `int` and fails on every other one |
| `Scorer.HitungSkor` | logic.cpp:16-32 | the result is -1 exactly when some answer is outside [0,3]; otherwise it is the reverse-scored total, between 0 and 3 per answer |
| `Scorer.ScoreBounds` | logic.cpp:18-31 | with every answer in [0,3], the total of at most ten answers lies in [0,30] |
| `Scorer.PrefixScoreBounds` | logic.cpp:19-30 | after n answers in [0,3], the running total lies in [0, 3n] |
| `Scorer.ScoreClosedForm` | logic.cpp:10-13 | items 4 and 8 count 3 - v and the rest count v, so the total is the plain sum + 6 - 2(a4 + a8) |
| `Scorer.PrefixScoreClosedForm` | logic.cpp:28-29 | the running total equals the plain prefix sum, corrected for each reverse-scored item already passed |
| `Scorer.ScoreExtremes` | logic.cpp:10-31 | ten 0s score 6 and ten 3s score 24 |
| `Scorer.ParseArgs` | logic.cpp:41-50 | parsing stops at the first argument `stoi` rejects and names it; otherwise each parsed value is the `stoi` value of its argument |
| `Scorer.FirstOutOfRange` | logic.cpp:55-59 | there is no out-of-range answer exactly when all answers are in [0,3]; one that is found is outside [0,3] |
| `Scorer.FirstOutOfRangeAt` | logic.cpp:55-59 | the rescan reports the first answer outside [0,3] |
| `Scorer.MainSpecContract` | logic.cpp:34-66 | exit 0 exactly for ten arguments that all parse to answers in [0,3]; then stdout is the reverse-scored total of those answers on one line, that total lies in [0,30], and stderr is empty. Every other run exits 1 with an empty stdout and a message on stderr |
| `Scorer.MainAccepts` | logic.cpp:52-66 | ten arguments that parse to answers in [0,3] make `main` print their total followed by `endl` and exit 0 |
| `Scorer.ArgCountRejected` | logic.cpp:35-39 | an argument count other than ten exits 1 with nothing on stdout and the count on stderr |
| `Scorer.UnparsableRejected` | logic.cpp:42-49 | the first argument `stoi` rejects ends the run with exit 1, before any answer is range-checked or scored |
| `Scorer.RunMain` | logic.cpp:34-66 | the argc check, the parsing loop, `hitung_skor` and the rescan give exactly the specified exit, stdout and stderr; the fallback message at lines 61-62 is shown to be unreachable |
| `Classifier.Clamp` | api/index.py:48-50 | the result lies in [0,30], is the input when that is in range, and is the nearest bound otherwise |
| `Classifier.Classify` | api/index.py:46-57 | the result is always one of the three tiers, with the category, advice and colour strings of the code |
| `Classifier.ClassifyBands` | api/index.py:52-57 | up to 9 gives `Baik`/#16a34a; 10 to 19 gives `Perlu Perhatian Ringan`/#f59e0b; 20 and above gives `Disarankan Konsultasi`/#ef4444 |
| `Classifier.ClassifyClamped` | api/index.py:48-50 | classifying a score and classifying its clamped value agree for every integer |
| `Classifier.ClassifyMonotone` | api/index.py:52-57 | a higher score never gives a lower tier |
| `Classifier.ClassifyEdges` | api/index.py:52-57 | 9 and 10 differ in category, and so do 19 and 20; -5 classifies as 0 and 35 as 30 |
| `Classifier.TiersDistinct` | api/index.py:53-57 | the three tiers have pairwise different categories and colours |
| `Gateway.ProcessDetail` | api/index.py:94 | the error text of a failed process is its stripped stderr, or the fixed default message when that is empty |
| `Gateway.Normalise` | api/index.py:77-109 | success exactly when the process exited 0 and its stripped stdout parses to an integer in [0,30]; that integer is the result |
| `Gateway.NormaliseFailures` | api/index.py:93-109 | nonzero exit gives a process failure with the detail text; timeout gives a timeout; non-integer output gives malformed output; an integer outside [0,30] gives out of range; a launch failure gives an unexpected error |
| `Gateway.NormalisePrinted` | api/index.py:80-91 | an exit-0 process that printed a total in [0,30], with any surrounding whitespace, is read as that total |
| `Gateway.NormaliseLine` | api/index.py:80-91 | a total in [0,30] printed on its own line, as logic.cpp prints it, is read as that total |
| `Gateway.NormaliseNotANumber` | api/index.py:103-105 | output `abc` gives malformed output |
| `Gateway.NormaliseNinetyNine` | api/index.py:86-89 | output `99` gives out of range |
| `Records.InsertSorted` | api/index.py:152 | placing a row into an ordered list keeps it ordered and adds exactly that row |
| `Records.OrderBy` | api/index.py:186 | the query result is ordered by timestamp in the requested direction and holds exactly the table's rows |
| `Records.OrderByKeepsSorted` | api/index.py:186 | rows already in timestamp order come back in table order |
| `Records.NewestFirst` | api/index.py:152 | a row newer than all others is the first one the history view lists |
| `Csv.Replace` | api/index.py:193 | replacing a character by text that does not contain it removes every occurrence; a one-character replacement keeps the length |
| `Csv.CleanField` | api/index.py:190-194 | a missing value gives the empty string; any text gives a quoted field; the result never contains a newline |
| `Csv.CleanFieldInverse` | api/index.py:190-194 | for text without newlines, un-doubling the inside of the quotes gives the text back |
| `Csv.UndoubleEscape` | api/index.py:193 | undoing the quote doubling recovers the original text |
| `Csv.FlattenEscape` | api/index.py:193 | doubling quotes and turning newlines into spaces can be done in either order |
| `Csv.ReplaceAppend` | api/index.py:193 | replacing in a concatenation is concatenating the replacements |
| `Csv.FieldRoundTrip` | api/index.py:190-194 | a cleaned field before a comma or the line end reads back as its value with newlines made spaces, and a missing value reads back as missing |
| `Csv.ScanEscaped` | api/index.py:193-194 | a quoted body with doubled quotes is read up to its closing quote and gives back the text |
| `Csv.NumberRoundTrip` | api/index.py:202 | the unquoted total is everything up to the next comma |
| `Csv.RowRoundTrip` | api/index.py:196-207 | reading a written row gives back timestamp text, name, total, category and note |
| `Csv.RowLines` | api/index.py:196-207 | one line per record, and no line contains a newline |
| `Csv.RowLineSingleLine` | api/index.py:196-207 | a row never contains a newline |
| `Csv.SplitJoin` | api/index.py:209 | splitting lines joined by a separator none of them contains gives the lines back |
| `Csv.ExportLines` | api/index.py:186-209 | the export is the fixed header followed by exactly one line per record, in the given order, with no trailing newline |
| `Csv.ExportRoundTrip` | api/index.py:186-209 | reading the export back gives every record's fields, in order |
| `History.HistoryStore.constructor` | api/index.py:28-29 | a newly created table starts empty |
| `History.HistoryStore.Insert` | api/index.py:113-127 | a committed insert appends exactly one row with the next id and the given fields, and that id is larger than every id in the table; a refused write changes nothing |
| `History.HistoryStore.ListAll` | api/index.py:147-166 | one entry per row, newest first, each with the row's name, total, category, note and formatted timestamp |
| `History.HistoryStore.Clear` | api/index.py:169-180 | returns the number of rows there were and leaves the table empty; a refused write deletes nothing |
| `History.HistoryStore.ExportCsv` | api/index.py:183-209 | the text is the CSV document of the rows, oldest first |
| `Api.Command` | api/index.py:72 | the command is the executable followed by the decimal text of each answer, in order |
| `Api.StrippedField` | api/index.py:115-116 | an absent field is the empty string, a string is stripped, and anything else fails |
| `Api.CalculateAndSave` | api/index.py:61-142 | not ten answers gives a validation error; a scoring error is passed on; after a successful score, a name or note that is not a string gives an internal error and a refused commit gives a storage error; on success exactly one row is stored, with the parsed total, the category of its classification and the stripped name and note; every failure leaves the table unchanged |
| `Api.CommandParses` | api/index.py:72 | `main` parses the service's command line back into exactly the submitted answers whenever they fit in an `int` |
| `Api.CommandAccepted` | api/index.py:72 | `main` accepts the command line the service builds for ten answers in [0,3], and prints their total and exits 0 |
| `Api.PipelineScores` | api/index.py:77-91 | ten answers in [0,3], run through logic.cpp and the gateway, give their reverse-scored total |
| `Api.PipelineRejects` | api/index.py:93-97 | ten answers with one outside [0,3], run through logic.cpp and the gateway, give a process failure |

## Left out

- HTTP plumbing is not modelled: routing, CORS, reading `request.json`, JSON
  responses and status codes. The response is a datatype naming the outcome.
  The messages of the service's own error responses are not modelled.
- Process mechanics are not modelled: spawning, the 5-second timer and
  killing the process. Only the outcome the handler reacts to is modelled.
  An exception other than the three named ones is modelled as a launch failure.
- SQLAlchemy and SQLite are not modelled: sessions, transactions, rollback
  and the read-only-filesystem failure are all the single flag `writable`.
  Column length limits (100/255/50) are not modelled; SQLite does not enforce them.
- Time is abstract: `datetime.now` is the parameter `now`, and `strftime` is
  the parameter `fmt`. The `if r.timestamp else ...` branches are not
  modelled, because every row the service inserts has a timestamp.
- Rows with equal timestamps come back in table order. SQL leaves their
  order open, so this is one permitted order.
- Logging (`logging.warning`, `app.logger`), `BytesIO`, UTF-8 encoding and
  `send_file` are left out.
- Answers are integers. `str(a)` for other JSON values (floats, strings,
  booleans) is not modelled.
- Text.Stoi: takes the whole argument as an optional sign followed by
  digits. `std::stoi` also skips leading whitespace and accepts a numeric
  prefix ("2x" reads as 2); neither is modelled.
- Text.ParseDecimal: accepts an optional sign followed by digits. Python's
  `int()` also accepts underscores between digits and non-ASCII digits;
  neither is modelled.
- Scorer.HitungSkor: requires at most ten answers. A longer list would index
  past the ten-entry flag table, which is undefined behaviour in C++; `main`
  always passes exactly ten.
