# Prediction history loader

This project models the crop-disease app's prediction history loader, `load_prediction_history` in `app.py`. The prediction service appends one line per prediction to a text log:

    <timestamp>, User ID: <id>, Image: <image>, Prediction: <label>, Confidence: <digits and dots>

The loader works in three steps:
- It reads that file line by line, strips each line and skips the blank ones.
- It matches the rest against one anchored regular expression. A line that matches becomes a record of five text fields, kept in file order. A line that does not match is reported with the message "Line format incorrect", and reading carries on.
- After the loop it gives up the whole table in three cases: no line matched, the timestamp column does not convert to dates, or the confidence column does not convert to floats. An I/O failure while reading also empties the result.

The model has four modules:

- `Text` covers the character classes `\s` and `\d`, `str.strip()`, and the scanning steps the expression performs:
  - a greedy `\s*`;
  - the cut at the first comma;
  - a greedy `[\d\.]+`.
- `Grammar` covers the expression itself.
  - `MatchLine` is a hand-written matcher that follows Python's first-match semantics.
  - Its specification is `FormatLine`. That function spells a `Record` out in a `Layout`, which holds the whitespace runs the pattern allows between the fixed parts and the unread tail after the confidence.
  - `MatchLineIff` proves that the matcher returns `r` exactly when the line is `r` spelt out in some valid layout.
- `History` covers the loader.
  - `LoadPredictionHistory` is the loop as the source writes it. It appends to `data` and to the list of messages.
  - It is proved equal to the function `Load`. `Load` is built on `Scan`, which is what the loop has built after a prefix of the lines.
  - The properties of the loop are proved about `Scan`: order and isolation, counting, where each record came from, and blank lines.
- `Scenarios` holds concrete files and what the loader makes of them.

How the model represents the loader's inputs and outputs:
- The messages the loader writes to the page (`st.write`, `st.error`) are returned as a sequence of `Notice` values, in the order they are written. The DataFrame is returned as a sequence of `Record`s.
- The file is an input value, a `HistoryFile`. It is `Missing`, `Readable(lines)`, or `Faulty(lines)`: reading raised an error after yielding `lines`.
- `pd.to_datetime` is a parameter `parsesAsDates`, which says whether the timestamp column converts.
- `astype(float)` is modelled by whether Python's `float()` accepts each confidence string. A string of digits and dots is accepted when it has at least one digit and at most one dot.
- `Load` is a function of the file contents and of `parsesAsDates`, so loading the same file twice gives the same result.

Four behaviours of the code are easy to miss; the model follows the code:

- The expression accepts any run of digits and dots as the confidence, so `1.2.3` passes. Such a line does not produce a per-line message. Instead `astype(float)` raises, and the `except` branch discards every record of the file (`Scenarios.TwoDotConfidenceEmptiesResult`). A date the parser rejects has the same effect.
- A missing file writes "Prediction file does not exist." (`FileMissing`). A file with no matching line, the empty file included, writes "No prediction history available." (`NoHistoryAvailable`). They are informational messages, not silence.
- The per-line message carries the stripped line, not the raw one.
- Messages written before an I/O error stay on the page. The error message follows them.

## Model

| member | source | states |
|---|---|---|
| Text.IsSpace | app.py:33-41 | no contract of its own; the ASCII characters `\s` matches and `str.strip()` removes; used by `Text.Strip`, `Text.LeadingSpaceSpec` and `Text.TrailingSpaceSpec` |
| Text.IsDigit | app.py:33 | no contract of its own; the ASCII class `\d`; used by `Text.DigitDotRunSpec` |
| Text.Strip | app.py:41 | the stripped line is empty exactly when the line is all whitespace; otherwise it neither begins nor ends with whitespace |
| Text.StripOf | app.py:41 | strip removes exactly the surrounding whitespace: text that neither begins nor ends with whitespace is recovered from between any two whitespace runs |
| Text.LeadingSpaceSpec | app.py:33 | a greedy `\s*` consumes only whitespace and stops at the first other character |
| Text.TrailingSpaceSpec | app.py:41 | the whitespace strip removes from the right is all whitespace and ends at the last other character |
| Text.SplitCommaSpec | app.py:33 | `[^,]+,` cuts at the first comma: the part before it is comma-free and the line is that part, the comma, and the rest; no cut means the text has no comma |
| Text.SplitCommaOf | app.py:33 | a comma-free prefix followed by a comma is exactly what the cut finds |
| Text.SplitCommaNone | app.py:33 | comma-free text has no cut |
| Text.DigitDotRunSpec | app.py:33 | a greedy `[\d\.]+` consumes only digits and dots and stops at the first other character |
| Text.LeadingSpace | app.py:33 | the greedy `\s*` as a count of characters, at most the length of the text; what it consumes is stated by `Text.LeadingSpaceSpec` and `Text.LeadingSpaceOf` |
| Text.TrailingSpace | app.py:41 | the whitespace `strip` removes on the right, as a count of characters, at most the length of the text; stated by `Text.TrailingSpaceSpec` and `Text.TrailingSpaceOf` |
| Text.SplitComma | app.py:33 | no contract of its own; the `[^,]+,` cut at the first comma, specified by `Text.SplitCommaSpec`, `Text.SplitCommaOf` and `Text.SplitCommaNone` |
| Text.DigitDotRun | app.py:33 | the greedy `[\d\.]+` as a count of characters, at most the length of the text; what it consumes is stated by `Text.DigitDotRunSpec` and `Text.DigitDotRunOf` |
| Grammar.SkipTag | app.py:33 | no contract of its own; the `\s*<tag>` step, specified by `Grammar.SkipTagSound` and `Grammar.SkipTagComplete` |
| Grammar.CaptureField | app.py:33 | no contract of its own; the `\s*(?P<name>[^,]+),` step, specified by `Grammar.CaptureFieldSound` and `Grammar.CaptureFieldComplete` |
| Grammar.CaptureConfidence | app.py:33 | no contract of its own; the `\s*(?P<confidence>[\d\.]+)` step, specified by `Grammar.CaptureConfidenceSound` and `Grammar.CaptureConfidenceComplete` |
| Grammar.LabelledField | app.py:33 | no contract of its own; a `\s*<tag>\s*(?P<name>[^,]+),` part, specified by `Grammar.LabelledFieldSound` and `Grammar.LabelledFieldComplete` |
| Grammar.ConfidenceField | app.py:33 | no contract of its own; the `\s*Confidence:\s*(?P<confidence>[\d\.]+)` part, specified by `Grammar.ConfidenceFieldSound` and `Grammar.ConfidenceFieldComplete` |
| Grammar.MatchFields | app.py:33 | no contract of its own; the pattern after the timestamp's comma, specified by `Grammar.MatchFieldsSound` and `Grammar.MatchFieldsComplete` |
| Grammar.SkipTagSound | app.py:33 | when `\s*<tag>` matches, the text is whitespace, the tag, then the remainder returned |
| Grammar.SkipTagComplete | app.py:33 | whitespace followed by the tag always matches `\s*<tag>` and leaves exactly what follows the tag |
| Grammar.CaptureFieldSound | app.py:33 | a `\s*(?P<name>[^,]+),` capture is non-empty, comma-free, and begins with whitespace only when it is that single character; the text is whitespace, the capture, a comma and the rest |
| Grammar.CaptureFieldComplete | app.py:33 | whitespace, a valid capture and a comma always match, with exactly that capture and rest |
| Grammar.CaptureConfidenceSound | app.py:33 | the confidence capture is a non-empty run of digits and dots after whitespace, followed by a tail that does not go on with a digit or dot |
| Grammar.CaptureConfidenceComplete | app.py:33 | whitespace, a run of digits and dots and any tail that does not continue it always capture exactly that run |
| Grammar.LabelledFieldSound | app.py:33 | a matched `\s*<tag>\s*(?P<name>[^,]+),` part is whitespace, tag, whitespace, a valid capture and a comma |
| Grammar.LabelledFieldComplete | app.py:33 | every such part matches and yields its capture and the rest |
| Grammar.ConfidenceFieldSound | app.py:33 | a matched `\s*Confidence:\s*(?P<confidence>[\d\.]+)` part is whitespace, the tag, whitespace, the run and an unread tail |
| Grammar.ConfidenceFieldComplete | app.py:33 | every such part matches with exactly that run |
| Grammar.MatchFieldsSound | app.py:33 | after the timestamp's comma, a match yields captures of the right shape and a valid layout that spells out the rest of the line |
| Grammar.MatchFieldsComplete | app.py:33 | every well-formed record in a valid layout is matched after its timestamp's comma, with exactly its captures |
| Grammar.MatchLine | app.py:33-44 | no contract of its own; the compiled pattern (line 33) applied with `pattern.match` to the stripped line (line 44), specified by `Grammar.MatchLineSound`, `Grammar.MatchLineComplete` and `Grammar.MatchLineIff` |
| Grammar.MatchLineSound | app.py:33 | every record the matcher returns is well formed: timestamp, user, image and prediction non-empty and comma-free; the timestamp is exactly the text before the first comma; the confidence is the longest non-empty run of digits and dots after `Confidence:` |
| Grammar.MatchLineComplete | app.py:33 | every well-formed record spelt out in a valid layout is matched, and the first match captures exactly that record |
| Grammar.MatchLineIff | app.py:33 | the matcher returns `r` if and only if the line is `r` spelt out in some valid layout |
| Grammar.SerialiseRoundTrip | app.py:33 | matching the line the service writes for a well-formed record recovers that record |
| Grammar.NoCommaRejected | app.py:33 | a line without a comma never matches |
| Grammar.UserIdTagFirst | app.py:33 | after the timestamp's comma and whitespace, anything but `User ID:` is rejected, e.g. a line that gives `Image:` first |
| Grammar.TailIgnored | app.py:44 | `pattern.match` anchors only at the start: appending text that does not continue the confidence run leaves the match unchanged |
| History.Load | app.py:26-64 | no contract of its own; the loader's result as a function of the file and the date parser, specified by `History.LoadKeepsRecords` (rows that pass both conversions come back, with the loop's messages), `History.LoadOutcome` (rows come back only then), `History.LoadFinalMessage`, `History.MissingFileEmpty` and `History.NoMatchEmpty`, and computed by `History.LoadPredictionHistory` |
| History.Classify | app.py:41-49 | no contract of its own; what one line is (blank, a record, or a malformed line carrying its stripped text), specified in context by `History.BlankLineIgnored`, `History.MatchedLineRecorded`, `History.MalformedLineReported` and `History.SerialisedLineParsed` |
| History.Contribution | app.py:41-49 | no contract of its own; what one line adds to the records and the messages, specified in context by `History.BlankLineIgnored`, `History.MatchedLineRecorded`, `History.MalformedLineReported` and `History.OneOutcomePerLine` |
| History.Scan | app.py:40-49 | no contract of its own; the records and messages after a prefix of the lines, specified by `History.ScanAppend`, `History.BlankLineIgnored`, `History.MatchedLineRecorded`, `History.MalformedLineReported`, `History.OneOutcomePerLine` and `History.ScanProvenance` |
| History.IsFloatLiteral | app.py:59 | no contract of its own; whether `float()` accepts a run of digits and dots: at least one digit and at most one dot; applied to `0.5` by `Scenarios.SingleLineLoaded` and to `1.2.3` by `Scenarios.DottyRejected` |
| History.ConfidencesConvert | app.py:59 | no contract of its own; whether `astype(float)` accepts the whole confidence column; `History.LoadOutcome` states that rows come back only when it holds |
| History.LoadPredictionHistory | app.py:26-64 | the loop with its `continue`, appends and messages computes exactly `Load`: the missing-file, read-fault, no-history and conversion-failure branches and the table itself |
| History.ScanAppend | app.py:40-49 | scanning two stretches in turn gives the records and messages of the first followed by those of the second, so no line affects what another contributes |
| History.BlankLineIgnored | app.py:41-43 | a line that is empty once stripped, wherever it sits, changes neither records nor messages |
| History.MalformedLineReported | app.py:48-49 | a non-blank line that does not match adds exactly one message carrying the stripped line, in its place, and leaves all records as they were |
| History.MatchedLineRecorded | app.py:44-47 | a line that matches adds exactly its record, between the records of the lines before and after it, and no message |
| History.OneOutcomePerLine | app.py:42-49 | the number of records is the number of matching lines, and the number of messages is the number of other non-blank lines |
| History.ScanProvenance | app.py:40-49 | every record is the match of some line of the file, and every message is a "Line format incorrect" for some line that does not match |
| History.ScanRecordsWellFormed | app.py:44-47 | every record the loop keeps has non-empty comma-free text fields and a confidence of digits and dots |
| History.NoMatchNoRecords | app.py:45-47 | lines none of which matches yield no record |
| History.NoMatchEmpty | app.py:53-55 | a readable file in which no line matches, the empty file included, yields no rows and "No prediction history available." after the per-line messages |
| History.MissingFileEmpty | app.py:27-29 | a missing file yields no rows and exactly one message, "Prediction file does not exist." |
| History.LoadOutcome | app.py:52-64 | rows come back only from a readable file, only once both conversions succeed, and then exactly as the loop built them; per-line messages are never withdrawn and at most one message follows them |
| History.LoadFinalMessage | app.py:53-64 | the message after the per-line ones is never a per-line or missing-file message; a faulty file always ends with the I/O read error; a readable file with no rows ends with exactly one more message: "No prediction history available." when no line matched, otherwise the error of the timestamp conversion if that fails, else of the confidence conversion |
| History.LoadKeepsRecords | app.py:45-61 | a readable file whose kept records pass both conversions returns exactly those records and the loop's messages, one record per matching line, so a line that does not match never drops the others |
| History.SerialisedLineParsed | app.py:41-47 | a line the service writes, with its line ending, is stripped and matched back to its record |
| History.LogLinesScanned | app.py:39-49 | a file the service wrote reads back as exactly its records, in order, with no message |
| History.LogLinesLoaded | app.py:39-61 | such a file, once both conversions accept it, is returned unchanged |
| History.BlankBetweenLogLines | app.py:41-47 | a blank line between two lines the service wrote is skipped: both records in file order and no message |
| Scenarios.SingleLineLoaded | app.py:39-61 | the line for farmer7's tomato image gives exactly that record and no message |
| Scenarios.GarbageLineReported | app.py:48-55 | the line `garbage text` gives no record, one message carrying `garbage text`, then "No prediction history available." |
| Scenarios.GarbageLineKeepsRecord | app.py:41-61 | the farmer7 line followed by `garbage text` gives the farmer7 record and one message carrying `garbage text` |
| Scenarios.BlankLineBetweenRecords | app.py:41-47 | a valid line, a blank line and a valid line give the two records in file order and no message |
| Scenarios.EmptyFileLoaded | app.py:53-55 | an empty file gives no rows and only "No prediction history available." |
| Scenarios.TwoDotConfidenceEmptiesResult | app.py:59-64 | a line with confidence `1.2.3` passes the grammar but makes `astype(float)` fail, which discards the other record too and writes one read error |

## Left out

- The Streamlit page is left out: title, sidebar, table and the rendering of messages (app.py:11-17 and 66-80). Messages are returned as `Notice` values instead of being written.
- The rest of `main` is left out: the HTTP request to the prediction backend and the PIL image handling (app.py:82-116). They are network and foreign-library code outside the loader.
- File system access (`os.path.exists`, `open`, iterating the file) is an input value, `HistoryFile`. A file created or deleted between the existence check and the read shows up as one of its cases.
- The text of the caught exception (`{e}`) is reduced to a `Failure` tag naming which step failed.
- `pd.to_datetime` is not modelled: the parameter `parsesAsDates` decides, for the whole timestamp column, whether conversion succeeds. The date values themselves are not modelled.
- `astype(float)` is modelled only as acceptance of each confidence string, not as the floating-point value it yields.
- The range of the confidence is not checked, matching the source.
- Display formatting is left out, because it is float and date formatting over pandas values: the percentage rendering of the confidence and the timestamp format (app.py:74-75, 109).
- The DataFrame's columns and dtypes are left out. The result is the sequence of matched records.
- Non-ASCII whitespace and digits are left out. Python's `str.strip()`, `\s` and `\d` also accept them; here `IsSpace` is the ASCII set that `str.isspace()` accepts (tab, line feed, vertical tab, form feed, carriage return, U+001C to U+001F, and space) and `IsDigit` is `0`-`9`.
- Scenarios.SingleLineLoaded, Scenarios.BlankLineBetweenRecords and Scenarios.TwoDotConfidenceEmptiesResult build their input lines as `Serialise(record)` plus a line feed rather than as string literals. The text of each line is given in a comment beside it.
