/** `load_prediction_history` (app.py, lines 26-64): read the prediction log
    line by line, strip each line, skip blank ones, match the others against
    the record grammar, keep the matches in file order, and report every line
    that does not match; then give up the whole table when there is nothing
    to show or when the column conversions fail.

    The page the original writes its messages to is modelled as the `notices`
    sequence the loader returns; the DataFrame as the sequence of records. */
module History {
  import opened Wrappers
  import opened Text
  import opened Grammar

  /** What the history path holds when the loader runs. */
  datatype HistoryFile =
    | Missing                        // `os.path.exists` is false
    | Readable(lines: seq<string>)   // iterating the open file yields these lines
    | Faulty(lines: seq<string>)     // reading raises after yielding these lines
                                     // (an `open` that fails is `Faulty([])`)

  /** What the `except Exception` branch catches. */
  datatype Failure = IoFault | TimestampConversion | ConfidenceConversion

  /** The messages the loader writes, in the order it writes them. */
  datatype Notice =
    | FileMissing                        // "Prediction file does not exist."
    | LineFormatIncorrect(line: string)  // "Line format incorrect: <line>"
    | NoHistoryAvailable                 // "No prediction history available."
    | ReadError(cause: Failure)          // "Error reading prediction history: <e>"

  /** The rows the loader returns and the messages it writes. */
  datatype LoadResult = LoadResult(records: seq<Record>, notices: seq<Notice>)

  /** What one line of the file contributes. */
  datatype LineOutcome = Blank | Parsed(record: Record) | Malformed(text: string)

  /** One turn of the loop body: strip, skip if empty, match. */
  function Classify(raw: string): LineOutcome {
    var line := Strip(raw);
    if line == [] then
      Blank
    else
      match MatchLine(line)
      case Some(r) => Parsed(r)
      case None => Malformed(line)
  }

  /** `data` and the per-line messages once the loop has read `lines`. */
  function Scan(lines: seq<string>): LoadResult {
    if lines == [] then
      LoadResult([], [])
    else
      Concat(Scan(lines[..|lines| - 1]), Contribution(lines[|lines| - 1]))
  }

  /** Appending the records and messages of `h'` after those of `h`. */
  function Concat(h: LoadResult, h': LoadResult): LoadResult {
    LoadResult(h.records + h'.records, h.notices + h'.notices)
  }

  /** What one line adds to the records and to the messages. */
  function Contribution(raw: string): LoadResult {
    match Classify(raw)
    case Blank => LoadResult([], [])
    case Parsed(r) => LoadResult([r], [])
    case Malformed(text) => LoadResult([], [LineFormatIncorrect(text)])
  }

  /** Whether Python's `float()` accepts a string of digits and dots: at most
      one dot and at least one digit. */
  predicate IsFloatLiteral(c: string) {
    && (exists k :: 0 <= k < |c| && IsDigit(c[k]))
    && (forall i, j :: 0 <= i < j < |c| && c[i] == '.' ==> c[j] != '.')
  }

  /** Whether `astype(float)` succeeds on the confidence column. */
  predicate ConfidencesConvert(records: seq<Record>) {
    forall k :: 0 <= k < |records| ==> IsFloatLiteral(records[k].confidence)
  }

  /** The timestamp column handed to `pd.to_datetime`. */
  function Timestamps(records: seq<Record>): seq<string> {
    seq(|records|, k requires 0 <= k < |records| => records[k].timestamp)
  }

  /** The loader's result. `parsesAsDates` says whether `pd.to_datetime`
      accepts a timestamp column; the model does not interpret dates. */
  function Load(file: HistoryFile, parsesAsDates: seq<string> -> bool): LoadResult {
    match file
    case Missing => LoadResult([], [FileMissing])
    case Faulty(lines) => LoadResult([], Scan(lines).notices + [ReadError(IoFault)])
    case Readable(lines) =>
      var h := Scan(lines);
      if h.records == [] then
        LoadResult([], h.notices + [NoHistoryAvailable])
      else if !parsesAsDates(Timestamps(h.records)) then
        LoadResult([], h.notices + [ReadError(TimestampConversion)])
      else if !ConfidencesConvert(h.records) then
        LoadResult([], h.notices + [ReadError(ConfidenceConversion)])
      else
        h
  }

  /** The loader as the source runs it: one pass over the lines, appending to
      `data` and to the messages. */
  method LoadPredictionHistory(file: HistoryFile, parsesAsDates: seq<string> -> bool) returns (history: LoadResult)
    ensures history == Load(file, parsesAsDates)
  {
    if file.Missing? {
      return LoadResult([], [FileMissing]);
    }
    var lines := file.lines;
    var data: seq<Record> := [];
    var notices: seq<Notice> := [];
    for i := 0 to |lines|
      invariant Scan(lines[..i]) == LoadResult(data, notices)
    {
      ScanNext(lines, i);
      var line := Strip(lines[i]);
      if line == [] {
        continue;
      }
      var m := MatchLine(line);
      if m.Some? {
        data := data + [m.value];
      } else {
        notices := notices + [LineFormatIncorrect(line)];
      }
    }
    assert lines[..|lines|] == lines;
    if file.Faulty? {
      return LoadResult([], notices + [ReadError(IoFault)]);
    }
    if data == [] {
      return LoadResult([], notices + [NoHistoryAvailable]);
    }
    if !parsesAsDates(Timestamps(data)) {
      return LoadResult([], notices + [ReadError(TimestampConversion)]);
    }
    if !ConfidencesConvert(data) {
      return LoadResult([], notices + [ReadError(ConfidenceConversion)]);
    }
    return LoadResult(data, notices);
  }

  // ---------------------------------------------------------------------------
  // The loop: order, isolation and counting

  /** Scanning two stretches of the file one after the other gives the
      records and messages of the first, then those of the second: no line
      changes what another line contributes. */
  lemma {:induction false} ScanAppend(a: seq<string>, b: seq<string>)
    ensures Scan(a + b) == Concat(Scan(a), Scan(b))
  {
    if b == [] {
      assert a + b == a;
      assert Scan(a).records + [] == Scan(a).records;
      assert Scan(a).notices + [] == Scan(a).notices;
    } else {
      var b' := b[..|b| - 1];
      var raw := b[|b| - 1];
      assert (a + b)[..|a + b| - 1] == a + b';
      assert (a + b)[|a + b| - 1] == raw;
      ScanAppend(a, b');
      ConcatAssoc(Scan(a), Scan(b'), Contribution(raw));
    }
  }

  lemma ConcatAssoc(x: LoadResult, y: LoadResult, z: LoadResult)
    ensures Concat(Concat(x, y), z) == Concat(x, Concat(y, z))
  {
    assert x.records + y.records + z.records == x.records + (y.records + z.records);
    assert x.notices + y.notices + z.notices == x.notices + (y.notices + z.notices);
  }

  /** One more line of the loop, in the loop's own terms: a blank line leaves
      the scan as it was, a match appends its record, anything else appends
      one message carrying the stripped line. */
  lemma ScanNext(lines: seq<string>, i: nat)
    requires i < |lines|
    ensures Strip(lines[i]) == [] ==> Scan(lines[..i + 1]) == Scan(lines[..i])
    ensures Strip(lines[i]) != [] && MatchLine(Strip(lines[i])).None? ==>
      Scan(lines[..i + 1]) ==
        LoadResult(Scan(lines[..i]).records, Scan(lines[..i]).notices + [LineFormatIncorrect(Strip(lines[i]))])
    ensures MatchLine(Strip(lines[i])).Some? ==>
      Scan(lines[..i + 1]) ==
        LoadResult(Scan(lines[..i]).records + [MatchLine(Strip(lines[i])).value], Scan(lines[..i]).notices)
  {
    var h := Scan(lines[..i]);
    assert lines[..i + 1][..i] == lines[..i];
    assert Scan(lines[..i + 1]) == Concat(h, Contribution(lines[i]));
    ContributionOf(lines[i]);
    assert h.records + [] == h.records;
    assert h.notices + [] == h.notices;
  }

  lemma ScanOne(raw: string)
    ensures Scan([raw]) == Contribution(raw)
  {
    assert [raw][..0] == [];
  }

  lemma ScanAround(a: seq<string>, raw: string, b: seq<string>)
    ensures Scan(a + [raw] + b) == Concat(Concat(Scan(a), Contribution(raw)), Scan(b))
    ensures Scan(a + b) == Concat(Scan(a), Scan(b))
  {
    ScanAppend(a + [raw], b);
    ScanAppend(a, [raw]);
    ScanAppend(a, b);
    ScanOne(raw);
  }

  lemma ContributionOf(raw: string)
    ensures Strip(raw) == [] ==> Contribution(raw) == LoadResult([], [])
    ensures Strip(raw) != [] && MatchLine(Strip(raw)).None? ==>
      Contribution(raw) == LoadResult([], [LineFormatIncorrect(Strip(raw))])
    ensures MatchLine(Strip(raw)).Some? ==>
      Contribution(raw) == LoadResult([MatchLine(Strip(raw)).value], [])
  {
    if Strip(raw) == [] {
      assert Classify(raw) == Blank;
    } else if MatchLine(Strip(raw)).None? {
      assert Classify(raw) == Malformed(Strip(raw));
    } else {
      assert Classify(raw) == Parsed(MatchLine(Strip(raw)).value);
    }
  }

  lemma ConcatSplice(before: LoadResult, c: LoadResult, after: LoadResult)
    ensures Concat(Concat(before, c), after) ==
      LoadResult(before.records + c.records + after.records, before.notices + c.notices + after.notices)
    ensures c.records == [] ==> Concat(Concat(before, c), after).records == Concat(before, after).records
    ensures c.notices == [] ==> Concat(Concat(before, c), after).notices == Concat(before, after).notices
  {
    if c.records == [] {
      assert before.records + c.records + after.records == before.records + after.records;
    }
    if c.notices == [] {
      assert before.notices + c.notices + after.notices == before.notices + after.notices;
    }
  }

  /** A line that is empty once stripped changes nothing. */
  lemma BlankLineIgnored(a: seq<string>, raw: string, b: seq<string>)
    requires Strip(raw) == []
    ensures Scan(a + [raw] + b) == Scan(a + b)
  {
    ContributionOf(raw);
    ScanAround(a, raw, b);
    ConcatSplice(Scan(a), Contribution(raw), Scan(b));
  }

  /** A non-blank line the grammar rejects adds exactly one message, carrying
      the stripped line, in its place, and leaves every record as it was. */
  lemma MalformedLineReported(a: seq<string>, raw: string, b: seq<string>)
    requires Strip(raw) != [] && MatchLine(Strip(raw)).None?
    ensures Scan(a + [raw] + b).records == Scan(a + b).records
    ensures Scan(a + [raw] + b).notices == Scan(a).notices + [LineFormatIncorrect(Strip(raw))] + Scan(b).notices
  {
    ContributionOf(raw);
    ScanAround(a, raw, b);
    ConcatSplice(Scan(a), Contribution(raw), Scan(b));
  }

  /** A line the grammar accepts adds exactly its record, between the records
      of the lines before and after it, and no message. */
  lemma MatchedLineRecorded(a: seq<string>, raw: string, b: seq<string>)
    requires MatchLine(Strip(raw)).Some?
    ensures Scan(a + [raw] + b).records == Scan(a).records + [MatchLine(Strip(raw)).value] + Scan(b).records
    ensures Scan(a + [raw] + b).notices == Scan(a + b).notices
  {
    ContributionOf(raw);
    ScanAround(a, raw, b);
    ConcatSplice(Scan(a), Contribution(raw), Scan(b));
  }

  /** The number of lines that are not blank once stripped. */
  function NonBlankCount(lines: seq<string>): nat {
    if lines == [] then 0
    else NonBlankCount(lines[..|lines| - 1]) + (if Strip(lines[|lines| - 1]) == [] then 0 else 1)
  }

  /** The number of lines whose stripped text the grammar accepts. */
  function MatchingCount(lines: seq<string>): nat {
    if lines == [] then 0
    else MatchingCount(lines[..|lines| - 1]) + (if MatchLine(Strip(lines[|lines| - 1])).Some? then 1 else 0)
  }

  /** Every non-blank line gives exactly one outcome: a file with N lines the
      grammar accepts and M other non-blank lines yields N records and M
      messages. */
  lemma {:induction false} OneOutcomePerLine(lines: seq<string>)
    ensures |Scan(lines).records| == MatchingCount(lines)
    ensures |Scan(lines).notices| == NonBlankCount(lines) - MatchingCount(lines)
    ensures MatchingCount(lines) <= NonBlankCount(lines)
  {
    if lines != [] {
      var raw := lines[|lines| - 1];
      OneOutcomePerLine(lines[..|lines| - 1]);
      ContributionOf(raw);
      if Strip(raw) == [] {
        assert SplitComma(Strip(raw)).None?;
      }
    }
  }

  /** Every record is the match of some line, and every message names some
      line that the grammar rejects, stripped. */
  lemma {:induction false} ScanProvenance(lines: seq<string>)
    ensures forall r :: r in Scan(lines).records ==>
      exists i :: 0 <= i < |lines| && Classify(lines[i]) == Parsed(r)
    ensures forall n :: n in Scan(lines).notices ==>
      exists i :: 0 <= i < |lines| && n.LineFormatIncorrect? && Classify(lines[i]) == Malformed(n.line)
  {
    if lines != [] {
      var init := lines[..|lines| - 1];
      ScanProvenance(init);
      forall r | r in Scan(lines).records
        ensures exists i :: 0 <= i < |lines| && Classify(lines[i]) == Parsed(r)
      {
        if r in Scan(init).records {
          var i :| 0 <= i < |init| && Classify(init[i]) == Parsed(r);
          assert lines[i] == init[i];
        } else {
          assert Classify(lines[|lines| - 1]) == Parsed(r);
        }
      }
      forall n | n in Scan(lines).notices
        ensures exists i :: 0 <= i < |lines| && n.LineFormatIncorrect? && Classify(lines[i]) == Malformed(n.line)
      {
        if n in Scan(init).notices {
          var i :| 0 <= i < |init| && n.LineFormatIncorrect? && Classify(init[i]) == Malformed(n.line);
          assert lines[i] == init[i];
        } else {
          assert Classify(lines[|lines| - 1]) == Malformed(n.line);
        }
      }
    }
  }

  /** Every record the loop keeps has the shape the grammar promises:
      comma-free non-empty fields and a non-empty run of digits and dots. */
  lemma {:induction false} ScanRecordsWellFormed(lines: seq<string>)
    ensures forall r :: r in Scan(lines).records ==> WellFormed(r)
  {
    ScanProvenance(lines);
    forall r | r in Scan(lines).records ensures WellFormed(r) {
      var i :| 0 <= i < |lines| && Classify(lines[i]) == Parsed(r);
      var g := MatchLineSound(Strip(lines[i]));
    }
  }

  // ---------------------------------------------------------------------------
  // The whole loader

  /** The loader either returns no rows, or returns exactly what the loop
      built and writes nothing but the loop's messages; rows it returns are
      well formed and survived both conversions. Per-line messages are never
      withdrawn, and at most one message follows them. */
  lemma LoadOutcome(file: HistoryFile, parsesAsDates: seq<string> -> bool)
    ensures var h := Load(file, parsesAsDates);
      h.records != [] ==>
        && file.Readable?
        && h == Scan(file.lines)
        && parsesAsDates(Timestamps(h.records))
        && (forall r :: r in h.records ==> WellFormed(r) && IsFloatLiteral(r.confidence))
    ensures !file.Missing? ==>
      var h := Load(file, parsesAsDates);
      var n := Scan(file.lines).notices;
      n <= h.notices && |h.notices| <= |n| + 1
  {
    if file.Readable? {
      ScanRecordsWellFormed(file.lines);
    }
  }

  /** The message that follows the per-line ones is never a per-line or a
      missing-file message; a faulty file always ends with the read error,
      and a readable file that yields no rows always ends with the "no
      history" message exactly when no line matched, and otherwise the error
      of the first conversion that fails. */
  lemma LoadFinalMessage(file: HistoryFile, parsesAsDates: seq<string> -> bool)
    ensures !file.Missing? ==>
      var h := Load(file, parsesAsDates);
      forall k :: |Scan(file.lines).notices| <= k < |h.notices| ==>
        !h.notices[k].LineFormatIncorrect? && !h.notices[k].FileMissing?
    ensures file.Faulty? ==>
      var h := Load(file, parsesAsDates);
      h.records == [] && h.notices != [] && h.notices[|h.notices| - 1] == ReadError(IoFault)
    ensures file.Readable? && Load(file, parsesAsDates).records == [] ==>
      var h, s := Load(file, parsesAsDates), Scan(file.lines);
      h.notices == s.notices + [
        if s.records == [] then NoHistoryAvailable
        else if !parsesAsDates(Timestamps(s.records)) then ReadError(TimestampConversion)
        else ReadError(ConfidenceConversion)]
  {
  }

  /** One line that does not match never costs the file its other records:
      whenever the records the loop kept pass both conversions, a readable
      file returns exactly them, with exactly the loop's messages. */
  lemma LoadKeepsRecords(lines: seq<string>, parsesAsDates: seq<string> -> bool)
    requires Scan(lines).records != []
    requires parsesAsDates(Timestamps(Scan(lines).records)) && ConfidencesConvert(Scan(lines).records)
    ensures Load(Readable(lines), parsesAsDates) == Scan(lines)
    ensures |Load(Readable(lines), parsesAsDates).records| == MatchingCount(lines)
  {
    OneOutcomePerLine(lines);
  }

  /** A missing file yields no rows and only "Prediction file does not exist.". */
  lemma MissingFileEmpty(parsesAsDates: seq<string> -> bool)
    ensures Load(Missing, parsesAsDates).records == []
    ensures forall n :: n in Load(Missing, parsesAsDates).notices ==> !n.LineFormatIncorrect?
    ensures Load(Missing, parsesAsDates) == LoadResult([], [FileMissing])
  {
  }

  /** A stretch of lines none of which matches contributes no record. */
  lemma {:induction false} NoMatchNoRecords(lines: seq<string>)
    requires forall i :: 0 <= i < |lines| ==> !Classify(lines[i]).Parsed?
    ensures Scan(lines).records == []
  {
    if lines != [] {
      var init := lines[..|lines| - 1];
      assert forall i :: 0 <= i < |init| ==> init[i] == lines[i];
      NoMatchNoRecords(init);
      assert !Classify(lines[|lines| - 1]).Parsed?;
    }
  }

  /** A file in which no line matches, the empty file included, yields no
      rows and says so after the per-line messages. */
  lemma NoMatchEmpty(lines: seq<string>, parsesAsDates: seq<string> -> bool)
    requires forall i :: 0 <= i < |lines| ==> !Classify(lines[i]).Parsed?
    ensures Load(Readable(lines), parsesAsDates) == LoadResult([], Scan(lines).notices + [NoHistoryAvailable])
  {
    NoMatchNoRecords(lines);
  }

  /** A line the prediction service writes, with its line terminator, is
      classified as its record, provided the timestamp does not begin with
      whitespace (which `strip` would remove). */
  lemma SerialisedLineParsed(r: Record, terminator: string)
    requires WellFormed(r) && !IsSpace(r.timestamp[0]) && AllSpace(terminator)
    ensures Classify(Serialise(r) + terminator) == Parsed(r)
  {
    var line := Serialise(r);
    SerialiseEnds(r);
    assert IsDigitOrDot(r.confidence[|r.confidence| - 1]);
    assert [] + line + terminator == line + terminator;
    StripOf([], line, terminator);
    SerialiseRoundTrip(r);
  }

  /** A record the prediction service can write so that it is read back:
      well formed, with a timestamp that `strip` leaves alone. */
  predicate Loggable(r: Record) {
    WellFormed(r) && !IsSpace(r.timestamp[0])
  }

  /** The file the prediction service writes for `records`, one line each. */
  function LogLines(records: seq<Record>): (lines: seq<string>)
    ensures |lines| == |records|
  {
    seq(|records|, k requires 0 <= k < |records| => Serialise(records[k]) + "\n")
  }

  /** One more line after `init` adds its contribution at the end. */
  lemma ScanSnoc(init: seq<string>, raw: string, c: LoadResult)
    requires Contribution(raw) == c
    ensures Scan(init + [raw]) == Concat(Scan(init), c)
  {
    ScanAppend(init, [raw]);
    ScanOne(raw);
  }

  /** A line the service writes, read after `init`, adds its record and no message. */
  lemma ScanLogLine(init: seq<string>, r: Record)
    requires Loggable(r)
    ensures Scan(init + [Serialise(r) + "\n"]) == Concat(Scan(init), LoadResult([r], []))
  {
    LogLineContribution(r);
    ScanSnoc(init, Serialise(r) + "\n", LoadResult([r], []));
  }

  lemma LogLineContribution(r: Record)
    requires Loggable(r)
    ensures Contribution(Serialise(r) + "\n") == LoadResult([r], [])
  {
    SerialisedLineParsed(r, "\n");
  }

  /** Reading back what the service wrote gives the records in order and no message. */
  lemma {:induction false} LogLinesScanned(records: seq<Record>)
    requires forall k :: 0 <= k < |records| ==> Loggable(records[k])
    ensures Scan(LogLines(records)) == LoadResult(records, [])
  {
    if records != [] {
      var n := |records| - 1;
      var init := records[..n];
      assert records == init + [records[n]];
      assert LogLines(records) == LogLines(init) + [Serialise(records[n]) + "\n"];
      LogLinesScanned(init);
      ScanLogLine(LogLines(init), records[n]);
    }
  }

  /** The loader returns exactly the records the service wrote, once both
      conversions accept them. */
  lemma LogLinesLoaded(records: seq<Record>, parsesAsDates: seq<string> -> bool)
    requires records != [] && forall k :: 0 <= k < |records| ==> Loggable(records[k])
    requires parsesAsDates(Timestamps(records)) && ConfidencesConvert(records)
    ensures Load(Readable(LogLines(records)), parsesAsDates) == LoadResult(records, [])
  {
    LogLinesScanned(records);
  }

  /** A blank line between two lines the service wrote is skipped: both
      records, in file order, and no message. */
  lemma BlankBetweenLogLines(r1: Record, blank: string, r2: Record)
    requires Loggable(r1) && Loggable(r2) && Strip(blank) == []
    ensures Scan([Serialise(r1) + "\n", blank, Serialise(r2) + "\n"]) == LoadResult([r1, r2], [])
  {
    LogLineContribution(r1);
    LogLineContribution(r2);
    ContributionOf(blank);
    ScanThree(Serialise(r1) + "\n", blank, Serialise(r2) + "\n");
  }

  lemma ScanTwo(a: string, b: string)
    ensures Scan([a, b]) == Concat(Contribution(a), Contribution(b))
  {
    assert [a, b] == [a] + [b];
    ScanSnoc([a], b, Contribution(b));
    ScanOne(a);
  }

  lemma ScanThree(a: string, b: string, c: string)
    ensures Scan([a, b, c]) == Concat(Concat(Contribution(a), Contribution(b)), Contribution(c))
  {
    assert [a, b, c] == [a] + [b] + [c];
    ScanSnoc([a] + [b], c, Contribution(c));
    ScanSnoc([a], b, Contribution(b));
    ScanOne(a);
  }
}
