/** Concrete history files and what the loader makes of them. */
module Scenarios {
  import opened Wrappers
  import opened Text
  import opened Grammar
  import opened History

  const FirstRecord := Record("2024-01-10 09:15:00", "farmer7", "tomato.png", "Tomato Blight", "0.5")
  /** `2024-01-10 09:15:00, User ID: farmer7, Image: tomato.png, Prediction: Tomato Blight, Confidence: 0.5`
      and its line feed. */
  const FirstLine := Serialise(FirstRecord) + "\n"

  const SecondRecord := Record("2024-01-11 14:30:00", "farmer9", "maize.jpg", "Maize Rust", "0.87")
  /** `2024-01-11 14:30:00, User ID: farmer9, Image: maize.jpg, Prediction: Maize Rust, Confidence: 0.87`
      and its line feed. */
  const SecondLine := Serialise(SecondRecord) + "\n"

  lemma RecordsLoggable()
    ensures Loggable(FirstRecord) && Loggable(SecondRecord) && Loggable(DottyRecord)
  {
    FirstLoggable();
    SecondLoggable();
    DottyLoggable();
  }

  lemma FirstLoggable() ensures Loggable(FirstRecord) {}
  lemma SecondLoggable() ensures Loggable(SecondRecord) {}
  lemma DottyLoggable() ensures Loggable(DottyRecord) {}

  lemma FirstLineParsed()
    ensures Contribution(FirstLine) == LoadResult([FirstRecord], [])
  {
    FirstLoggable();
    SerialisedLineParsed(FirstRecord, "\n");
  }

  /** A single well-formed line gives its record and no message, once the
      date parser accepts its timestamp. */
  lemma SingleLineLoaded(parsesAsDates: seq<string> -> bool)
    requires parsesAsDates(["2024-01-10 09:15:00"])
    ensures Load(Readable([FirstLine]), parsesAsDates) == LoadResult([FirstRecord], [])
  {
    SingleLineScanned();
    FirstConverts();
  }

  lemma FirstConverts()
    ensures Timestamps([FirstRecord]) == ["2024-01-10 09:15:00"]
    ensures ConfidencesConvert([FirstRecord])
  {
    assert IsDigit(FirstRecord.confidence[0]);
  }

  lemma SingleLineScanned()
    ensures Scan([FirstLine]) == LoadResult([FirstRecord], [])
  {
    FirstLineParsed();
    ScanOne(FirstLine);
  }

  /** A line with no fields gives one message carrying the stripped line and
      no record; the loader then reports that there is no history. */
  lemma GarbageLineReported(parsesAsDates: seq<string> -> bool)
    ensures Load(Readable(["garbage text\n"]), parsesAsDates) ==
      LoadResult([], [LineFormatIncorrect("garbage text"), NoHistoryAvailable])
  {
    GarbageLineContribution();
    ScanOne("garbage text\n");
  }

  lemma GarbageLineContribution()
    ensures Contribution("garbage text\n") == LoadResult([], [LineFormatIncorrect("garbage text")])
  {
    GarbageLineStripped();
    GarbageLineRejected();
    ContributionOf("garbage text\n");
  }

  lemma GarbageLineStripped()
    ensures Strip("garbage text\n") == "garbage text"
  {
    assert [] + "garbage text" + "\n" == "garbage text\n";
    StripOf([], "garbage text", "\n");
  }

  lemma GarbageLineRejected()
    ensures MatchLine("garbage text").None?
  {
    NoCommaRejected("garbage text");
  }

  /** A line that does not match is reported, and the well-formed line
      before it still comes back. */
  lemma GarbageLineKeepsRecord(parsesAsDates: seq<string> -> bool)
    requires parsesAsDates(["2024-01-10 09:15:00"])
    ensures Load(Readable([FirstLine, "garbage text\n"]), parsesAsDates) ==
      LoadResult([FirstRecord], [LineFormatIncorrect("garbage text")])
  {
    GarbageAfterFirstScanned();
    FirstConverts();
    LoadKeepsRecords([FirstLine, "garbage text\n"], parsesAsDates);
  }

  lemma GarbageAfterFirstScanned()
    ensures Scan([FirstLine, "garbage text\n"]) ==
      LoadResult([FirstRecord], [LineFormatIncorrect("garbage text")])
  {
    FirstLineParsed();
    GarbageLineContribution();
    ScanTwo(FirstLine, "garbage text\n");
  }

  /** A blank line between two well-formed lines is skipped: two records in
      file order and no message. */
  lemma BlankLineBetweenRecords(parsesAsDates: seq<string> -> bool)
    requires parsesAsDates(["2024-01-10 09:15:00", "2024-01-11 14:30:00"])
    ensures Load(Readable([FirstLine, "\n", SecondLine]), parsesAsDates) ==
      LoadResult([FirstRecord, SecondRecord], [])
  {
    BlankLineBetweenScanned();
    BothConvert(parsesAsDates);
  }

  lemma BlankLineBetweenScanned()
    ensures Scan([FirstLine, "\n", SecondLine]) == LoadResult([FirstRecord, SecondRecord], [])
  {
    LineFeedBlank();
    FirstLoggable();
    SecondLoggable();
    BlankBetweenLogLines(FirstRecord, "\n", SecondRecord);
  }

  lemma LineFeedBlank()
    ensures Strip("\n") == []
  {
  }

  lemma BothConvert(parsesAsDates: seq<string> -> bool)
    requires parsesAsDates(["2024-01-10 09:15:00", "2024-01-11 14:30:00"])
    ensures parsesAsDates(Timestamps([FirstRecord, SecondRecord]))
    ensures ConfidencesConvert([FirstRecord, SecondRecord])
  {
    assert Timestamps([FirstRecord, SecondRecord]) == ["2024-01-10 09:15:00", "2024-01-11 14:30:00"];
    assert IsDigit(FirstRecord.confidence[0]) && IsDigit(SecondRecord.confidence[0]);
  }

  /** An empty file gives no rows and only the "no history" message. */
  lemma EmptyFileLoaded(parsesAsDates: seq<string> -> bool)
    ensures Load(Readable([]), parsesAsDates) == LoadResult([], [NoHistoryAvailable])
  {
  }

  const DottyRecord := Record("2024-01-12 08:00:00", "farmer7", "potato.jpg", "Early Blight", "1.2.3")
  /** `2024-01-12 08:00:00, User ID: farmer7, Image: potato.jpg, Prediction: Early Blight, Confidence: 1.2.3`
      and its line feed. */
  const DottyLine := Serialise(DottyRecord) + "\n"

  /** The grammar accepts a confidence with two dots, but `float()` does not,
      and that one line discards every record of the file. */
  lemma TwoDotConfidenceEmptiesResult(parsesAsDates: seq<string> -> bool)
    requires parsesAsDates(["2024-01-10 09:15:00", "2024-01-12 08:00:00"])
    ensures Load(Readable([FirstLine, DottyLine]), parsesAsDates) ==
      LoadResult([], [ReadError(ConfidenceConversion)])
  {
    var records := [FirstRecord, DottyRecord];
    assert [FirstLine, DottyLine] == LogLines(records);
    RecordsLoggable();
    LogLinesScanned(records);
    DottyRejected(parsesAsDates);
  }

  lemma DottyRejected(parsesAsDates: seq<string> -> bool)
    requires parsesAsDates(["2024-01-10 09:15:00", "2024-01-12 08:00:00"])
    ensures parsesAsDates(Timestamps([FirstRecord, DottyRecord]))
    ensures !ConfidencesConvert([FirstRecord, DottyRecord])
  {
    assert Timestamps([FirstRecord, DottyRecord]) == ["2024-01-10 09:15:00", "2024-01-12 08:00:00"];
    assert !IsFloatLiteral(DottyRecord.confidence) by {
      assert DottyRecord.confidence[1] == '.' && DottyRecord.confidence[3] == '.';
    }
    assert [FirstRecord, DottyRecord][1] == DottyRecord;
  }
}
