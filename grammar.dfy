/** The record grammar of one prediction-history line (app.py, line 33):

      ^(?P<timestamp>[^,]+),\s*User ID:\s*(?P<user_id>[^,]+),\s*Image:\s*(?P<image>[^,]+),
       \s*Prediction:\s*(?P<prediction>[^,]+),\s*Confidence:\s*(?P<confidence>[\d\.]+)

    `MatchLine` is a hand-written matcher that returns the captures of the first
    match Python's backtracking engine finds with `pattern.match`.  Its
    specification is `FormatLine`: a line matches with record `r` exactly when
    it is `FormatLine(r, g)` for a well-formed record and a valid layout `g`
    (the whitespace each `\s*` consumes and the unread tail). */
module Grammar {
  import opened Wrappers
  import opened Text

  /** The five named groups of one match, as text (the `groupdict()` of the match). */
  datatype Record = Record(
    timestamp: string,
    userId: string,
    image: string,
    prediction: string,
    confidence: string)

  /** The text the pattern's eight `\s*` consume (before and after each tag),
      and the text after the confidence that `pattern.match` leaves unread. */
  datatype Layout = Layout(
    beforeUserId: string, afterUserId: string,
    beforeImage: string, afterImage: string,
    beforePrediction: string, afterPrediction: string,
    beforeConfidence: string, afterConfidence: string,
    tail: string)

  const UserIdLabel: string := "User ID:"
  const ImageLabel: string := "Image:"
  const PredictionLabel: string := "Prediction:"
  const ConfidenceLabel: string := "Confidence:"

  /** What a `\s*(?P<name>[^,]+)` group followed by `,` captures in the first
      match: a non-empty comma-free run; the greedy `\s*` takes all leading
      whitespace but gives back one character when the run is only whitespace,
      so a capture begins with whitespace only when it is that one character. */
  predicate IsFieldCapture(c: string) {
    c != [] && CommaFree(c) && (IsSpace(c[0]) ==> |c| == 1)
  }

  /** The captures of a match: a non-empty comma-free timestamp, three field
      captures, and a non-empty run of digits and dots. */
  predicate WellFormed(r: Record) {
    && r.timestamp != [] && CommaFree(r.timestamp)
    && IsFieldCapture(r.userId)
    && IsFieldCapture(r.image)
    && IsFieldCapture(r.prediction)
    && r.confidence != [] && AllDigitOrDot(r.confidence)
  }

  /** Every gap is whitespace, and the unread tail does not go on with a digit
      or a dot (the greedy `[\d\.]+` would have taken it). */
  predicate ValidLayout(g: Layout) {
    && AllSpace(g.beforeUserId) && AllSpace(g.afterUserId)
    && AllSpace(g.beforeImage) && AllSpace(g.afterImage)
    && AllSpace(g.beforePrediction) && AllSpace(g.afterPrediction)
    && AllSpace(g.beforeConfidence) && AllSpace(g.afterConfidence)
    && (g.tail == [] || !IsDigitOrDot(g.tail[0]))
  }

  /** The line a record and a layout spell out, in the order of the pattern:
      timestamp `,` beforeUserId `User ID:` afterUserId userId `,` ... `,`
      beforeConfidence `Confidence:` afterConfidence confidence tail. */
  function FormatLine(r: Record, g: Layout): string {
    r.timestamp + ("," +
      FieldText(UserIdLabel, g.beforeUserId, g.afterUserId, r.userId,
        FieldText(ImageLabel, g.beforeImage, g.afterImage, r.image,
          FieldText(PredictionLabel, g.beforePrediction, g.afterPrediction, r.prediction,
            ConfidenceText(g.beforeConfidence, g.afterConfidence, r.confidence, g.tail)))))
  }

  /** One `\s*<tag>\s*<capture>,` part of a line, followed by the rest of the line. */
  function FieldText(tag: string, before: string, after: string, capture: string, rest: string): string {
    before + (tag + (after + (capture + ("," + rest))))
  }

  /** The closing `\s*Confidence:\s*<confidence>` part, followed by the unread tail. */
  function ConfidenceText(before: string, after: string, confidence: string, tail: string): string {
    before + (ConfidenceLabel + (after + (confidence + tail)))
  }

  /** The layout of the lines the prediction service appends to the log:
      one space after each comma and after each tag, nothing after the confidence. */
  const LogLayout: Layout := Layout(" ", " ", " ", " ", " ", " ", " ", " ", "")

  /** `line` is matched by the pattern and the first match captures `r`. */
  ghost predicate Matches(line: string, r: Record) {
    WellFormed(r) && exists g :: ValidLayout(g) && line == FormatLine(r, g)
  }

  // ---------------------------------------------------------------------------
  // The matcher

  /** `\s*<tag>` at the start of `s`: the text after the tag. */
  function SkipTag(s: string, tag: string): Option<string> {
    var s1 := s[LeadingSpace(s)..];
    if tag <= s1 then Some(s1[|tag|..]) else None
  }

  /** `\s*(?P<name>[^,]+),` at the start of `s`: the capture and the text
      after its comma.  The greedy `\s*` gives back one character when the
      comma-free run is all whitespace, so that `[^,]+` can match. */
  function CaptureField(s: string): Option<(string, string)> {
    match SplitComma(s)
    case None => None
    case Some((segment, rest)) =>
      if segment == [] then
        None
      else
        var lead := LeadingSpace(segment);
        var k := if lead < |segment| then lead else |segment| - 1;
        Some((segment[k..], rest))
  }

  /** `\s*(?P<confidence>[\d\.]+)` at the start of `s`; what follows the run
      is not examined. */
  function CaptureConfidence(s: string): Option<string> {
    var s1 := s[LeadingSpace(s)..];
    var m := DigitDotRun(s1);
    if m == 0 then None else Some(s1[..m])
  }

  /** `\s*<tag>\s*(?P<name>[^,]+),` at the start of `s`. */
  function LabelledField(s: string, tag: string): Option<(string, string)> {
    match SkipTag(s, tag)
    case None => None
    case Some(s1) => CaptureField(s1)
  }

  /** `\s*Confidence:\s*(?P<confidence>[\d\.]+)` at the start of `s`. */
  function ConfidenceField(s: string): Option<string> {
    match SkipTag(s, ConfidenceLabel)
    case None => None
    case Some(s1) => CaptureConfidence(s1)
  }

  /** `pattern.match(line)`: the captures of the first match, or `None`. */
  function MatchLine(line: string): Option<Record> {
    match SplitComma(line)
    case None => None
    case Some((timestamp, rest)) =>
      if timestamp == [] then None else MatchFields(timestamp, rest)
  }

  /** The part of the pattern after the timestamp's comma. */
  function MatchFields(timestamp: string, s: string): Option<Record> {
    match LabelledField(s, UserIdLabel)
    case None => None
    case Some((userId, s1)) =>
      match LabelledField(s1, ImageLabel)
      case None => None
      case Some((image, s2)) =>
        match LabelledField(s2, PredictionLabel)
        case None => None
        case Some((prediction, s3)) =>
          match ConfidenceField(s3)
          case None => None
          case Some(confidence) => Some(Record(timestamp, userId, image, prediction, confidence))
  }

  /** The line the prediction service writes for a record. */
  function Serialise(r: Record): string {
    FormatLine(r, LogLayout)
  }

  // ---------------------------------------------------------------------------
  // Soundness and completeness of the matcher, stage by stage

  lemma SkipTagSound(s: string, tag: string, s1: string) returns (before: string)
    requires SkipTag(s, tag) == Some(s1)
    ensures AllSpace(before) && s == before + (tag + s1)
  {
    var a := LeadingSpace(s);
    LeadingSpaceSpec(s);
    before := s[..a];
    assert s[a..] == tag + s1;
  }

  lemma SkipTagComplete(tag: string, before: string, s1: string)
    requires tag != [] && !IsSpace(tag[0]) && AllSpace(before)
    ensures SkipTag(before + (tag + s1), tag) == Some(s1)
  {
    var s := before + (tag + s1);
    LeadingSpaceOf(before, tag + s1);
    assert s[|before|..] == tag + s1;
  }

  lemma CaptureFieldSound(s: string, c: string, rest: string) returns (after: string)
    requires CaptureField(s) == Some((c, rest))
    ensures AllSpace(after) && IsFieldCapture(c)
    ensures s == after + (c + ("," + rest))
  {
    SplitCommaSpec(s);
    var (segment, rest') := SplitComma(s).value;
    assert rest' == rest && segment != [];
    assert s == segment + ("," + rest);
    var lead := LeadingSpace(segment);
    LeadingSpaceSpec(segment);
    var k := if lead < |segment| then lead else |segment| - 1;
    assert c == segment[k..];
    after := segment[..k];
    assert segment == after + c;
    assert AllSpace(after) by {
      forall j | 0 <= j < |after| ensures IsSpace(after[j]) {
        assert after[j] == segment[j];
      }
    }
    assert CommaFree(c) by {
      forall j | 0 <= j < |c| ensures c[j] != ',' {
        assert c[j] == segment[k + j];
      }
    }
    assert IsSpace(c[0]) ==> |c| == 1 by {
      if lead < |segment| {
        assert c[0] == segment[lead];
      }
    }
  }

  lemma CaptureFieldComplete(after: string, c: string, rest: string)
    requires AllSpace(after) && IsFieldCapture(c)
    ensures CaptureField(after + (c + ("," + rest))) == Some((c, rest))
  {
    var s := after + (c + ("," + rest));
    var segment := after + c;
    assert s == segment + ("," + rest);
    assert CommaFree(segment) by {
      forall j | 0 <= j < |segment| ensures segment[j] != ',' {
        if j < |after| {
          assert IsSpace(after[j]);
        } else {
          assert segment[j] == c[j - |after|];
        }
      }
    }
    SplitCommaOf(segment, rest);
    if IsSpace(c[0]) {
      assert AllSpace(segment) by {
        forall j | 0 <= j < |segment| ensures IsSpace(segment[j]) {
          if j < |after| {
            assert IsSpace(after[j]);
          } else {
            assert segment[j] == c[0];
          }
        }
      }
      assert segment + [] == segment;
      LeadingSpaceOf(segment, []);
    } else {
      LeadingSpaceOf(after, c);
    }
    assert segment[|after|..] == c;
  }

  lemma CaptureConfidenceSound(s: string, c: string) returns (after: string, tail: string)
    requires CaptureConfidence(s) == Some(c)
    ensures AllSpace(after) && c != [] && AllDigitOrDot(c)
    ensures tail == [] || !IsDigitOrDot(tail[0])
    ensures s == after + (c + tail)
  {
    var a := LeadingSpace(s);
    var s1 := s[a..];
    var m := DigitDotRun(s1);
    LeadingSpaceSpec(s);
    DigitDotRunSpec(s1);
    after, tail := s[..a], s1[m..];
    assert s1 == c + tail;
  }

  lemma CaptureConfidenceComplete(after: string, c: string, tail: string)
    requires AllSpace(after) && c != [] && AllDigitOrDot(c)
    requires tail == [] || !IsDigitOrDot(tail[0])
    ensures CaptureConfidence(after + (c + tail)) == Some(c)
  {
    var s := after + (c + tail);
    assert !IsSpace(c[0]);
    LeadingSpaceOf(after, c + tail);
    assert s[|after|..] == c + tail;
    DigitDotRunOf(c, tail);
    assert (c + tail)[..|c|] == c;
  }

  lemma LabelledFieldSound(s: string, tag: string, c: string, rest: string) returns (before: string, after: string)
    requires LabelledField(s, tag) == Some((c, rest))
    ensures AllSpace(before) && AllSpace(after) && IsFieldCapture(c)
    ensures s == FieldText(tag, before, after, c, rest)
  {
    var s1 := SkipTag(s, tag).value;
    before := SkipTagSound(s, tag, s1);
    after := CaptureFieldSound(s1, c, rest);
  }

  lemma LabelledFieldComplete(tag: string, before: string, after: string, c: string, rest: string)
    requires tag != [] && !IsSpace(tag[0])
    requires AllSpace(before) && AllSpace(after) && IsFieldCapture(c)
    ensures LabelledField(FieldText(tag, before, after, c, rest), tag) == Some((c, rest))
  {
    SkipTagComplete(tag, before, after + (c + ("," + rest)));
    CaptureFieldComplete(after, c, rest);
  }

  lemma ConfidenceFieldSound(s: string, c: string) returns (before: string, after: string, tail: string)
    requires ConfidenceField(s) == Some(c)
    ensures AllSpace(before) && AllSpace(after) && c != [] && AllDigitOrDot(c)
    ensures tail == [] || !IsDigitOrDot(tail[0])
    ensures s == ConfidenceText(before, after, c, tail)
  {
    var s1 := SkipTag(s, ConfidenceLabel).value;
    before := SkipTagSound(s, ConfidenceLabel, s1);
    after, tail := CaptureConfidenceSound(s1, c);
  }

  lemma ConfidenceFieldComplete(before: string, after: string, c: string, tail: string)
    requires AllSpace(before) && AllSpace(after) && c != [] && AllDigitOrDot(c)
    requires tail == [] || !IsDigitOrDot(tail[0])
    ensures ConfidenceField(ConfidenceText(before, after, c, tail)) == Some(c)
  {
    SkipTagComplete(ConfidenceLabel, before, after + (c + tail));
    CaptureConfidenceComplete(after, c, tail);
  }

  /** Every record `MatchLine` returns is well formed, and the line is that
      record spelt out in some valid layout. */
  lemma MatchLineSound(line: string) returns (g: Layout)
    requires MatchLine(line).Some?
    ensures WellFormed(MatchLine(line).value)
    ensures ValidLayout(g) && line == FormatLine(MatchLine(line).value, g)
  {
    SplitCommaSpec(line);
    var (timestamp, rest) := SplitComma(line).value;
    g := MatchFieldsSound(timestamp, rest);
  }

  lemma MatchFieldsSound(timestamp: string, s0: string) returns (g: Layout)
    requires MatchFields(timestamp, s0).Some?
    ensures ValidLayout(g)
    ensures var r := MatchFields(timestamp, s0).value;
      && r.timestamp == timestamp
      && IsFieldCapture(r.userId) && IsFieldCapture(r.image) && IsFieldCapture(r.prediction)
      && r.confidence != [] && AllDigitOrDot(r.confidence)
      && timestamp + ("," + s0) == FormatLine(r, g)
  {
    var r := MatchFields(timestamp, s0).value;
    var (u, s1) := LabelledField(s0, UserIdLabel).value;
    var bu, au := LabelledFieldSound(s0, UserIdLabel, u, s1);
    var (i, s2) := LabelledField(s1, ImageLabel).value;
    var bi, ai := LabelledFieldSound(s1, ImageLabel, i, s2);
    var (p, s3) := LabelledField(s2, PredictionLabel).value;
    var bp, ap := LabelledFieldSound(s2, PredictionLabel, p, s3);
    var bc, ac, tail := ConfidenceFieldSound(s3, r.confidence);
    g := Layout(bu, au, bi, ai, bp, ap, bc, ac, tail);
  }

  /** Every well-formed record spelt out in a valid layout is matched, and the
      first match captures exactly that record. */
  lemma MatchLineComplete(r: Record, g: Layout)
    requires WellFormed(r) && ValidLayout(g)
    ensures MatchLine(FormatLine(r, g)) == Some(r)
  {
    var s0 := MatchFieldsComplete(r, g);
    SplitCommaOf(r.timestamp, s0);
  }

  lemma MatchFieldsComplete(r: Record, g: Layout) returns (s0: string)
    requires WellFormed(r) && ValidLayout(g)
    ensures FormatLine(r, g) == r.timestamp + ("," + s0)
    ensures MatchFields(r.timestamp, s0) == Some(r)
  {
    var s3 := ConfidenceText(g.beforeConfidence, g.afterConfidence, r.confidence, g.tail);
    var s2 := FieldText(PredictionLabel, g.beforePrediction, g.afterPrediction, r.prediction, s3);
    var s1 := FieldText(ImageLabel, g.beforeImage, g.afterImage, r.image, s2);
    s0 := FieldText(UserIdLabel, g.beforeUserId, g.afterUserId, r.userId, s1);
    assert LabelledField(s0, UserIdLabel) == Some((r.userId, s1)) by {
      LabelledFieldComplete(UserIdLabel, g.beforeUserId, g.afterUserId, r.userId, s1);
    }
    assert LabelledField(s1, ImageLabel) == Some((r.image, s2)) by {
      LabelledFieldComplete(ImageLabel, g.beforeImage, g.afterImage, r.image, s2);
    }
    assert LabelledField(s2, PredictionLabel) == Some((r.prediction, s3)) by {
      LabelledFieldComplete(PredictionLabel, g.beforePrediction, g.afterPrediction, r.prediction, s3);
    }
    assert ConfidenceField(s3) == Some(r.confidence) by {
      ConfidenceFieldComplete(g.beforeConfidence, g.afterConfidence, r.confidence, g.tail);
    }
  }

  /** The matcher returns `r` exactly when the pattern's first match on `line`
      captures `r`. */
  lemma MatchLineIff(line: string, r: Record)
    ensures MatchLine(line) == Some(r) <==> Matches(line, r)
  {
    if MatchLine(line) == Some(r) {
      var g := MatchLineSound(line);
    }
    if Matches(line, r) {
      var g :| ValidLayout(g) && line == FormatLine(r, g);
      MatchLineComplete(r, g);
    }
  }

  /** Matching the line the prediction service writes recovers the record. */
  lemma SerialiseRoundTrip(r: Record)
    requires WellFormed(r)
    ensures MatchLine(Serialise(r)) == Some(r)
  {
    assert ValidLayout(LogLayout);
    MatchLineComplete(r, LogLayout);
  }

  /** The line the prediction service writes begins with the timestamp and
      ends with the confidence. */
  lemma SerialiseEnds(r: Record)
    requires r.timestamp != [] && r.confidence != []
    ensures var line := Serialise(r);
      line != [] && line[0] == r.timestamp[0] && line[|line| - 1] == r.confidence[|r.confidence| - 1]
  {
    var c := r.confidence;
    var last := c[|c| - 1];
    var t0 := ConfidenceText(" ", " ", c, "");
    assert c + "" == c;
    assert t0[|t0| - 1] == last;
    var t1 := FieldText(PredictionLabel, " ", " ", r.prediction, t0);
    assert t1[|t1| - 1] == last;
    var t2 := FieldText(ImageLabel, " ", " ", r.image, t1);
    assert t2[|t2| - 1] == last;
    var t3 := FieldText(UserIdLabel, " ", " ", r.userId, t2);
    assert t3[|t3| - 1] == last;
    var line := r.timestamp + ("," + t3);
    assert line == Serialise(r);
    assert line[|line| - 1] == last;
  }

  /** A line without a comma never matches: the timestamp needs one to end. */
  lemma NoCommaRejected(line: string)
    requires CommaFree(line)
    ensures MatchLine(line).None?
  {
    SplitCommaNone(line);
  }

  /** The first thing after the timestamp's comma and whitespace must be the
      `User ID:` tag; in particular a line that gives the image first is
      rejected. */
  lemma UserIdTagFirst(timestamp: string, w: string, x: string)
    requires CommaFree(timestamp) && AllSpace(w)
    requires x != [] && !IsSpace(x[0]) && !(UserIdLabel <= x)
    ensures MatchLine(timestamp + ("," + (w + x))).None?
  {
    SplitCommaOf(timestamp, w + x);
    LeadingSpaceOf(w, x);
    assert (w + x)[|w|..] == x;
    assert SkipTag(w + x, UserIdLabel).None?;
  }

  lemma FieldTextAppend(tag: string, before: string, after: string, c: string, rest: string, extra: string)
    ensures FieldText(tag, before, after, c, rest) + extra == FieldText(tag, before, after, c, rest + extra)
  {
    assert "," + rest + extra == "," + (rest + extra);
    assert c + ("," + rest) + extra == c + ("," + (rest + extra));
    assert after + (c + ("," + rest)) + extra == after + (c + ("," + (rest + extra)));
    assert tag + (after + (c + ("," + rest))) + extra == tag + (after + (c + ("," + (rest + extra))));
  }

  lemma ConfidenceTextAppend(before: string, after: string, c: string, tail: string, extra: string)
    ensures ConfidenceText(before, after, c, tail) + extra == ConfidenceText(before, after, c, tail + extra)
  {
    assert c + tail + extra == c + (tail + extra);
    assert after + (c + tail) + extra == after + (c + (tail + extra));
    assert ConfidenceLabel + (after + (c + tail)) + extra == ConfidenceLabel + (after + (c + (tail + extra)));
  }

  /** Appending to a spelt-out line only lengthens its unread tail. */
  lemma FormatLineAppend(r: Record, g: Layout, extra: string)
    ensures FormatLine(r, g) + extra == FormatLine(r, g.(tail := g.tail + extra))
  {
    var t0 := ConfidenceText(g.beforeConfidence, g.afterConfidence, r.confidence, g.tail);
    ConfidenceTextAppend(g.beforeConfidence, g.afterConfidence, r.confidence, g.tail, extra);
    var t1 := FieldText(PredictionLabel, g.beforePrediction, g.afterPrediction, r.prediction, t0);
    FieldTextAppend(PredictionLabel, g.beforePrediction, g.afterPrediction, r.prediction, t0, extra);
    var t2 := FieldText(ImageLabel, g.beforeImage, g.afterImage, r.image, t1);
    FieldTextAppend(ImageLabel, g.beforeImage, g.afterImage, r.image, t1, extra);
    var t3 := FieldText(UserIdLabel, g.beforeUserId, g.afterUserId, r.userId, t2);
    FieldTextAppend(UserIdLabel, g.beforeUserId, g.afterUserId, r.userId, t2, extra);
    assert r.timestamp + ("," + t3) + extra == r.timestamp + ("," + (t3 + extra));
  }

  /** Whatever follows the confidence run is not examined: appending text that
      does not continue the run leaves the match unchanged. */
  lemma TailIgnored(line: string, extra: string)
    requires MatchLine(line).Some?
    requires extra == [] || !IsDigitOrDot(extra[0])
    ensures MatchLine(line + extra) == MatchLine(line)
  {
    var r := MatchLine(line).value;
    var g := MatchLineSound(line);
    var g' := g.(tail := g.tail + extra);
    assert ValidLayout(g') by {
      if g.tail != [] {
        assert g'.tail[0] == g.tail[0];
      }
    }
    FormatLineAppend(r, g, extra);
    MatchLineComplete(r, g');
  }
}
