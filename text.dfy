/** Character classes and scanning helpers shared by the history-line grammar.
    Everything here is restricted to ASCII: Python's `str.strip()` and the
    regular expression classes `\s` and `\d` also accept non-ASCII whitespace
    and digits, which this model treats as ordinary characters. */
module Text {
  import opened Wrappers

  /** Python's `str.isspace()` on ASCII, which is also what `\s` matches in a
      `str` pattern: tab, line feed, vertical tab, form feed, carriage return,
      the four information separators U+001C..U+001F, and space. */
  predicate IsSpace(c: char) {
    var n := c as int;
    n == 32 || 9 <= n <= 13 || 28 <= n <= 31
  }

  /** The class `\d`, ASCII only. */
  predicate IsDigit(c: char) {
    '0' <= c <= '9'
  }

  /** The class `[\d\.]`. */
  predicate IsDigitOrDot(c: char) {
    IsDigit(c) || c == '.'
  }

  predicate AllSpace(s: string) {
    forall k :: 0 <= k < |s| ==> IsSpace(s[k])
  }

  predicate CommaFree(s: string) {
    forall k :: 0 <= k < |s| ==> s[k] != ','
  }

  predicate AllDigitOrDot(s: string) {
    forall k :: 0 <= k < |s| ==> IsDigitOrDot(s[k])
  }

  /** Length of the longest all-whitespace prefix: what a greedy `\s*` consumes. */
  function LeadingSpace(s: string): (n: nat)
    ensures n <= |s|
  {
    if s != [] && IsSpace(s[0]) then
      1 + LeadingSpace(s[1..])
    else
      0
  }

  /** `LeadingSpace` counts whitespace and stops at the first other character. */
  lemma {:induction false} LeadingSpaceSpec(s: string)
    ensures forall k :: 0 <= k < LeadingSpace(s) ==> IsSpace(s[k])
    ensures LeadingSpace(s) < |s| ==> !IsSpace(s[LeadingSpace(s)])
  {
    if s != [] && IsSpace(s[0]) {
      LeadingSpaceSpec(s[1..]);
    }
  }

  /** Length of the longest all-whitespace suffix. */
  function TrailingSpace(s: string): (n: nat)
    ensures n <= |s|
  {
    if s != [] && IsSpace(s[|s| - 1]) then
      1 + TrailingSpace(s[..|s| - 1])
    else
      0
  }

  /** `TrailingSpace` counts whitespace from the end and stops at the last other character. */
  lemma {:induction false} TrailingSpaceSpec(s: string)
    ensures forall k :: |s| - TrailingSpace(s) <= k < |s| ==> IsSpace(s[k])
    ensures TrailingSpace(s) < |s| ==> !IsSpace(s[|s| - TrailingSpace(s) - 1])
  {
    if s != [] && IsSpace(s[|s| - 1]) {
      TrailingSpaceSpec(s[..|s| - 1]);
    }
  }

  /** The text before the first comma and the text after that comma, or
      `None` when there is no comma. */
  function SplitComma(s: string): Option<(string, string)> {
    if s == [] then
      None
    else if s[0] == ',' then
      Some(([], s[1..]))
    else
      match SplitComma(s[1..])
      case None => None
      case Some((head, rest)) => Some(([s[0]] + head, rest))
  }

  /** `SplitComma` cuts at the first comma, and finds none only in comma-free text. */
  lemma {:induction false} SplitCommaSpec(s: string)
    ensures SplitComma(s).None? ==> CommaFree(s)
    ensures SplitComma(s).Some? ==>
      var (head, rest) := SplitComma(s).value;
      CommaFree(head) && s == head + ("," + rest)
  {
    if s != [] && s[0] != ',' {
      SplitCommaSpec(s[1..]);
      if SplitComma(s[1..]).Some? {
        var (head, rest) := SplitComma(s[1..]).value;
        assert s == [s[0]] + s[1..];
        assert CommaFree([s[0]] + head) by {
          forall k | 0 <= k < |head| + 1 ensures ([s[0]] + head)[k] != ',' {
            if k > 0 {
              assert ([s[0]] + head)[k] == head[k - 1];
            }
          }
        }
      } else {
        assert forall k :: 1 <= k < |s| ==> s[k] == s[1..][k - 1];
      }
    }
  }

  /** `SplitComma` finds the comma that ends the comma-free prefix `x`. */
  lemma {:induction false} SplitCommaOf(x: string, y: string)
    requires CommaFree(x)
    ensures SplitComma(x + ("," + y)) == Some((x, y))
  {
    var s := x + ("," + y);
    if x == [] {
      assert s == "," + y;
      assert s[1..] == y;
    } else {
      assert s[0] == x[0];
      assert s[1..] == x[1..] + ("," + y);
      assert CommaFree(x[1..]) by {
        forall k | 0 <= k < |x| - 1 ensures x[1..][k] != ',' {
          assert x[1..][k] == x[k + 1];
        }
      }
      SplitCommaOf(x[1..], y);
      assert [x[0]] + x[1..] == x;
    }
  }

  /** `SplitComma` finds no comma in comma-free text. */
  lemma {:induction false} SplitCommaNone(s: string)
    requires CommaFree(s)
    ensures SplitComma(s).None?
  {
    if s != [] {
      assert s[0] != ',';
      assert CommaFree(s[1..]) by {
        forall k | 0 <= k < |s| - 1 ensures s[1..][k] != ',' {
          assert s[1..][k] == s[k + 1];
        }
      }
      SplitCommaNone(s[1..]);
    }
  }

  /** Length of the longest prefix of digits and dots: what a greedy
      `[\d\.]+` consumes (the match fails when it is 0). */
  function DigitDotRun(s: string): (n: nat)
    ensures n <= |s|
  {
    if s != [] && IsDigitOrDot(s[0]) then
      1 + DigitDotRun(s[1..])
    else
      0
  }

  /** `DigitDotRun` counts digits and dots and stops at the first other character. */
  lemma {:induction false} DigitDotRunSpec(s: string)
    ensures forall k :: 0 <= k < DigitDotRun(s) ==> IsDigitOrDot(s[k])
    ensures DigitDotRun(s) < |s| ==> !IsDigitOrDot(s[DigitDotRun(s)])
  {
    if s != [] && IsDigitOrDot(s[0]) {
      DigitDotRunSpec(s[1..]);
    }
  }

  /** Python's `str.strip()` with no argument (ASCII whitespace). */
  function Strip(s: string): (r: string)
    ensures r == [] <==> AllSpace(s)
    ensures r != [] ==> !IsSpace(r[0]) && !IsSpace(r[|r| - 1])
  {
    var a := LeadingSpace(s);
    var t := s[a..];
    var b := TrailingSpace(t);
    LeadingSpaceSpec(s);
    TrailingSpaceSpec(t);
    if t == [] then
      []
    else
      assert t[..|t| - b] != [] by { assert |t[..|t| - b]| > 0; }
      t[..|t| - b]
  }

  /** `LeadingSpace` stops exactly where the whitespace prefix `w` ends. */
  lemma LeadingSpaceOf(w: string, x: string)
    requires AllSpace(w)
    requires x == [] || !IsSpace(x[0])
    ensures LeadingSpace(w + x) == |w|
  {
    var s := w + x;
    var n := LeadingSpace(s);
    LeadingSpaceSpec(s);
    assert forall k :: 0 <= k < |w| ==> IsSpace(s[k]);
    if x != [] {
      assert s[|w|] == x[0];
    }
  }

  /** `TrailingSpace` stops exactly where the whitespace suffix `w` begins. */
  lemma TrailingSpaceOf(x: string, w: string)
    requires AllSpace(w)
    requires x == [] || !IsSpace(x[|x| - 1])
    ensures TrailingSpace(x + w) == |w|
  {
    var s := x + w;
    var n := TrailingSpace(s);
    TrailingSpaceSpec(s);
    assert forall k :: |x| <= k < |s| ==> IsSpace(s[k]);
    if x != [] {
      assert s[|x| - 1] == x[|x| - 1];
    }
  }

  /** `DigitDotRun` takes all of `c` and nothing of a tail that does not go on
      with a digit or a dot. */
  lemma DigitDotRunOf(c: string, tail: string)
    requires AllDigitOrDot(c)
    requires tail == [] || !IsDigitOrDot(tail[0])
    ensures DigitDotRun(c + tail) == |c|
  {
    var s := c + tail;
    var n := DigitDotRun(s);
    DigitDotRunSpec(s);
    assert forall k :: 0 <= k < |c| ==> IsDigitOrDot(s[k]);
    if tail != [] {
      assert s[|c|] == tail[0];
    }
  }

  /** `Strip` removes exactly the surrounding whitespace: it recovers any text
      that neither starts nor ends with whitespace from between whitespace runs. */
  lemma StripOf(w: string, x: string, w': string)
    requires AllSpace(w) && AllSpace(w')
    requires x != [] && !IsSpace(x[0]) && !IsSpace(x[|x| - 1])
    ensures Strip(w + x + w') == x
  {
    var s := w + x + w';
    assert s == w + (x + w');
    LeadingSpaceOf(w, x + w');
    assert s[|w|..] == x + w';
    TrailingSpaceOf(x, w');
    assert (x + w')[..|x|] == x;
  }

}
