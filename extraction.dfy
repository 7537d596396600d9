/** What ProcessFile computes from one result file before touching the
    ledger: the three shared fields, the test lines with their "NA"
    fallbacks, and the comma-joined CSV text of each line. */
module Extraction {
  import opened Text
  import opened Patterns

  /** GetMatch: the first capture group of the first match under
      RegexOptions.Singleline, or "" when the pattern does not match. */
  function GetMatch(text: string, p: Pattern): (r: string)
    ensures r != "" ==> exists i: nat, m :: MatchesAt(p, text, i, m, true)
  {
    RegexMatchFirst(text, p, true);
    var match_ := RegexMatch(text, p, true);
    if match_.Matched? && |match_.groups| > 1 then match_.groups[1] else ""
  }

  lemma GetMatchSpec(text: string, p: Pattern)
    ensures (forall i: nat, m :: !MatchesAt(p, text, i, m, true)) ==> GetMatch(text, p) == ""
    ensures forall i: nat, m :: IsFirstMatch(p, text, i, m, true) ==>
      GetMatch(text, p) == Groups(p, text, i, m, true)[1]
  {
    var r := RegexMatch(text, p, true);
    RegexMatchFirst(text, p, true);
    forall i: nat, m | IsFirstMatch(p, text, i, m, true)
      ensures GetMatch(text, p) == Groups(p, text, i, m, true)[1]
    {
      FirstMatchUnique(p, text, r.index, r.stops, i, m, true);
    }
  }

  /** For the two test-name patterns, whose capture is `(\w+)`, an empty
      GetMatch result means exactly that the pattern did not match. */
  lemma TestNameEmptyIffNoMatch(text: string, p: Pattern)
    requires p == TestTypeAbScreening || p == TestTypeBloodgroup
    ensures GetMatch(text, p) == "" <==> forall i: nat, m :: !MatchesAt(p, text, i, m, true)
    ensures GetMatch(text, p) != "" ==> IsWord(GetMatch(text, p))
  {
    RegexMatchFirst(text, p, true);
  }

  /** The time stamps are fourteen digits when their pattern matches. */
  lemma StampShape(text: string, p: Pattern)
    requires p == SendTime || p == ResultTime
    ensures GetMatch(text, p) == "" <==> forall i: nat, m :: !MatchesAt(p, text, i, m, true)
    ensures GetMatch(text, p) != "" ==> IsStamp(GetMatch(text, p))
  {
    RegexMatchFirst(text, p, true);
  }

  /** The antibody screening result: the `(.+?)` capture, or "NA". */
  function AbResult(text: string): (r: string)
    ensures r != ""
  {
    var abResult := GetMatch(text, ResultAbScreening);
    if abResult == "" then "NA" else abResult
  }

  /** `(.+?)` never captures "", so the "NA" fallback is taken exactly when
      ResultAbScreening does not match; otherwise the result is the capture. */
  lemma AbResultIsCapture(text: string)
    ensures (forall i: nat, m :: !MatchesAt(ResultAbScreening, text, i, m, true)) <==> GetMatch(text, ResultAbScreening) == ""
    ensures (forall i: nat, m :: !MatchesAt(ResultAbScreening, text, i, m, true)) ==> AbResult(text) == "NA"
    ensures forall i: nat, m :: IsFirstMatch(ResultAbScreening, text, i, m, true) ==>
      AbResult(text) == Groups(ResultAbScreening, text, i, m, true)[1]
  {
    RegexMatchFirst(text, ResultAbScreening, true);
    GetMatchSpec(text, ResultAbScreening);
  }

  /** The blood group result: both captures of the first match of
      ResultBloodgroup, without RegexOptions.Singleline, joined by '|'; or "NA". */
  function BloodgroupResult(text: string): (r: string)
    ensures r != ""
  {
    var match_ := RegexMatch(text, ResultBloodgroup, false);
    if match_.Matched? && |match_.groups| >= 3 then match_.groups[1] + "|" + match_.groups[2] else "NA"
  }

  /** Groups.Count is always 3 for ResultBloodgroup, so "NA" is taken exactly
      when the pattern does not match; the first capture may be empty. */
  lemma BloodgroupResultSpec(text: string)
    ensures (forall i: nat, m :: !MatchesAt(ResultBloodgroup, text, i, m, false)) ==> BloodgroupResult(text) == "NA"
    ensures forall i: nat, m :: IsFirstMatch(ResultBloodgroup, text, i, m, false) ==>
      var g := Groups(ResultBloodgroup, text, i, m, false);
      BloodgroupResult(text) == g[1] + "|" + g[2]
  {
    var r := RegexMatch(text, ResultBloodgroup, false);
    RegexMatchFirst(text, ResultBloodgroup, false);
    forall i: nat, m | IsFirstMatch(ResultBloodgroup, text, i, m, false)
      ensures var g := Groups(ResultBloodgroup, text, i, m, false);
        BloodgroupResult(text) == g[1] + "|" + g[2]
    {
      FirstMatchUnique(ResultBloodgroup, text, r.index, r.stops, i, m, false);
    }
  }

  /** The blood group result read off the first match, at 0 with stops b, q, e:
      the text between the first '|' and the next '^', a '|', and the text up
      to the caret after that. */
  lemma BloodgroupResultFirst(s: string, b: nat, q: nat, e: nat)
    requires IsFirstMatch(ResultBloodgroup, s, 0, [b, q, e], false)
    ensures b + 1 <= q < e <= |s|
    ensures BloodgroupResult(s) == s[b + 1..q] + "|" + s[q + 1..e]
  {
    BloodgroupResultSpec(s);
    MatchedBody(ResultBloodgroup, s, 0, [b, q, e], false);
  }

  lemma BloodgroupResultAt(s: string, b: nat, q: nat, e: nat)
    requires Attempt(ResultBloodgroup, s, 0, false) == Some([b, q, e])
    ensures b + 1 <= q < e <= |s|
    ensures BloodgroupResult(s) == s[b + 1..q] + "|" + s[q + 1..e]
  {
    AttemptAtZeroFirst(ResultBloodgroup, s, [b, q, e], false);
    BloodgroupResultFirst(s, b, q, e);
  }

  /** A blood group result whose first capture itself holds a '|'. */
  const BloodgroupSample := "Result^MO31X^x|A|B^y^"

  lemma SampleNextBar()
    ensures Next(BloodgroupSample, 13, Exactly("|"), false) == Some(14)
  {
    assert BloodgroupSample[13] == 'x' && BloodgroupSample[14] == '|';
    NextAtMost(BloodgroupSample, 13, Exactly("|"), false, 14);
  }

  lemma SampleNextCaret()
    ensures Next(BloodgroupSample, 15, Exactly("^"), false) == Some(18)
  {
  }

  lemma SampleNextEnd()
    ensures Next(BloodgroupSample, 20, Exactly("^"), false) == Some(20)
  {
  }

  lemma SampleAttempt()
    ensures Attempt(ResultBloodgroup, BloodgroupSample, 0, false) == Some([14, 18, 20])
  {
    var s := BloodgroupSample;
    assert LitAt(s, 0, Prefix(ResultBloodgroup));
    SampleNextBar();
    SampleNextCaret();
    SampleNextEnd();
    assert s[19] == 'y';
    ResultBloodgroupAfterIs(s, 14, 18, 20, false);
  }

  lemma SampleCaptures()
    ensures BloodgroupSample[15..18] == "A|B" && BloodgroupSample[19..20] == "y"
  {
  }

  /** The lazy first group stops at the first '^' after the first '|', so a
      '|' inside it is kept: the result is "A|B|y". */
  lemma BloodgroupScenario(s: string)
    requires s == BloodgroupSample
    ensures BloodgroupResult(s) == "A|B|y"
  {
    SampleAttempt();
    SampleCaptures();
    BloodgroupResultAt(s, 14, 18, 20);
  }

  /** A result file whose barcode field holds a line break. */
  const BarcodeSample := "P|1||\nA|"

  /** GetMatch runs under Singleline, where `.` also matches a line break,
      so a capture can hold one: the barcode of this sample is "\nA", and
      the ledger record built from it spans two lines of the CSV file. */
  lemma BarcodeSpansLines(s: string)
    requires s == BarcodeSample
    ensures GetMatch(s, Barcode) == "\nA"
  {
    assert LitAt(s, 0, Prefix(Barcode));
    assert s[5] == '\n' && s[6] == 'A' && s[7] == '|';
    NextAtMost(s, 5, Exactly("|"), true, 7);
    assert Attempt(Barcode, s, 0, true) == Some([7]);
    AttemptAtZeroFirst(Barcode, s, [7], true);
    GetMatchSpec(s, Barcode);
    assert s[5..7] == "\nA";
  }

  /** One line of the result ledger. */
  datatype Record = Record(
    fileName: string, barcode: string, sendTime: string, resultTime: string,
    testName: string, testResult: string)

  /** The fields of the line, in column order. */
  function Fields(r: Record): seq<string> {
    [r.fileName, r.barcode, r.sendTime, r.resultTime, r.testName, r.testResult]
  }

  /** What ProcessFile reads out of one file: the three fields shared by its
      lines, and for each test its name ("" when not found) and result. */
  datatype Scraped = Scraped(
    barcode: string, sendTime: string, resultTime: string,
    testTypeAb: string, abResult: string,
    testTypeBg: string, bloodgroupResult: string)

  function Scrape(text: string): (sc: Scraped)
    ensures sc.sendTime == "" || IsStamp(sc.sendTime)
    ensures sc.resultTime == "" || IsStamp(sc.resultTime)
    ensures sc.testTypeAb == "" || IsWord(sc.testTypeAb)
    ensures sc.testTypeBg == "" || IsWord(sc.testTypeBg)
    ensures sc.abResult != "" && sc.bloodgroupResult != ""
  {
    StampShape(text, SendTime);
    StampShape(text, ResultTime);
    TestNameEmptyIffNoMatch(text, TestTypeAbScreening);
    TestNameEmptyIffNoMatch(text, TestTypeBloodgroup);
    Scraped(
      GetMatch(text, Barcode), GetMatch(text, SendTime), GetMatch(text, ResultTime),
      GetMatch(text, TestTypeAbScreening), AbResult(text),
      GetMatch(text, TestTypeBloodgroup), BloodgroupResult(text))
  }

  /** The records ProcessFile appends for the file `fileName`: the antibody
      screening line if its test name was found, then the blood group line
      if its test name was found, and otherwise one line whose test name
      and result are both "NA". */
  function Records(fileName: string, sc: Scraped): (rs: seq<Record>)
    ensures 1 <= |rs| <= 2
  {
    var ab := if sc.testTypeAb != "" then [Record(fileName, sc.barcode, sc.sendTime, sc.resultTime, sc.testTypeAb, sc.abResult)] else [];
    var bg := if sc.testTypeBg != "" then [Record(fileName, sc.barcode, sc.sendTime, sc.resultTime, sc.testTypeBg, sc.bloodgroupResult)] else [];
    var none := if sc.testTypeAb == "" && sc.testTypeBg == "" then [Record(fileName, sc.barcode, sc.sendTime, sc.resultTime, "NA", "NA")] else [];
    ab + bg + none
  }

  function Extract(fileName: string, text: string): seq<Record> {
    Records(fileName, Scrape(text))
  }

  /** A file yields one or two records: one per test name found, in the
      order antibody screening, blood group; a single "NA,NA" record when
      neither is found. */
  lemma RecordsShape(fileName: string, sc: Scraped)
    ensures var rs := Records(fileName, sc);
      1 <= |rs| <= 2 &&
      (|rs| == 2 <==> sc.testTypeAb != "" && sc.testTypeBg != "") &&
      (sc.testTypeAb != "" ==> rs[0].testName == sc.testTypeAb && rs[0].testResult == sc.abResult) &&
      (sc.testTypeBg != "" ==> rs[|rs| - 1].testName == sc.testTypeBg && rs[|rs| - 1].testResult == sc.bloodgroupResult) &&
      (sc.testTypeAb == "" && sc.testTypeBg == "" ==> rs == [Record(fileName, sc.barcode, sc.sendTime, sc.resultTime, "NA", "NA")])
  {
  }

  /** Every record of a file carries the same four leading fields. */
  lemma RecordsCommonPrefix(fileName: string, sc: Scraped)
    ensures forall r :: r in Records(fileName, sc) ==>
      r.fileName == fileName && r.barcode == sc.barcode &&
      r.sendTime == sc.sendTime && r.resultTime == sc.resultTime
  {
  }

  // ---------------------------------------------------------------------
  // CSV text

  /** The column names written by EnsureCsvHeader. */
  const Header: string := "FILENAME,REQ_NO,SEND_TIME,RESULT_TIME,TEST_NAME,TEST_RESULT"

  /** string.Join(sep, fields). */
  function Join(fields: seq<string>, sep: char): string {
    if |fields| == 0 then ""
    else if |fields| == 1 then fields[0]
    else fields[0] + [sep] + Join(fields[1..], sep)
  }

  /** The CSV text of a record, without the line terminator. */
  function Line(r: Record): (s: string)
    ensures r.fileName + [','] <= s
  {
    assert Join(Fields(r), ',') == r.fileName + [','] + Join(Fields(r)[1..], ',');
    Join(Fields(r), ',')
  }

  /** The fields of a CSV line: the text between consecutive commas. */
  function Split(line: string, sep: char): (fields: seq<string>)
    ensures |fields| >= 1
    ensures forall k :: 0 <= k < |fields| ==> sep !in fields[k]
    decreases |line|
  {
    if |line| == 0 then [""]
    else if line[0] == sep then [""] + Split(line[1..], sep)
    else
      var rest := Split(line[1..], sep);
      [[line[0]] + rest[0]] + rest[1..]
  }

  lemma {:induction false} SplitAppend(a: string, sep: char, b: string)
    requires sep !in a
    ensures Split(a + [sep] + b, sep) == [a] + Split(b, sep)
    decreases |a|
  {
    if |a| == 0 {
      assert a + [sep] + b == [sep] + b;
      assert ([sep] + b)[1..] == b;
    } else {
      assert (a + [sep] + b)[1..] == a[1..] + [sep] + b;
      SplitAppend(a[1..], sep, b);
      assert [a[0]] + a[1..] == a;
    }
  }

  lemma {:induction false} SplitNoSep(a: string, sep: char)
    requires sep !in a
    ensures Split(a, sep) == [a]
    decreases |a|
  {
    if |a| > 0 {
      SplitNoSep(a[1..], sep);
      assert [a[0]] + a[1..] == a;
    }
  }

  /** Splitting a joined line gives back its fields, provided no field
      contains the separator and there is at least one field. */
  lemma {:induction false} SplitJoin(fields: seq<string>, sep: char)
    requires |fields| >= 1
    requires forall k :: 0 <= k < |fields| ==> sep !in fields[k]
    ensures Split(Join(fields, sep), sep) == fields
    decreases |fields|
  {
    if |fields| == 1 {
      SplitNoSep(fields[0], sep);
    } else {
      SplitAppend(fields[0], sep, Join(fields[1..], sep));
      SplitJoin(fields[1..], sep);
      assert [fields[0]] + fields[1..] == fields;
    }
  }

  /** A ledger line reads back as its six fields when none holds a comma. */
  lemma LineRoundTrip(r: Record)
    requires forall k :: 0 <= k < 6 ==> ',' !in Fields(r)[k]
    ensures Split(Line(r), ',') == Fields(r)
  {
    SplitJoin(Fields(r), ',');
  }

  /** How often `c` occurs in `s`. */
  function Count(s: string, c: char): (n: nat)
    ensures n == 0 <==> c !in s
    ensures n <= |s|
  {
    if |s| == 0 then 0 else (if s[0] == c then 1 else 0) + Count(s[1..], c)
  }

  lemma {:induction false} CountAppend(a: string, b: string, c: char)
    ensures Count(a + b, c) == Count(a, c) + Count(b, c)
    decreases |a|
  {
    if |a| == 0 {
      assert a + b == b;
    } else {
      assert (a + b)[1..] == a[1..] + b;
      CountAppend(a[1..], b, c);
    }
  }

  /** How often `c` occurs inside the fields. */
  function CountIn(fields: seq<string>, c: char): (n: nat)
    ensures n == 0 <==> forall k :: 0 <= k < |fields| ==> c !in fields[k]
  {
    if |fields| == 0 then 0
    else
      var n := Count(fields[0], c) + CountIn(fields[1..], c);
      assert forall k :: 1 <= k < |fields| ==> fields[k] == fields[1..][k - 1];
      n
  }

  /** A line splits into one more field than it has separators. */
  lemma {:induction false} SplitCount(s: string, sep: char)
    ensures |Split(s, sep)| == Count(s, sep) + 1
    decreases |s|
  {
    if |s| > 0 {
      SplitCount(s[1..], sep);
    }
  }

  /** Joining n fields adds n - 1 separators to those inside the fields. */
  lemma {:induction false} JoinCount(fields: seq<string>, sep: char)
    requires |fields| >= 1
    ensures Count(Join(fields, sep), sep) == |fields| - 1 + CountIn(fields, sep)
    decreases |fields|
  {
    if |fields| > 1 {
      JoinCount(fields[1..], sep);
      CountAppend(fields[0] + [sep], Join(fields[1..], sep), sep);
      CountAppend(fields[0], [sep], sep);
      assert Count([sep], sep) == 1;
    }
  }

  /** A ledger line reads back as more than six columns exactly when one of
      its fields holds a comma, one extra column per such comma. */
  lemma LineColumns(r: Record)
    ensures |Split(Line(r), ',')| == 6 + CountIn(Fields(r), ',')
    ensures |Split(Line(r), ',')| == 6 <==> forall k :: 0 <= k < 6 ==> ',' !in Fields(r)[k]
  {
    SplitCount(Line(r), ',');
    JoinCount(Fields(r), ',');
  }
}
