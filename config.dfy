/** LoadConfig: the settings read from config.ini. Each line that starts
    with a setting's key sets that setting from the text after the line's
    first '=', so a later line overrides an earlier one; a line that cannot
    be read makes LoadConfig report failure. */
module Config {
  import opened Text
  import opened Extraction

  /** The five settings of config.ini. */
  datatype Key = PollingIntervalSeconds | SourceDir | ArchiveDir | LogDir | ResultCsv

  function KeyName(k: Key): string {
    match k
    case PollingIntervalSeconds => "POLLING_INTERVAL_SECONDS"
    case SourceDir => "SOURCE_DIR"
    case ArchiveDir => "ARCHIVE_DIR"
    case LogDir => "LOG_DIR"
    case ResultCsv => "RESULT_CSV"
  }

  /** The values of an AppConfig; a path that was never set is None (null). */
  datatype Settings = Settings(
    pollingIntervalSeconds: int, sourceDir: Option<string>, archiveDir: Option<string>,
    logDir: Option<string>, resultCsv: Option<string>)

  /** A freshly constructed AppConfig. */
  const Initial := Settings(0, None, None, None, None)

  /** The value of one setting. */
  datatype Value = Number(n: int) | Path(p: Option<string>)

  function Get(s: Settings, k: Key): Value {
    match k
    case PollingIntervalSeconds => Number(s.pollingIntervalSeconds)
    case SourceDir => Path(s.sourceDir)
    case ArchiveDir => Path(s.archiveDir)
    case LogDir => Path(s.logDir)
    case ResultCsv => Path(s.resultCsv)
  }

  /** Setting `k` to `v`, when `v` is a value of k's kind. */
  function Set(s: Settings, k: Key, v: Value): Settings {
    match k
    case PollingIntervalSeconds => if v.Number? then s.(pollingIntervalSeconds := v.n) else s
    case SourceDir => if v.Path? then s.(sourceDir := v.p) else s
    case ArchiveDir => if v.Path? then s.(archiveDir := v.p) else s
    case LogDir => if v.Path? then s.(logDir := v.p) else s
    case ResultCsv => if v.Path? then s.(resultCsv := v.p) else s
  }

  // ---------------------------------------------------------------------
  // The string operations a line goes through

  /** string.StartsWith, compared character by character. */
  predicate StartsWith(line: string, key: string) {
    |key| <= |line| && line[..|key|] == key
  }

  /** line.Split('=')[1]: the text between the first and the second '=' (or
      the end of the line); None where indexing the split throws, that is
      when the line has no '='. */
  function Field1(line: string): (r: Option<string>)
    ensures r.None? <==> '=' !in line
  {
    SplitCount(line, '=');
    var fields := Split(line, '=');
    if |fields| >= 2 then Some(fields[1]) else None
  }

  /** char.IsWhiteSpace: the characters string.Trim removes. */
  predicate IsWhiteSpace(c: char) {
    '\t' <= c <= '\r' || c == ' ' || c == '\U{85}' || c == '\U{A0}' || c == '\U{1680}' ||
    '\U{2000}' <= c <= '\U{200A}' || c == '\U{2028}' || c == '\U{2029}' || c == '\U{202F}' ||
    c == '\U{205F}' || c == '\U{3000}'
  }

  function TrimStart(s: string): (r: string)
    ensures |r| <= |s| && r == s[|s| - |r|..]
    ensures forall k :: 0 <= k < |s| - |r| ==> IsWhiteSpace(s[k])
    ensures |r| > 0 ==> !IsWhiteSpace(r[0])
  {
    if |s| > 0 && IsWhiteSpace(s[0]) then TrimStart(s[1..]) else s
  }

  function TrimEnd(s: string): (r: string)
    ensures |r| <= |s| && r == s[..|r|]
    ensures forall k :: |r| <= k < |s| ==> IsWhiteSpace(s[k])
    ensures |r| > 0 ==> !IsWhiteSpace(r[|r| - 1])
  {
    if |s| > 0 && IsWhiteSpace(s[|s| - 1]) then TrimEnd(s[..|s| - 1]) else s
  }

  /** string.Trim. */
  function Trim(s: string): (r: string)
    ensures |r| <= |s|
    ensures |r| > 0 ==> !IsWhiteSpace(r[0]) && !IsWhiteSpace(r[|r| - 1])
  {
    var t := TrimStart(s);
    assert |TrimEnd(t)| > 0 ==> TrimEnd(t)[0] == t[0];
    TrimEnd(t)
  }

  /** Trim removes exactly the leading and trailing white space: what is left
      is a piece of the input with no white space at either end, and every
      character cut off is white space. */
  lemma TrimSpec(s: string)
    ensures exists i, j ::
      && 0 <= i <= j <= |s| && Trim(s) == s[i..j]
      && (forall k :: 0 <= k < i ==> IsWhiteSpace(s[k]))
      && (forall k :: j <= k < |s| ==> IsWhiteSpace(s[k]))
    ensures |Trim(s)| > 0 ==> !IsWhiteSpace(Trim(s)[0]) && !IsWhiteSpace(Trim(s)[|Trim(s)| - 1])
  {
    var t := TrimStart(s);
    var i := |s| - |t|;
    var j := i + |TrimEnd(t)|;
    assert Trim(s) == s[i..j];
    if |Trim(s)| > 0 && |t| > 0 {
      assert Trim(s)[0] == t[0];
    }
  }

  /** Trimming twice trims nothing more. */
  lemma TrimIdempotent(s: string)
    ensures Trim(Trim(s)) == Trim(s)
  {
    var t := Trim(s);
    if |t| > 0 {
      TrimSpec(s);
      assert TrimStart(t) == t;
    }
  }

  /** s.Replace("./", ""): one left-to-right pass that deletes every
      non-overlapping occurrence of "./"; the result is not scanned again. */
  function RemoveDotSlash(s: string): (r: string)
    ensures |r| <= |s|
  {
    if |s| < 2 then s
    else if s[0] == '.' && s[1] == '/' then RemoveDotSlash(s[2..])
    else [s[0]] + RemoveDotSlash(s[1..])
  }

  /** "./" occurs in s. */
  predicate HasDotSlash(s: string) {
    exists k :: 0 <= k < |s| - 1 && s[k] == '.' && s[k + 1] == '/'
  }

  /** A path without "./" is kept; one with it gets shorter. */
  lemma {:induction false} RemoveDotSlashKeeps(s: string)
    ensures !HasDotSlash(s) <==> RemoveDotSlash(s) == s
    decreases |s|
  {
    if |s| >= 2 {
      if s[0] == '.' && s[1] == '/' {
        assert HasDotSlash(s) by { assert s[0] == '.' && s[0 + 1] == '/'; }
      } else {
        RemoveDotSlashKeeps(s[1..]);
        if HasDotSlash(s[1..]) {
          var k :| 0 <= k < |s[1..]| - 1 && s[1..][k] == '.' && s[1..][k + 1] == '/';
          assert s[k + 1] == '.' && s[k + 1 + 1] == '/';
        }
        if HasDotSlash(s) {
          var k :| 0 <= k < |s| - 1 && s[k] == '.' && s[k + 1] == '/';
          assert k >= 1;
          assert s[1..][k - 1] == '.' && s[1..][k - 1 + 1] == '/';
        }
        assert [s[0]] + s[1..] == s;
      }
    }
  }

  /** The pass is not repeated: "..//" loses its inner "./" and becomes "./". */
  lemma RemoveDotSlashSinglePass()
    ensures RemoveDotSlash("..//") == "./"
    ensures RemoveDotSlash(RemoveDotSlash("..//")) == ""
  {
  }

  /** Path.Combine(baseDir, rel), with '/' as the directory separator: an
      empty part yields the other, a rooted `rel` replaces `baseDir`, and a
      separator is put between them when `baseDir` does not end with one. */
  function Combine(baseDir: string, rel: string): (r: string)
    ensures rel == "" ==> r == baseDir
    ensures rel != "" && rel[0] != '/' && baseDir != "" && baseDir[|baseDir| - 1] == '/' ==> r == baseDir + rel
  {
    if rel == "" then baseDir
    else if baseDir == "" || rel[0] == '/' then rel
    else if baseDir[|baseDir| - 1] == '/' then baseDir + rel
    else baseDir + "/" + rel
  }

  // ---------------------------------------------------------------------
  // int.Parse

  predicate IsDigits(s: string) {
    forall k :: 0 <= k < |s| ==> IsDigit(s[k])
  }

  /** The number a string of decimal digits denotes. */
  function DigitsValue(s: string): (n: nat)
    requires IsDigits(s)
  {
    if |s| == 0 then 0 else DigitsValue(s[..|s| - 1]) * 10 + (s[|s| - 1] as int - '0' as int)
  }

  const MinInt32 := -0x8000_0000
  const MaxInt32 := 0x7FFF_FFFF

  /** int.Parse of a trimmed string: an optional sign, then one or more
      digits, whose value must fit in 32 bits; None where it throws. */
  function ParseInt(s: string): (r: Option<int>)
    ensures r.Some? ==> MinInt32 <= r.value <= MaxInt32
    ensures r.Some? ==> |s| > 0
  {
    var signed := |s| > 0 && (s[0] == '-' || s[0] == '+');
    var body := if signed then s[1..] else s;
    if |body| == 0 || !IsDigits(body) then None
    else
      var v: int := if signed && s[0] == '-' then -(DigitsValue(body) as int) else DigitsValue(body);
      if MinInt32 <= v <= MaxInt32 then Some(v) else None
  }

  /** The decimal digits of n, as int.ToString writes them. */
  function Decimal(n: nat): (s: string)
    ensures |s| > 0 && IsDigits(s)
  {
    if n < 10 then [('0' as int + n) as char]
    else Decimal(n / 10) + [('0' as int + n % 10) as char]
  }

  lemma {:induction false} DecimalValue(n: nat)
    ensures DigitsValue(Decimal(n)) == n
    decreases n
  {
    if n >= 10 {
      DecimalValue(n / 10);
      var s := Decimal(n);
      assert s[..|s| - 1] == Decimal(n / 10);
    }
  }

  /** n.ToString() for a 32-bit n. */
  function Show(n: int): string {
    if n < 0 then "-" + Decimal(-n) else Decimal(n)
  }

  /** int.Parse reads back every 32-bit number int.ToString writes. */
  lemma ParseShow(n: int)
    requires MinInt32 <= n <= MaxInt32
    ensures ParseInt(Show(n)) == Some(n)
  {
    if n < 0 {
      ParseNegative(-n);
    } else {
      ParseDecimal(n);
    }
  }

  lemma ParseDecimal(n: nat)
    requires n <= MaxInt32
    ensures ParseInt(Decimal(n)) == Some(n)
  {
    DecimalValue(n);
    var s := Decimal(n);
    assert IsDigit(s[0]);
  }

  lemma ParseNegative(n: nat)
    requires n <= -MinInt32
    ensures ParseInt("-" + Decimal(n)) == Some(-(n as int))
  {
    DecimalValue(n);
    var s := "-" + Decimal(n);
    assert s[1..] == Decimal(n);
  }

  /** Leading zeros and a plus sign are accepted; overflow and a bare sign
      are not. */
  lemma ParseIntExamples()
    ensures ParseInt("060") == Some(60)
    ensures ParseInt("+7") == Some(7)
    ensures ParseInt("-") == None
    ensures ParseInt("") == None
  {
    assert DigitsValue("06") == 6 by {
      assert "06"[..1] == "0";
      assert "0"[..0] == "";
    }
    assert "060"[..2] == "06";
    assert "+7"[1..] == "7";
    assert "7"[..0] == "";
  }

  /** The digits of one past int.MaxValue. */
  lemma EdgeDigits(s: string)
    requires s == "2147483648"
    ensures IsDigits(s) && DigitsValue(s) == -MinInt32
  {
    assert s[..9] == "214748364";
    assert "214748364"[..8] == "21474836";
    assert "21474836"[..7] == "2147483";
    assert "2147483"[..6] == "214748";
    assert "214748"[..5] == "21474";
    assert "21474"[..4] == "2147";
    assert "2147"[..3] == "214";
    assert "214"[..2] == "21";
    assert "21"[..1] == "2";
    assert "2"[..0] == "";
  }

  /** The 32-bit edges: one past int.MaxValue throws, int.MinValue is read. */
  lemma ParseIntOverflow()
    ensures ParseInt("2147483648") == None
    ensures ParseInt("-2147483648") == Some(MinInt32)
  {
    EdgeDigits("2147483648");
    assert "-2147483648"[1..] == "2147483648";
  }

  // ---------------------------------------------------------------------
  // One line, and the whole file

  /** What a line starting with key k sets k to, read relative to `baseDir`;
      None where reading it throws. */
  function Parsed(baseDir: string, k: Key, line: string): (r: Option<Value>)
    ensures r.Some? ==> '=' in line
    ensures r.Some? ==> (r.value.Number? <==> k == PollingIntervalSeconds)
    ensures r.Some? && r.value.Number? ==> MinInt32 <= r.value.n <= MaxInt32
  {
    match Field1(line)
    case None => None
    case Some(field) =>
      if k == PollingIntervalSeconds then
        match ParseInt(Trim(field))
        case None => None
        case Some(n) => Some(Number(n))
      else Some(Path(Some(Combine(baseDir, RemoveDotSlash(Trim(field))))))
  }

  /** One of the five checks of the loop body. */
  function Step(baseDir: string, s: Option<Settings>, k: Key, line: string): Option<Settings> {
    if s.None? then None
    else if !StartsWith(line, KeyName(k)) then s
    else
      match Parsed(baseDir, k, line)
      case None => None
      case Some(v) => Some(Set(s.value, k, v))
  }

  /** The loop body for one line: the five checks in source order. */
  function ApplyLine(baseDir: string, s: Settings, line: string): (r: Option<Settings>)
    ensures r.Some? && MinInt32 <= s.pollingIntervalSeconds <= MaxInt32 ==>
      MinInt32 <= r.value.pollingIntervalSeconds <= MaxInt32
  {
    var s1 := Step(baseDir, Some(s), PollingIntervalSeconds, line);
    var s2 := Step(baseDir, s1, SourceDir, line);
    var s3 := Step(baseDir, s2, ArchiveDir, line);
    var s4 := Step(baseDir, s3, LogDir, line);
    Step(baseDir, s4, ResultCsv, line)
  }

  /** The settings after the loop has run over `lines`, and whether no line threw. */
  datatype Outcome = Outcome(settings: Settings, ok: bool)

  function ApplyAll(baseDir: string, lines: seq<string>): (r: Outcome)
    ensures MinInt32 <= r.settings.pollingIntervalSeconds <= MaxInt32
  {
    if |lines| == 0 then Outcome(Initial, true)
    else
      var prev := ApplyAll(baseDir, lines[..|lines| - 1]);
      if !prev.ok then prev
      else
        match ApplyLine(baseDir, prev.settings, lines[|lines| - 1])
        case None => Outcome(prev.settings, false)
        case Some(s) => Outcome(s, true)
  }

  /** A line can be read: a POLLING_INTERVAL_SECONDS line has an '=' and a
      32-bit integer after it, a directory or file line has an '='. */
  predicate LineOk(line: string) {
    && (StartsWith(line, KeyName(PollingIntervalSeconds)) ==>
          '=' in line && ParseInt(Trim(Field1(line).value)).Some?)
    && ((|| StartsWith(line, KeyName(SourceDir)) || StartsWith(line, KeyName(ArchiveDir))
         || StartsWith(line, KeyName(LogDir)) || StartsWith(line, KeyName(ResultCsv))) ==> '=' in line)
  }

  /** The keys begin with five different letters, so a line sets at most
      one setting. */
  lemma KeysExclusive(line: string, k: Key, k': Key)
    requires StartsWith(line, KeyName(k)) && StartsWith(line, KeyName(k'))
    ensures k == k'
  {
    assert line[..|KeyName(k)|][0] == line[0] == line[..|KeyName(k')|][0];
  }

  /** A line that starts with key k starts with no other key. */
  lemma OnlyKey(line: string, k: Key)
    requires StartsWith(line, KeyName(k))
    ensures forall k' :: k' != k ==> !StartsWith(line, KeyName(k'))
  {
    forall k' | StartsWith(line, KeyName(k')) ensures k' == k {
      KeysExclusive(line, k, k');
    }
  }

  /** Where a line starting with key k throws: without an '=', or, for the
      polling interval, without a 32-bit integer after it. */
  lemma ParsedSome(baseDir: string, k: Key, line: string)
    ensures Parsed(baseDir, k, line).Some? <==>
      '=' in line && (k == PollingIntervalSeconds ==> ParseInt(Trim(Field1(line).value)).Some?)
    ensures Parsed(baseDir, k, line).Some? ==> Get(Set(Initial, k, Parsed(baseDir, k, line).value), k) == Parsed(baseDir, k, line).value
  {
  }

  /** Setting k to a value of its kind changes k alone. */
  lemma GetSet(s: Settings, k: Key, v: Value, k': Key)
    requires v.Number? <==> k == PollingIntervalSeconds
    ensures Get(Set(s, k, v), k') == if k' == k then v else Get(s, k')
  {
  }

  /** One check: it throws where the line starts with the key and cannot be
      read, and otherwise changes that key's setting alone. */
  lemma StepSpec(baseDir: string, s: Settings, k: Key, line: string)
    ensures var r := Step(baseDir, Some(s), k, line);
      r.Some? <==> (StartsWith(line, KeyName(k)) ==> Parsed(baseDir, k, line).Some?)
    ensures var r := Step(baseDir, Some(s), k, line);
      r.Some? ==> forall k' :: k' != k || !StartsWith(line, KeyName(k)) ==> Get(r.value, k') == Get(s, k')
    ensures var r := Step(baseDir, Some(s), k, line);
      r.Some? && StartsWith(line, KeyName(k)) ==> Get(r.value, k) == Parsed(baseDir, k, line).value
  {
  }

  /** A line throws exactly when it is not LineOk; otherwise it changes at
      most the setting whose key it starts with, to the value it holds. */
  lemma ApplyLineSpec(baseDir: string, s: Settings, line: string)
    ensures ApplyLine(baseDir, s, line).Some? <==> LineOk(line)
    ensures forall k :: ApplyLine(baseDir, s, line).Some? && !StartsWith(line, KeyName(k)) ==>
      Get(ApplyLine(baseDir, s, line).value, k) == Get(s, k)
    ensures forall k :: ApplyLine(baseDir, s, line).Some? && StartsWith(line, KeyName(k)) ==>
      Parsed(baseDir, k, line).Some? && Get(ApplyLine(baseDir, s, line).value, k) == Parsed(baseDir, k, line).value
  {
    forall k | true
      ensures Parsed(baseDir, k, line).Some? <==>
        '=' in line && (k == PollingIntervalSeconds ==> ParseInt(Trim(Field1(line).value)).Some?)
    {
      ParsedSome(baseDir, k, line);
    }
    forall k, k' | StartsWith(line, KeyName(k)) && StartsWith(line, KeyName(k'))
      ensures k == k'
    {
      KeysExclusive(line, k, k');
    }
    var s1 := Step(baseDir, Some(s), PollingIntervalSeconds, line);
    StepSpec(baseDir, s, PollingIntervalSeconds, line);
    if s1.Some? {
      var s2 := Step(baseDir, s1, SourceDir, line);
      StepSpec(baseDir, s1.value, SourceDir, line);
      if s2.Some? {
        var s3 := Step(baseDir, s2, ArchiveDir, line);
        StepSpec(baseDir, s2.value, ArchiveDir, line);
        if s3.Some? {
          var s4 := Step(baseDir, s3, LogDir, line);
          StepSpec(baseDir, s3.value, LogDir, line);
          if s4.Some? {
            StepSpec(baseDir, s4.value, ResultCsv, line);
          }
        }
      }
    }
  }

  lemma ApplyLineSome(baseDir: string, s: Settings, line: string)
    ensures ApplyLine(baseDir, s, line).Some? <==> LineOk(line)
  {
    ApplyLineSpec(baseDir, s, line);
  }

  /** LoadConfig succeeds exactly when every line can be read. */
  lemma {:induction false} ApplyAllOk(baseDir: string, lines: seq<string>)
    ensures ApplyAll(baseDir, lines).ok <==> forall i :: 0 <= i < |lines| ==> LineOk(lines[i])
    decreases |lines|
  {
    if |lines| > 0 {
      var init := lines[..|lines| - 1];
      ApplyAllOk(baseDir, init);
      var prev := ApplyAll(baseDir, init);
      ApplyLineSome(baseDir, prev.settings, lines[|lines| - 1]);
      assert forall i :: 0 <= i < |init| ==> init[i] == lines[i];
    }
  }

  /** The first line that throws ends the loop: later lines change nothing. */
  lemma {:induction false} ApplyAllStops(baseDir: string, lines: seq<string>, j: nat)
    requires j <= |lines| && !ApplyAll(baseDir, lines[..j]).ok
    ensures ApplyAll(baseDir, lines) == ApplyAll(baseDir, lines[..j])
    decreases |lines|
  {
    if j < |lines| {
      var init := lines[..|lines| - 1];
      assert init[..j] == lines[..j];
      ApplyAllStops(baseDir, init, j);
    } else {
      assert lines[..j] == lines;
    }
  }

  /** A setting no line mentions keeps the value of a fresh AppConfig. */
  lemma {:induction false} UnmentionedKeepsInitial(baseDir: string, lines: seq<string>, k: Key)
    requires forall i :: 0 <= i < |lines| ==> !StartsWith(lines[i], KeyName(k))
    ensures Get(ApplyAll(baseDir, lines).settings, k) == Get(Initial, k)
    decreases |lines|
  {
    if |lines| > 0 {
      var init := lines[..|lines| - 1];
      assert forall i :: 0 <= i < |init| ==> init[i] == lines[i];
      UnmentionedKeepsInitial(baseDir, init, k);
      ApplyLineSpec(baseDir, ApplyAll(baseDir, init).settings, lines[|lines| - 1]);
    }
  }

  /** The last line that starts with a setting's key decides that setting. */
  lemma {:induction false} LastLineWins(baseDir: string, lines: seq<string>, k: Key, j: nat)
    requires ApplyAll(baseDir, lines).ok
    requires j < |lines| && StartsWith(lines[j], KeyName(k))
    requires forall i :: j < i < |lines| ==> !StartsWith(lines[i], KeyName(k))
    ensures Parsed(baseDir, k, lines[j]).Some?
    ensures Get(ApplyAll(baseDir, lines).settings, k) == Parsed(baseDir, k, lines[j]).value
    decreases |lines|
  {
    var init := lines[..|lines| - 1];
    var prev := ApplyAll(baseDir, init);
    ApplyLineSpec(baseDir, prev.settings, lines[|lines| - 1]);
    if j < |lines| - 1 {
      assert forall i :: 0 <= i < |init| ==> init[i] == lines[i];
      LastLineWins(baseDir, init, k, j);
    }
  }

  // ---------------------------------------------------------------------
  // The file LoadConfig reads

  /** The lines ReadAllLines returns for the default config.ini LoadConfig
      writes when there is none. */
  const DefaultConfigLines: seq<string> := [
    "[CONFIG]",
    "POLLING_INTERVAL_SECONDS=60",
    "SOURCE_DIR=./SOURCE_DIR",
    "ARCHIVE_DIR=./ARCHIVE_DIR",
    "LOG_DIR=./LOG_DIR",
    "RESULT_CSV=./BLD_RESULT.csv"]

  /** config.ini as LoadConfig finds it: its lines, absent (and whether
      writing the default one would throw), or present but unreadable. */
  datatype ConfigFile = Present(lines: seq<string>) | Absent(writeFails: bool) | Unreadable

  /** The lines the loop runs over; None where reading or writing throws. */
  function LinesRead(file: ConfigFile): Option<seq<string>> {
    match file
    case Present(lines) => Some(lines)
    case Absent(writeFails) => if writeFails then None else Some(DefaultConfigLines)
    case Unreadable => None
  }

  /** "KEY=rest" yields rest when neither part holds another '='. */
  lemma KeyValueField(key: string, rest: string)
    requires '=' !in key && '=' !in rest
    ensures Field1(key + "=" + rest) == Some(rest)
  {
    SplitAppend(key, '=', rest);
    SplitNoSep(rest, '=');
    assert key + "=" + rest == key + ['='] + rest;
  }

  /** Trim keeps a string with no white space at either end. */
  lemma TrimKeeps(s: string)
    requires |s| > 0 ==> !IsWhiteSpace(s[0]) && !IsWhiteSpace(s[|s| - 1])
    ensures Trim(s) == s
  {
  }

  /** A path without '/' holds no "./". */
  lemma NoSlashNoDotSlash(value: string)
    requires '/' !in value
    ensures !HasDotSlash(value)
  {
  }

  /** A leading "./" is removed, and the rest kept when it holds no "./". */
  lemma DotSlashPrefix(value: string)
    requires !HasDotSlash(value)
    ensures RemoveDotSlash("./" + value) == value
  {
    assert ("./" + value)[2..] == value;
    RemoveDotSlashKeeps(value);
  }

  /** A directory line "KEY=./value" sets KEY to value under baseDir. */
  lemma DirectoryLine(baseDir: string, k: Key, value: string, line: string)
    requires k != PollingIntervalSeconds && line == KeyName(k) + "=" + ("./" + value)
    requires '=' !in value && '/' !in value
    requires |value| > 0 && !IsWhiteSpace(value[|value| - 1])
    ensures StartsWith(line, KeyName(k))
    ensures Parsed(baseDir, k, line) == Some(Path(Some(Combine(baseDir, value))))
  {
    var rest := "./" + value;
    assert line[..|KeyName(k)|] == KeyName(k);
    assert '=' !in rest by {
      assert forall i :: 2 <= i < |rest| ==> rest[i] == value[i - 2];
    }
    assert '=' !in KeyName(k);
    KeyValueField(KeyName(k), rest);
    TrimKeeps(rest);
    NoSlashNoDotSlash(value);
    DotSlashPrefix(value);
  }

  /** The polling line "POLLING_INTERVAL_SECONDS=60" sets the interval to 60. */
  lemma PollingLine(baseDir: string, line: string)
    requires line == KeyName(PollingIntervalSeconds) + "=" + Decimal(60)
    ensures StartsWith(line, KeyName(PollingIntervalSeconds))
    ensures Parsed(baseDir, PollingIntervalSeconds, line) == Some(Number(60))
  {
    var k := PollingIntervalSeconds;
    assert line[..|KeyName(k)|] == KeyName(k);
    assert '=' !in KeyName(k);
    assert '=' !in Decimal(60);
    KeyValueField(KeyName(k), Decimal(60));
    TrimKeeps(Decimal(60));
    ParseDecimal(60);
  }

  /** Two settings agree when every key reads the same. */
  lemma SettingsByKeys(s: Settings, t: Settings)
    requires forall k :: Get(s, k) == Get(t, k)
    ensures s == t
  {
    assert Get(s, PollingIntervalSeconds) == Get(t, PollingIntervalSeconds);
    assert Get(s, SourceDir) == Get(t, SourceDir);
    assert Get(s, ArchiveDir) == Get(t, ArchiveDir);
    assert Get(s, LogDir) == Get(t, LogDir);
    assert Get(s, ResultCsv) == Get(t, ResultCsv);
  }

  /** The settings of the default config.ini. */
  function DefaultSettings(baseDir: string): Settings {
    Settings(60, Some(Combine(baseDir, "SOURCE_DIR")), Some(Combine(baseDir, "ARCHIVE_DIR")),
      Some(Combine(baseDir, "LOG_DIR")), Some(Combine(baseDir, "BLD_RESULT.csv")))
  }

  /** A line that starts with key k and can be read for it is LineOk. */
  lemma KeyLineOk(baseDir: string, line: string, k: Key)
    requires StartsWith(line, KeyName(k)) && Parsed(baseDir, k, line).Some?
    ensures LineOk(line)
  {
    forall k' | StartsWith(line, KeyName(k')) ensures k' == k {
      KeysExclusive(line, k, k');
    }
    ParsedSome(baseDir, k, line);
  }

  /** A line that starts with key k and holds v for it sets k to v and
      nothing else. */
  lemma SetsKey(baseDir: string, s: Settings, line: string, k: Key, v: Value)
    requires StartsWith(line, KeyName(k)) && Parsed(baseDir, k, line) == Some(v)
    ensures ApplyLine(baseDir, s, line) == Some(Set(s, k, v))
  {
    KeyLineOk(baseDir, line, k);
    ApplyLineSpec(baseDir, s, line);
    var r := ApplyLine(baseDir, s, line).value;
    forall k' ensures Get(r, k') == Get(Set(s, k, v), k') {
      GetSet(s, k, v, k');
      if k' != k && StartsWith(line, KeyName(k')) {
        KeysExclusive(line, k, k');
      }
    }
    SettingsByKeys(r, Set(s, k, v));
  }

  /** A line that starts with no key changes nothing. */
  lemma SetsNothing(baseDir: string, s: Settings, line: string)
    requires forall k :: !StartsWith(line, KeyName(k))
    ensures ApplyLine(baseDir, s, line) == Some(s)
  {
  }

  /** One more line of the loop, where the lines before it left s and this
      one leaves s'. */
  lemma ApplyAllStep(baseDir: string, lines: seq<string>, j: nat, s: Settings, s': Settings)
    requires 0 < j <= |lines| && ApplyAll(baseDir, lines[..j - 1]) == Outcome(s, true)
    requires ApplyLine(baseDir, s, lines[j - 1]) == Some(s')
    ensures ApplyAll(baseDir, lines[..j]) == Outcome(s', true)
  {
    assert lines[..j][..j - 1] == lines[..j - 1];
  }

  /** The section header sets no key. */
  lemma HeaderSetsNothing(line: string, k: Key)
    requires line == "[CONFIG]"
    ensures !StartsWith(line, KeyName(k))
  {
    assert line[0] == '[';
  }

  /** With no config.ini, LoadConfig writes the default one and reads back a
      60-second polling interval and the four paths under baseDir. */
  lemma DefaultConfig(baseDir: string, lines: seq<string>)
    requires lines == DefaultConfigLines
    ensures ApplyAll(baseDir, lines) == Outcome(DefaultSettings(baseDir), true)
  {
    DefaultFromLines(baseDir, lines);
  }

  /** Where config.ini is missing and writing the default one succeeds,
      LoadConfig succeeds with the default settings. */
  lemma AbsentConfigDefaults(baseDir: string)
    ensures LinesRead(Absent(false)).Some?
    ensures ApplyAll(baseDir, LinesRead(Absent(false)).value) == Outcome(DefaultSettings(baseDir), true)
  {
    DefaultConfig(baseDir, LinesRead(Absent(false)).value);
  }

  /** DefaultConfig, line by line. */
  lemma DefaultFromLines(baseDir: string, lines: seq<string>)
    requires |lines| == 6 && lines[0] == "[CONFIG]" && lines[1] == "POLLING_INTERVAL_SECONDS=60"
    requires lines[2] == "SOURCE_DIR=./SOURCE_DIR" && lines[3] == "ARCHIVE_DIR=./ARCHIVE_DIR"
    requires lines[4] == "LOG_DIR=./LOG_DIR" && lines[5] == "RESULT_CSV=./BLD_RESULT.csv"
    ensures ApplyAll(baseDir, lines) == Outcome(DefaultSettings(baseDir), true)
  {
    forall k ensures !StartsWith(lines[0], KeyName(k)) {
      HeaderSetsNothing(lines[0], k);
    }
    DefaultPollingLine(baseDir, lines[1]);
    DefaultSourceDirLine(baseDir, lines[2]);
    DefaultArchiveDirLine(baseDir, lines[3]);
    DefaultLogDirLine(baseDir, lines[4]);
    DefaultResultCsvLine(baseDir, lines[5]);
    DefaultChainHead(baseDir, lines);
    DefaultChainMiddle(baseDir, lines);
    DefaultChainLast(baseDir, lines);
  }

  /** Line 1 of the default config.ini. */
  lemma DefaultPollingLine(baseDir: string, line: string)
    requires line == "POLLING_INTERVAL_SECONDS=60"
    ensures StartsWith(line, KeyName(PollingIntervalSeconds))
    ensures Parsed(baseDir, PollingIntervalSeconds, line) == Some(Number(60))
  {
    assert Decimal(60) == "60";
    assert line == KeyName(PollingIntervalSeconds) + "=" + Decimal(60);
    PollingLine(baseDir, line);
  }

  /** Line 2 of the default config.ini. */
  lemma DefaultSourceDirLine(baseDir: string, line: string)
    requires line == "SOURCE_DIR=./SOURCE_DIR"
    ensures StartsWith(line, KeyName(SourceDir))
    ensures Parsed(baseDir, SourceDir, line) == Some(Get(DefaultSettings(baseDir), SourceDir))
  {
    assert line == KeyName(SourceDir) + "=" + ("./" + "SOURCE_DIR");
    DirectoryLine(baseDir, SourceDir, "SOURCE_DIR", line);
  }

  /** Line 3 of the default config.ini. */
  lemma DefaultArchiveDirLine(baseDir: string, line: string)
    requires line == "ARCHIVE_DIR=./ARCHIVE_DIR"
    ensures StartsWith(line, KeyName(ArchiveDir))
    ensures Parsed(baseDir, ArchiveDir, line) == Some(Get(DefaultSettings(baseDir), ArchiveDir))
  {
    assert line == KeyName(ArchiveDir) + "=" + ("./" + "ARCHIVE_DIR");
    DirectoryLine(baseDir, ArchiveDir, "ARCHIVE_DIR", line);
  }

  /** Line 4 of the default config.ini. */
  lemma DefaultLogDirLine(baseDir: string, line: string)
    requires line == "LOG_DIR=./LOG_DIR"
    ensures StartsWith(line, KeyName(LogDir))
    ensures Parsed(baseDir, LogDir, line) == Some(Get(DefaultSettings(baseDir), LogDir))
  {
    assert line == KeyName(LogDir) + "=" + ("./" + "LOG_DIR");
    DirectoryLine(baseDir, LogDir, "LOG_DIR", line);
  }

  /** Line 5 of the default config.ini. */
  lemma DefaultResultCsvLine(baseDir: string, line: string)
    requires line == "RESULT_CSV=./BLD_RESULT.csv"
    ensures StartsWith(line, KeyName(ResultCsv))
    ensures Parsed(baseDir, ResultCsv, line) == Some(Get(DefaultSettings(baseDir), ResultCsv))
  {
    assert line == KeyName(ResultCsv) + "=" + ("./" + "BLD_RESULT.csv");
    DirectoryLine(baseDir, ResultCsv, "BLD_RESULT.csv", line);
  }

  /** One more line of the loop, where that line sets key k to v. */
  lemma KeyStep(baseDir: string, lines: seq<string>, j: nat, s: Settings, k: Key, v: Value)
    requires 0 < j <= |lines| && ApplyAll(baseDir, lines[..j - 1]) == Outcome(s, true)
    requires StartsWith(lines[j - 1], KeyName(k)) && Parsed(baseDir, k, lines[j - 1]) == Some(v)
    ensures ApplyAll(baseDir, lines[..j]) == Outcome(Set(s, k, v), true)
  {
    SetsKey(baseDir, s, lines[j - 1], k, v);
    ApplyAllStep(baseDir, lines, j, s, Set(s, k, v));
  }

  /** The settings after the first three lines of the default config.ini. */
  function DefaultAfterSource(baseDir: string): Settings {
    Set(Set(Initial, PollingIntervalSeconds, Number(60)), SourceDir, Get(DefaultSettings(baseDir), SourceDir))
  }

  /** The first three lines: the header, the polling interval, SOURCE_DIR. */
  lemma DefaultChainHead(baseDir: string, lines: seq<string>)
    requires |lines| == 6 && forall k :: !StartsWith(lines[0], KeyName(k))
    requires StartsWith(lines[1], KeyName(PollingIntervalSeconds))
    requires StartsWith(lines[2], KeyName(SourceDir))
    requires Parsed(baseDir, PollingIntervalSeconds, lines[1]) == Some(Number(60))
    requires Parsed(baseDir, SourceDir, lines[2]) == Some(Get(DefaultSettings(baseDir), SourceDir))
    ensures ApplyAll(baseDir, lines[..3]) == Outcome(DefaultAfterSource(baseDir), true)
  {
    assert lines[..0] == [];
    SetsNothing(baseDir, Initial, lines[0]);
    ApplyAllStep(baseDir, lines, 1, Initial, Initial);
    KeyStep(baseDir, lines, 2, Initial, PollingIntervalSeconds, Number(60));
    KeyStep(baseDir, lines, 3, Set(Initial, PollingIntervalSeconds, Number(60)),
      SourceDir, Get(DefaultSettings(baseDir), SourceDir));
  }

  /** The settings after the first five lines of the default config.ini. */
  function DefaultAfterLog(baseDir: string): Settings {
    var d := DefaultSettings(baseDir);
    Set(Set(DefaultAfterSource(baseDir), ArchiveDir, Get(d, ArchiveDir)), LogDir, Get(d, LogDir))
  }

  /** The fourth and fifth lines: ARCHIVE_DIR and LOG_DIR. */
  lemma DefaultChainMiddle(baseDir: string, lines: seq<string>)
    requires |lines| == 6 && ApplyAll(baseDir, lines[..3]) == Outcome(DefaultAfterSource(baseDir), true)
    requires StartsWith(lines[3], KeyName(ArchiveDir)) && StartsWith(lines[4], KeyName(LogDir))
    requires Parsed(baseDir, ArchiveDir, lines[3]) == Some(Get(DefaultSettings(baseDir), ArchiveDir))
    requires Parsed(baseDir, LogDir, lines[4]) == Some(Get(DefaultSettings(baseDir), LogDir))
    ensures ApplyAll(baseDir, lines[..5]) == Outcome(DefaultAfterLog(baseDir), true)
  {
    var d := DefaultSettings(baseDir);
    var s2 := DefaultAfterSource(baseDir);
    KeyStep(baseDir, lines, 4, s2, ArchiveDir, Get(d, ArchiveDir));
    KeyStep(baseDir, lines, 5, Set(s2, ArchiveDir, Get(d, ArchiveDir)), LogDir, Get(d, LogDir));
  }

  /** The last line of the loop, where that line sets key k to v. */
  lemma LastKeyStep(baseDir: string, lines: seq<string>, s: Settings, k: Key, v: Value)
    requires 0 < |lines| && ApplyAll(baseDir, lines[..|lines| - 1]) == Outcome(s, true)
    requires StartsWith(lines[|lines| - 1], KeyName(k)) && Parsed(baseDir, k, lines[|lines| - 1]) == Some(v)
    ensures ApplyAll(baseDir, lines) == Outcome(Set(s, k, v), true)
  {
    KeyStep(baseDir, lines, |lines|, s, k, v);
    assert lines[..|lines|] == lines;
  }

  /** Setting RESULT_CSV after the first five lines gives the default settings. */
  lemma DefaultAfterAll(baseDir: string)
    ensures Set(DefaultAfterLog(baseDir), ResultCsv, Get(DefaultSettings(baseDir), ResultCsv)) == DefaultSettings(baseDir)
  {
  }

  /** The last line, RESULT_CSV, completes the default settings. */
  lemma DefaultChainLast(baseDir: string, lines: seq<string>)
    requires |lines| == 6 && ApplyAll(baseDir, lines[..5]) == Outcome(DefaultAfterLog(baseDir), true)
    requires StartsWith(lines[5], KeyName(ResultCsv))
    requires Parsed(baseDir, ResultCsv, lines[5]) == Some(Get(DefaultSettings(baseDir), ResultCsv))
    ensures ApplyAll(baseDir, lines) == Outcome(DefaultSettings(baseDir), true)
  {
    LastKeyStep(baseDir, lines, DefaultAfterLog(baseDir), ResultCsv, Get(DefaultSettings(baseDir), ResultCsv));
    DefaultAfterAll(baseDir);
  }

  /** AppConfig, with the properties LoadConfig sets. */
  class AppConfig {
    var pollingIntervalSeconds: int
    var sourceDir: Option<string>
    var archiveDir: Option<string>
    var logDir: Option<string>
    var resultCsv: Option<string>

    constructor ()
      ensures Values() == Initial
    {
      pollingIntervalSeconds, sourceDir, archiveDir, logDir, resultCsv := 0, None, None, None, None;
    }

    function Values(): Settings
      reads this
    {
      Settings(pollingIntervalSeconds, sourceDir, archiveDir, logDir, resultCsv)
    }
  }

  /** Stores v in key k's property of config. */
  method Store(config: AppConfig, k: Key, v: Value)
    requires v.Number? <==> k == PollingIntervalSeconds
    modifies config
    ensures config.Values() == Set(old(config.Values()), k, v)
  {
    if k == PollingIntervalSeconds {
      config.pollingIntervalSeconds := v.n;
    } else if k == SourceDir {
      config.sourceDir := v.p;
    } else if k == ArchiveDir {
      config.archiveDir := v.p;
    } else if k == LogDir {
      config.logDir := v.p;
    } else {
      config.resultCsv := v.p;
    }
  }

  /** One of the five checks of LoadConfig's loop body: where the line starts
      with key k, read the value after its first '=' (Parsed) and store it
      in k's property; `ok` is false where reading throws, and nothing is
      stored. */
  method CheckKey(config: AppConfig, baseDir: string, line: string, k: Key) returns (ok: bool)
    modifies config
    ensures ok == Step(baseDir, Some(old(config.Values())), k, line).Some?
    ensures ok ==> Some(config.Values()) == Step(baseDir, Some(old(config.Values())), k, line)
    ensures !ok ==> config.Values() == old(config.Values())
  {
    if StartsWith(line, KeyName(k)) {
      var v := Parsed(baseDir, k, line);
      if v.None? {
        return false;
      }
      Store(config, k, v.value);
    }
    ok := true;
  }

  /** The body of LoadConfig's loop: the five checks of one line, in source
      order; `ok` is false where the line throws, and the config is then as
      the earlier checks of this line left it (a line sets at most one
      setting, so as before the line). */
  method ApplyConfigLine(config: AppConfig, baseDir: string, line: string) returns (ok: bool)
    modifies config
    ensures ok == ApplyLine(baseDir, old(config.Values()), line).Some?
    ensures ok ==> config.Values() == ApplyLine(baseDir, old(config.Values()), line).value
    ensures !ok ==> config.Values() == old(config.Values())
  {
    ok := CheckKey(config, baseDir, line, PollingIntervalSeconds);
    if !ok {
      return;
    }
    ok := CheckKey(config, baseDir, line, SourceDir);
    if !ok {
      OnlyKey(line, SourceDir);
      return;
    }
    ok := CheckKey(config, baseDir, line, ArchiveDir);
    if !ok {
      OnlyKey(line, ArchiveDir);
      return;
    }
    ok := CheckKey(config, baseDir, line, LogDir);
    if !ok {
      OnlyKey(line, LogDir);
      return;
    }
    ok := CheckKey(config, baseDir, line, ResultCsv);
    if !ok {
      OnlyKey(line, ResultCsv);
    }
  }

  /** LoadConfig, with AppDomain.CurrentDomain.BaseDirectory as `baseDir`:
      a new AppConfig filled in line by line; `ok` is false when reading,
      writing or a line throws, and the AppConfig then holds what the lines
      before the failing one set. */
  /** The foreach loop of LoadConfig over the lines of config.ini, on a
      fresh AppConfig; `ok` is false when a line threw. */
  method ApplyLines(config: AppConfig, baseDir: string, lines: seq<string>) returns (ok: bool)
    requires config.Values() == Initial
    modifies config
    ensures ok == ApplyAll(baseDir, lines).ok
    ensures config.Values() == ApplyAll(baseDir, lines).settings
  {
    for i := 0 to |lines|
      invariant ApplyAll(baseDir, lines[..i]) == Outcome(config.Values(), true)
    {
      assert lines[..i + 1][..i] == lines[..i];
      ok := ApplyConfigLine(config, baseDir, lines[i]);
      if !ok {
        ApplyAllStops(baseDir, lines, i + 1);
        return false;
      }
    }
    assert lines[..|lines|] == lines;
    ok := true;
  }

  method LoadConfig(baseDir: string, file: ConfigFile) returns (config: AppConfig, ok: bool)
    ensures fresh(config)
    ensures LinesRead(file).None? ==> !ok && config.Values() == Initial
    ensures LinesRead(file).Some? ==> var out := ApplyAll(baseDir, LinesRead(file).value);
      ok == out.ok && config.Values() == out.settings
  {
    config := new AppConfig();
    var read := LinesRead(file);
    if read.None? {
      return config, false;
    }
    ok := ApplyLines(config, baseDir, read.value);
  }
}
